/**
 * Shared vocabulary of the GotYourBack backend: identifiers, the enumerations of
 * the JPA entities, the rows the tables hold, and the failures a service can raise.
 */
module Domain {

  datatype Option<T> = None | Some(value: T)

  type UserId = nat
  type ItemId = nat
  type RequestId = nat
  type MessageId = nat
  type NotificationId = nat

  /** A reading of `LocalDateTime.now()`; the model only compares readings for identity. */
  type Time = int

  datatype ItemType = Lend | Sell

  datatype ItemStatus = Available | Sold | Returned | Unavailable

  datatype RequestStatus = Pending | Accepted | Rejected | Done

  datatype NotificationType =
    | RequestCreated
    | RequestAccepted
    | RequestRejected
    | RequestCompleted
    | MessageReceived
    | ItemUpdated
    | ItemDeleted
    | RequestStatusChanged

  /** What a failed lookup did not find. */
  datatype Entity = ItemEntity | RequestEntity | UserEntity | NotificationEntity

  /** The item fields `createItem` insists on. */
  datatype Field = NameField | DescriptionField | CategoryField | TypeField | OwnerIdField

  /**
   * One constructor per exception a service throws. The HTTP status the exception
   * handler maps it to is not modelled.
   */
  datatype Error =
    | NotFound(entity: Entity)   // ResponseStatusException NOT_FOUND, "... not found" RuntimeException, NotificationNotFoundException
    | Forbidden                  // ResponseStatusException FORBIDDEN: wrong actor for markAsLent / confirmReceipt
    | ItemNotAvailable           // BAD_REQUEST "Item is not available"
    | NotAccepted                // BAD_REQUEST "Request must be in ACCEPTED status"
    | NotMarkedAsLent            // BAD_REQUEST "Lender must mark item as lent first"
    | NotDone                    // BAD_REQUEST "Request must be in DONE status"
    | NotItemOwner               // RuntimeException "Only the owner can update this item"
    | MessagingClosed            // RuntimeException "Cannot send messages for non-accepted requests"
    | Unauthorized               // UnauthorizedAccessException on a notification of someone else
    | Missing(field: Field)      // IllegalArgumentException "... is required"
    | ConstraintViolated         // ConstraintViolationException: an Item `@NotBlank` column fails at `save`

  datatype Result<T> = Success(value: T) | Failure(error: Error)

  /** `Boolean.TRUE.equals(b)` on a nullable Boolean: null counts as false. */
  predicate IsTrue(b: Option<bool>) {
    b == Some(true)
  }

  /** The columns of an `items` row. Everything the owner may edit is nullable after `updateItem`. */
  datatype ItemRow = ItemRow(
    id: ItemId,
    ownerId: UserId,
    name: Option<string>,
    description: Option<string>,
    category: Option<string>,
    itemType: Option<ItemType>,
    urgency: Option<string>,
    imageUrl: Option<string>,
    status: ItemStatus)

  /**
   * The columns of a `requests` row: the item and owner it refers to, the four
   * nullable confirmation flags and the three optional timestamps.
   */
  datatype RequestRow = RequestRow(
    id: RequestId,
    itemId: ItemId,
    ownerId: UserId,
    requesterId: UserId,
    createdAt: Time,
    status: RequestStatus,
    lenderMarkedAsLent: Option<bool>,
    borrowerConfirmedReceipt: Option<bool>,
    borrowerConfirmedReturn: Option<bool>,
    lenderConfirmedReturn: Option<bool>,
    lentAt: Option<Time>,
    receivedAt: Option<Time>,
    completedAt: Option<Time>)

  /** The arguments of one `createNotification` call, without the human-readable message. */
  datatype Event = Event(
    recipient: UserId,
    kind: NotificationType,
    relatedItem: Option<ItemId>,
    relatedRequest: Option<RequestId>,
    relatedMessage: Option<MessageId>)

  /** A stored `notifications` row. */
  datatype Notification = Notification(
    id: NotificationId,
    event: Event,
    isRead: bool,
    createdAt: Time,
    readAt: Option<Time>)

  /** A stored `messages` row. */
  datatype Message = Message(
    id: MessageId,
    requestId: RequestId,
    senderId: UserId,
    receiverId: UserId,
    content: string,
    sentAt: Time)
}
