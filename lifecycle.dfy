/**
 * The transfer lifecycle of RequestService as pure transitions. Each operation,
 * given the request row and the row of the item it references, either refuses
 * with the first guard that fails (before anything is written) or yields the new
 * request row, the new item row and the notifications it sends, in the order it
 * sends them.
 */
module Lifecycle {
  import opened Domain

  datatype Outcome =
    | Refused(error: Error)
    | Applied(request: RequestRow, item: ItemRow, events: seq<Event>)

  /** A notification about request `requestId` on item `itemId`, as every lifecycle operation sends. */
  function Notify(to: UserId, kind: NotificationType, itemId: ItemId, requestId: RequestId): Event {
    Event(to, kind, Some(itemId), Some(requestId), None)
  }

  /** Both return confirmations are present and true. */
  predicate ReturnConfirmed(r: RequestRow) {
    IsTrue(r.borrowerConfirmedReturn) && IsTrue(r.lenderConfirmedReturn)
  }

  /** Where a fully confirmed return leaves the item: SOLD for SELL, AVAILABLE otherwise (LEND or no type). */
  function FinalStatus(item: ItemRow): ItemStatus {
    if item.itemType == Some(Sell) then Sold else Available
  }

  /** The number of events of kind `kind`. */
  function CountKind(events: seq<Event>, kind: NotificationType): (c: nat)
    ensures c <= |events|
    ensures c == 0 <==> forall i :: 0 <= i < |events| ==> events[i].kind != kind
  {
    if events == [] then 0
    else (if events[0].kind == kind then 1 else 0) + CountKind(events[1..], kind)
  }

  /**
   * createRequest: the item must exist, then the requester, then the item must be
   * AVAILABLE. The new request is PENDING with no confirmation and no timestamp
   * but its creation time, and only the owner hears of it.
   */
  function CreateRequest(item: Option<ItemRow>, requesterKnown: bool, requesterId: UserId,
                         newId: RequestId, now: Time): (o: Outcome)
    ensures item.None? ==> o == Refused(NotFound(ItemEntity))
    ensures item.Some? && !requesterKnown ==> o == Refused(NotFound(UserEntity))
    ensures item.Some? && requesterKnown && item.value.status != Available ==> o == Refused(ItemNotAvailable)
    ensures o.Applied? <==> item.Some? && requesterKnown && item.value.status == Available
    ensures o.Applied? ==>
      && o.request == RequestRow(newId, item.value.id, item.value.ownerId, requesterId, now, Pending,
                                 None, None, None, None, None, None, None)
      && o.item == item.value
      && o.events == [Notify(item.value.ownerId, RequestCreated, item.value.id, newId)]
  {
    if item.None? then Refused(NotFound(ItemEntity))
    else if !requesterKnown then Refused(NotFound(UserEntity))
    else if item.value.status != Available then Refused(ItemNotAvailable)
    else
      var r := RequestRow(newId, item.value.id, item.value.ownerId, requesterId, now, Pending,
                          None, None, None, None, None, None, None);
      Applied(r, item.value, [Notify(item.value.ownerId, RequestCreated, item.value.id, newId)])
  }

  /**
   * updateRequestStatus: any status is accepted. ACCEPTED makes the item
   * UNAVAILABLE; ACCEPTED and REJECTED each send their own notification; any other
   * status sends REQUEST_STATUS_CHANGED only when it differs from the old one.
   */
  function UpdateRequestStatus(req: RequestRow, item: ItemRow, status: RequestStatus): (o: Outcome)
    ensures o.Applied? && o.request == req.(status := status)
    ensures o.item == if status == Accepted then item.(status := Unavailable) else item
    ensures |o.events| <= 1
    ensures forall i :: 0 <= i < |o.events| ==>
      && o.events[i].recipient == req.requesterId && o.events[i].relatedRequest == Some(req.id)
      && o.events[i].relatedItem == Some(item.id) && o.events[i].relatedMessage == None
    ensures status != Accepted && status != Rejected && req.status == status ==> o.events == []
    ensures CountKind(o.events, RequestAccepted) == (if status == Accepted then 1 else 0)
    ensures CountKind(o.events, RequestRejected) == (if status == Rejected then 1 else 0)
    ensures CountKind(o.events, RequestStatusChanged) > 0
        <==> req.status != status && status != Accepted && status != Rejected
  {
    var r := req.(status := status);
    if status == Accepted then
      Applied(r, item.(status := Unavailable), [Notify(req.requesterId, RequestAccepted, item.id, req.id)])
    else if status == Rejected then
      Applied(r, item, [Notify(req.requesterId, RequestRejected, item.id, req.id)])
    else if req.status != status then
      Applied(r, item, [Notify(req.requesterId, RequestStatusChanged, item.id, req.id)])
    else
      Applied(r, item, [])
  }

  /**
   * markRequestAsDone: DONE from any status, the item untouched, and
   * REQUEST_COMPLETED to the requester and then to the owner.
   */
  function MarkRequestAsDone(req: RequestRow, item: ItemRow): (o: Outcome)
    ensures o.Applied? && o.request == req.(status := Done) && o.item == item
    ensures o.events == [Notify(req.requesterId, RequestCompleted, item.id, req.id),
                         Notify(item.ownerId, RequestCompleted, item.id, req.id)]
    ensures CountKind(o.events, RequestCompleted) == 2
  {
    Applied(req.(status := Done), item,
            [Notify(req.requesterId, RequestCompleted, item.id, req.id),
             Notify(item.ownerId, RequestCompleted, item.id, req.id)])
  }

  /**
   * confirmReturn: only a DONE request; `userId` is never compared with anyone.
   * The flag chosen by `isBorrower` is set and the other party hears of it. Once
   * both flags are true the item gets its final status, `completedAt` is set and
   * both parties are notified again.
   */
  function ConfirmReturn(req: RequestRow, item: ItemRow, userId: UserId, isBorrower: bool, now: Time): (o: Outcome)
    ensures o.Refused? <==> req.status != Done
    ensures o.Refused? ==> o.error == NotDone
    ensures o.Applied? ==>
      && o.request.status == Done
      && (if isBorrower then IsTrue(o.request.borrowerConfirmedReturn)
                             && o.request.lenderConfirmedReturn == req.lenderConfirmedReturn
          else IsTrue(o.request.lenderConfirmedReturn)
               && o.request.borrowerConfirmedReturn == req.borrowerConfirmedReturn)
      && o.request.(borrowerConfirmedReturn := req.borrowerConfirmedReturn,
                    lenderConfirmedReturn := req.lenderConfirmedReturn,
                    completedAt := req.completedAt) == req
      && |o.events| >= 1
      && o.events[0] == Notify(if isBorrower then item.ownerId else req.requesterId,
                               RequestStatusChanged, item.id, req.id)
    ensures o.Applied? && ReturnConfirmed(o.request) ==>
      && o.item == item.(status := FinalStatus(item))
      && o.request.completedAt == Some(now)
      && |o.events| == 3
      && o.events[1..] == [Notify(req.requesterId, RequestStatusChanged, item.id, req.id),
                           Notify(item.ownerId, RequestStatusChanged, item.id, req.id)]
    ensures o.Applied? && !ReturnConfirmed(o.request) ==>
      o.item == item && o.request.completedAt == req.completedAt && |o.events| == 1
  {
    if req.status != Done then Refused(NotDone)
    else
      var flagged := if isBorrower then req.(borrowerConfirmedReturn := Some(true))
                     else req.(lenderConfirmedReturn := Some(true));
      var first := Notify(if isBorrower then item.ownerId else req.requesterId,
                          RequestStatusChanged, item.id, req.id);
      if ReturnConfirmed(flagged) then
        Applied(flagged.(completedAt := Some(now)), item.(status := FinalStatus(item)),
                [first,
                 Notify(req.requesterId, RequestStatusChanged, item.id, req.id),
                 Notify(item.ownerId, RequestStatusChanged, item.id, req.id)])
      else
        Applied(flagged, item, [first])
  }

  /**
   * markAsLent: the caller must be the item owner (checked first), then the
   * request must be ACCEPTED; sets `lenderMarkedAsLent` and `lentAt` and asks the
   * requester to confirm receipt.
   */
  function MarkAsLent(req: RequestRow, item: ItemRow, userId: UserId, now: Time): (o: Outcome)
    ensures userId != item.ownerId ==> o == Refused(Forbidden)
    ensures userId == item.ownerId && req.status != Accepted ==> o == Refused(NotAccepted)
    ensures o.Applied? <==> userId == item.ownerId && req.status == Accepted
    ensures o.Applied? ==>
      && o.request == req.(lenderMarkedAsLent := Some(true), lentAt := Some(now))
      && o.item == item
      && o.events == [Notify(req.requesterId, RequestStatusChanged, item.id, req.id)]
  {
    if userId != item.ownerId then Refused(Forbidden)
    else if req.status != Accepted then Refused(NotAccepted)
    else Applied(req.(lenderMarkedAsLent := Some(true), lentAt := Some(now)), item,
                 [Notify(req.requesterId, RequestStatusChanged, item.id, req.id)])
  }

  /**
   * confirmReceipt: the caller must be the requester, the request ACCEPTED and
   * marked as lent, in that order. A SELL item completes the transaction in the
   * same step; anything else only records the receipt and tells the owner.
   */
  function ConfirmReceipt(req: RequestRow, item: ItemRow, userId: UserId, now: Time): (o: Outcome)
    ensures userId != req.requesterId ==> o == Refused(Forbidden)
    ensures userId == req.requesterId && req.status != Accepted ==> o == Refused(NotAccepted)
    ensures userId == req.requesterId && req.status == Accepted && !IsTrue(req.lenderMarkedAsLent)
            ==> o == Refused(NotMarkedAsLent)
    ensures o.Applied? <==> userId == req.requesterId && req.status == Accepted && IsTrue(req.lenderMarkedAsLent)
    ensures o.Applied? ==> IsTrue(o.request.borrowerConfirmedReceipt) && o.request.receivedAt == Some(now)
    ensures o.Applied? && item.itemType == Some(Sell) ==>
      && o.request == req.(borrowerConfirmedReceipt := Some(true), receivedAt := Some(now),
                           status := Done, completedAt := Some(now))
      && o.item == item.(status := Sold)
      && o.events == [Notify(item.ownerId, RequestCompleted, item.id, req.id),
                      Notify(req.requesterId, RequestCompleted, item.id, req.id)]
    ensures o.Applied? && item.itemType != Some(Sell) ==>
      && o.request == req.(borrowerConfirmedReceipt := Some(true), receivedAt := Some(now))
      && o.item == item
      && o.events == [Notify(item.ownerId, RequestStatusChanged, item.id, req.id)]
  {
    if userId != req.requesterId then Refused(Forbidden)
    else if req.status != Accepted then Refused(NotAccepted)
    else if !IsTrue(req.lenderMarkedAsLent) then Refused(NotMarkedAsLent)
    else
      var received := req.(borrowerConfirmedReceipt := Some(true), receivedAt := Some(now));
      if item.itemType == Some(Sell) then
        Applied(received.(status := Done, completedAt := Some(now)), item.(status := Sold),
                [Notify(item.ownerId, RequestCompleted, item.id, req.id),
                 Notify(req.requesterId, RequestCompleted, item.id, req.id)])
      else
        Applied(received, item, [Notify(item.ownerId, RequestStatusChanged, item.id, req.id)])
  }
}
