/**
 * MessageService: messages may be exchanged only on an ACCEPTED or DONE request;
 * the receiver is the other party as seen from the requester; every stored
 * message sends one MESSAGE_RECEIVED notification. The two queries return the
 * messages of a request or of a user, newest first.
 */
module MessageService {
  import opened Domain
  import opened Store
  import opened Seqs
  import Notifications

  /** Messaging is open on ACCEPTED and DONE requests only. */
  predicate MessagingOpen(r: RequestRow) {
    r.status == Accepted || r.status == Done
  }

  /** The receiver: the item owner when the requester writes, the requester when anybody else does. */
  function Receiver(r: RequestRow, senderId: UserId): (u: UserId)
    ensures u == r.ownerId || u == r.requesterId
    ensures u == r.ownerId && r.ownerId != r.requesterId ==> senderId == r.requesterId
  {
    if senderId == r.requesterId then r.ownerId else r.requesterId
  }

  /** Between the two parties of a request (distinct users), each message reaches the other one. */
  lemma ReceiverIsCounterparty(r: RequestRow, senderId: UserId)
    requires r.requesterId != r.ownerId
    requires senderId == r.requesterId || senderId == r.ownerId
    ensures Receiver(r, senderId) != senderId
    ensures Receiver(r, senderId) == r.requesterId || Receiver(r, senderId) == r.ownerId
  {
  }

  /** A sender who is neither party still reaches the requester: the sender is never checked. */
  lemma ThirdPartyReachesRequester(r: RequestRow, senderId: UserId)
    requires senderId != r.requesterId && senderId != r.ownerId
    ensures Receiver(r, senderId) == r.requesterId
  {
  }

  /**
   * sendMessage(senderId, requestId, content) without its writes: the request must
   * exist, then be open for messaging, then the sender must exist. On success, the
   * message that is stored under id `msgId`.
   */
  function Send(request: Option<RequestRow>, users: set<UserId>, senderId: UserId, content: string,
                msgId: MessageId, now: Time): (r: Result<Message>)
    ensures request.None? ==> r == Failure(NotFound(RequestEntity))
    ensures request.Some? && !MessagingOpen(request.value) ==> r == Failure(MessagingClosed)
    ensures request.Some? && MessagingOpen(request.value) && senderId !in users ==> r == Failure(NotFound(UserEntity))
    ensures r.Success? <==> request.Some? && MessagingOpen(request.value) && senderId in users
    ensures r.Success? ==>
      && r.value.id == msgId && r.value.requestId == request.value.id
      && r.value.senderId == senderId && r.value.receiverId == Receiver(request.value, senderId)
      && r.value.content == content && r.value.sentAt == now
  {
    if request.None? then Failure(NotFound(RequestEntity))
    else if !MessagingOpen(request.value) then Failure(MessagingClosed)
    else if senderId !in users then Failure(NotFound(UserEntity))
    else Success(Message(msgId, request.value.id, senderId, Receiver(request.value, senderId), content, now))
  }

  /** The notification a stored message `m` about request `r` sends to its receiver. */
  function Received(r: RequestRow, m: Message): Event {
    Event(m.receiverId, MessageReceived, Some(r.itemId), Some(r.id), Some(m.id))
  }

  /** sendMessage: stores the message `Send` yields and notifies its receiver. */
  method SendMessage(db: Database, senderId: UserId, requestId: RequestId, content: string, now: Time)
    returns (res: Result<Message>)
    requires db.Valid()
    modifies db`messages, db`nextMessageId, db`notifications, db`nextNotificationId
    ensures db.Valid()
    ensures var found := old(IndexOfId(db.requests, RequestIdOf, requestId));
      var request := if found.Some? then Some(old(db.requests[found.value].Row())) else None;
      match Send(request, db.users, senderId, content, old(db.nextMessageId), now)
      case Failure(e) =>
        && res == Failure(e)
        && db.messages == old(db.messages) && db.nextMessageId == old(db.nextMessageId)
        && db.notifications == old(db.notifications) && db.nextNotificationId == old(db.nextNotificationId)
      case Success(m) =>
        && res == Success(m)
        && db.messages == old(db.messages) + [m] && db.nextMessageId == old(db.nextMessageId) + 1
        && db.notifications == old(db.notifications)
                               + Notifications.Stored([Received(request.value, m)], old(db.nextNotificationId), now)
        && db.nextNotificationId == old(db.nextNotificationId) + 1
  {
    var found := IndexOfId(db.requests, RequestIdOf, requestId);
    if found.None? {
      return Failure(NotFound(RequestEntity));
    }
    var request := db.requests[found.value].Row();
    if request.status != Accepted && request.status != Done {
      return Failure(MessagingClosed);
    }
    if senderId !in db.users {
      return Failure(NotFound(UserEntity));
    }
    var receiver := if senderId == request.requesterId then request.ownerId else request.requesterId;
    var m := Message(db.nextMessageId, request.id, senderId, receiver, content, now);
    db.InsertMessage(m);
    Notifications.Emit(db, [Event(receiver, MessageReceived, Some(request.itemId), Some(request.id), Some(m.id))], now);
    res := Success(m);
  }

  function SentAt(m: Message): int {
    m.sentAt
  }

  function OfRequest(requestId: RequestId): Message -> bool {
    (m: Message) => m.requestId == requestId
  }

  function OfUser(userId: UserId): Message -> bool {
    (m: Message) => m.senderId == userId || m.receiverId == userId
  }

  /** getMessagesByRequestId: the request's messages, newest first. */
  function MessagesByRequest(messages: seq<Message>, requestId: RequestId): (r: seq<Message>)
    ensures SortedDesc(r, SentAt)
    ensures multiset(r) == multiset(Filter(messages, OfRequest(requestId)))
    ensures forall m :: m in r <==> m in messages && m.requestId == requestId
  {
    var r := SortDesc(Filter(messages, OfRequest(requestId)), SentAt);
    assert forall m :: m in r <==> m in multiset(Filter(messages, OfRequest(requestId)));
    r
  }

  /** getUserMessages: the messages the user sent or received, newest first. */
  function UserMessages(messages: seq<Message>, userId: UserId): (r: seq<Message>)
    ensures SortedDesc(r, SentAt)
    ensures multiset(r) == multiset(Filter(messages, OfUser(userId)))
    ensures forall m :: m in r <==> m in messages && (m.senderId == userId || m.receiverId == userId)
  {
    var r := SortDesc(Filter(messages, OfUser(userId)), SentAt);
    assert forall m :: m in r <==> m in multiset(Filter(messages, OfUser(userId)));
    r
  }

  /** A stored message is listed for its request, its sender and its receiver. */
  lemma SentMessageListed(messages: seq<Message>, m: Message)
    ensures m in MessagesByRequest(messages + [m], m.requestId)
    ensures m in UserMessages(messages + [m], m.senderId)
    ensures m in UserMessages(messages + [m], m.receiverId)
  {
    assert m in messages + [m];
  }
}
