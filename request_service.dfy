/**
 * RequestService: each operation looks the request up, runs its guards, sets
 * fields of the request and of its item in place, then creates the
 * notifications. Every method is specified by the matching transition of
 * `Lifecycle`: on refusal nothing changes, on success the request object, the
 * item object and the notifications table end up exactly as the transition says.
 */
module RequestService {
  import opened Domain
  import opened Store
  import opened Seqs
  import Lifecycle
  import Notifications

  /** The request and item objects after an operation, and the notifications it created. */
  twostate predicate Commits(db: Database, r: Request, o: Lifecycle.Outcome, new res: Result<RequestRow>, now: Time)
    reads db, r, r.item
  {
    match o
    case Refused(e) =>
      && res == Failure(e)
      && r.Row() == old(r.Row()) && r.item.Row() == old(r.item.Row())
      && db.notifications == old(db.notifications)
      && db.nextNotificationId == old(db.nextNotificationId)
    case Applied(request, item, events) =>
      && res == Success(request)
      && r.Row() == request && r.item.Row() == item
      && db.notifications == old(db.notifications) + Notifications.Stored(events, old(db.nextNotificationId), now)
      && db.nextNotificationId == old(db.nextNotificationId) + |events|
  }

  /** createRequest(itemId, requesterId). */
  method CreateRequest(db: Database, itemId: ItemId, requesterId: UserId, now: Time) returns (res: Result<RequestRow>)
    requires db.Valid()
    modifies db`requests, db`nextRequestId, db`notifications, db`nextNotificationId
    ensures db.Valid()
    ensures db.users == old(db.users) && db.items == old(db.items) && db.messages == old(db.messages)
    ensures db.nextItemId == old(db.nextItemId) && db.nextMessageId == old(db.nextMessageId)
    ensures var found := old(IndexOfId(db.items, ItemIdOf, itemId));
      var o := Lifecycle.CreateRequest(if found.Some? then Some(old(db.items[found.value].Row())) else None,
                                       requesterId in old(db.users), requesterId, old(db.nextRequestId), now);
      match o
      case Refused(e) =>
        && res == Failure(e)
        && db.requests == old(db.requests) && db.nextRequestId == old(db.nextRequestId)
        && db.notifications == old(db.notifications) && db.nextNotificationId == old(db.nextNotificationId)
      case Applied(request, item, events) =>
        && res == Success(request)
        && |db.requests| == |old(db.requests)| + 1
        && db.requests[..|old(db.requests)|] == old(db.requests)
        && fresh(db.requests[|old(db.requests)|])
        && db.requests[|old(db.requests)|].Row() == request
        && db.requests[|old(db.requests)|].item == old(db.items[found.value])
        && db.nextRequestId == old(db.nextRequestId) + 1
        && db.notifications == old(db.notifications) + Notifications.Stored(events, old(db.nextNotificationId), now)
        && db.nextNotificationId == old(db.nextNotificationId) + |events|
  {
    var found := IndexOfId(db.items, ItemIdOf, itemId);
    if found.None? {
      return Failure(NotFound(ItemEntity));
    }
    var item := db.items[found.value];
    if requesterId !in db.users {
      return Failure(NotFound(UserEntity));
    }
    if item.status != Available {
      return Failure(ItemNotAvailable);
    }
    var row := RequestRow(db.nextRequestId, item.id, item.ownerId, requesterId, now, Pending,
                          None, None, None, None, None, None, None);
    var request := db.InsertRequest(row, item);
    Notifications.Emit(db, [Lifecycle.Notify(item.ownerId, RequestCreated, item.id, request.id)], now);
    res := Success(request.Row());
  }

  /** updateRequestStatus(id, status). */
  method UpdateRequestStatus(db: Database, requestId: RequestId, status: RequestStatus, now: Time)
    returns (res: Result<RequestRow>)
    requires db.Valid()
    modifies db`notifications, db`nextNotificationId, RequestFootprint(db.requests, requestId)
    ensures db.Valid()
    ensures match old(IndexOfId(db.requests, RequestIdOf, requestId))
      case None => res == Failure(NotFound(RequestEntity)) && unchanged(db)
      case Some(k) =>
        var r := db.requests[k];
        Commits(db, r, Lifecycle.UpdateRequestStatus(old(r.Row()), old(r.item.Row()), status), res, now)
  {
    var found := IndexOfId(db.requests, RequestIdOf, requestId);
    if found.None? {
      return Failure(NotFound(RequestEntity));
    }
    res := UpdateStatusOf(db, db.requests[found.value], status, now);
  }

  /** The body of updateRequestStatus once the request is found. */
  method UpdateStatusOf(db: Database, request: Request, status: RequestStatus, now: Time)
    returns (res: Result<RequestRow>)
    requires db.Valid()
    modifies db`notifications, db`nextNotificationId, request, request.item
    ensures db.Valid()
    ensures Commits(db, request, Lifecycle.UpdateRequestStatus(old(request.Row()), old(request.item.Row()), status),
                    res, now)
  {
    ghost var o := Lifecycle.UpdateRequestStatus(request.Row(), request.item.Row(), status);
    var oldStatus := request.status;
    request.status := status;
    var events := [];
    if status == Accepted {
      request.item.status := Unavailable;
      events := [Lifecycle.Notify(request.requesterId, RequestAccepted, request.item.id, request.id)];
    } else if status == Rejected {
      events := [Lifecycle.Notify(request.requesterId, RequestRejected, request.item.id, request.id)];
    }
    if oldStatus != status && status != Accepted && status != Rejected {
      events := events + [Lifecycle.Notify(request.requesterId, RequestStatusChanged, request.item.id, request.id)];
    }
    assert o == Lifecycle.Applied(request.Row(), request.item.Row(), events);
    Notifications.Emit(db, events, now);
    res := Success(request.Row());
  }

  /** markRequestAsDone(id). */
  method MarkRequestAsDone(db: Database, requestId: RequestId, now: Time) returns (res: Result<RequestRow>)
    requires db.Valid()
    modifies db`notifications, db`nextNotificationId, RequestFootprint(db.requests, requestId)
    ensures db.Valid()
    ensures match old(IndexOfId(db.requests, RequestIdOf, requestId))
      case None => res == Failure(NotFound(RequestEntity)) && unchanged(db)
      case Some(k) =>
        var r := db.requests[k];
        Commits(db, r, Lifecycle.MarkRequestAsDone(old(r.Row()), old(r.item.Row())), res, now)
  {
    var found := IndexOfId(db.requests, RequestIdOf, requestId);
    if found.None? {
      return Failure(NotFound(RequestEntity));
    }
    res := MarkDoneOf(db, db.requests[found.value], now);
  }

  /** The body of markRequestAsDone once the request is found. */
  method MarkDoneOf(db: Database, request: Request, now: Time) returns (res: Result<RequestRow>)
    requires db.Valid()
    modifies db`notifications, db`nextNotificationId, request, request.item
    ensures db.Valid()
    ensures Commits(db, request, Lifecycle.MarkRequestAsDone(old(request.Row()), old(request.item.Row())), res, now)
  {
    request.status := Done;
    Notifications.Emit(db, [Lifecycle.Notify(request.requesterId, RequestCompleted, request.item.id, request.id),
                            Lifecycle.Notify(request.item.ownerId, RequestCompleted, request.item.id, request.id)], now);
    res := Success(request.Row());
  }

  /** confirmReturn(requestId, userId, isBorrower). */
  method ConfirmReturn(db: Database, requestId: RequestId, userId: UserId, isBorrower: bool, now: Time)
    returns (res: Result<RequestRow>)
    requires db.Valid()
    modifies db`notifications, db`nextNotificationId, RequestFootprint(db.requests, requestId)
    ensures db.Valid()
    ensures match old(IndexOfId(db.requests, RequestIdOf, requestId))
      case None => res == Failure(NotFound(RequestEntity)) && unchanged(db)
      case Some(k) =>
        var r := db.requests[k];
        Commits(db, r, Lifecycle.ConfirmReturn(old(r.Row()), old(r.item.Row()), userId, isBorrower, now), res, now)
  {
    var found := IndexOfId(db.requests, RequestIdOf, requestId);
    if found.None? {
      return Failure(NotFound(RequestEntity));
    }
    res := ConfirmReturnOf(db, db.requests[found.value], userId, isBorrower, now);
  }

  /** The body of confirmReturn once the request is found; `userId` is passed along and never read. */
  method ConfirmReturnOf(db: Database, request: Request, userId: UserId, isBorrower: bool, now: Time)
    returns (res: Result<RequestRow>)
    requires db.Valid()
    modifies db`notifications, db`nextNotificationId, request, request.item
    ensures db.Valid()
    ensures Commits(db, request,
                    Lifecycle.ConfirmReturn(old(request.Row()), old(request.item.Row()), userId, isBorrower, now),
                    res, now)
  {
    var item := request.item;
    ghost var before, itemBefore := request.Row(), item.Row();
    if request.status != Done {
      return Failure(NotDone);
    }
    var first := Lifecycle.Notify(if isBorrower then item.ownerId else request.requesterId,
                                  RequestStatusChanged, item.id, request.id);
    ghost var flagged := if isBorrower then before.(borrowerConfirmedReturn := Some(true))
                         else before.(lenderConfirmedReturn := Some(true));
    if isBorrower {
      request.borrowerConfirmedReturn := Some(true);
    } else {
      request.lenderConfirmedReturn := Some(true);
    }
    assert request.Row() == flagged;
    if IsTrue(request.borrowerConfirmedReturn) && IsTrue(request.lenderConfirmedReturn) {
      var events := [first,
                     Lifecycle.Notify(request.requesterId, RequestStatusChanged, item.id, request.id),
                     Lifecycle.Notify(item.ownerId, RequestStatusChanged, item.id, request.id)];
      ghost var itemAfter := itemBefore.(status := Lifecycle.FinalStatus(itemBefore));
      assert Lifecycle.ConfirmReturn(before, itemBefore, userId, isBorrower, now)
          == Lifecycle.Applied(flagged.(completedAt := Some(now)), itemAfter, events);
      if item.itemType == Some(Sell) {
        item.status := Sold;
      } else {
        item.status := Available;
      }
      request.completedAt := Some(now);
      assert item.Row() == itemAfter;
      assert request.Row() == flagged.(completedAt := Some(now));
      Notifications.Emit(db, events, now);
    } else {
      assert Lifecycle.ConfirmReturn(before, itemBefore, userId, isBorrower, now)
          == Lifecycle.Applied(flagged, itemBefore, [first]);
      Notifications.Emit(db, [first], now);
    }
    res := Success(request.Row());
  }

  /** markAsLent(requestId, userId). */
  method MarkAsLent(db: Database, requestId: RequestId, userId: UserId, now: Time) returns (res: Result<RequestRow>)
    requires db.Valid()
    modifies db`notifications, db`nextNotificationId, RequestFootprint(db.requests, requestId)
    ensures db.Valid()
    ensures match old(IndexOfId(db.requests, RequestIdOf, requestId))
      case None => res == Failure(NotFound(RequestEntity)) && unchanged(db)
      case Some(k) =>
        var r := db.requests[k];
        Commits(db, r, Lifecycle.MarkAsLent(old(r.Row()), old(r.item.Row()), userId, now), res, now)
  {
    var found := IndexOfId(db.requests, RequestIdOf, requestId);
    if found.None? {
      return Failure(NotFound(RequestEntity));
    }
    res := MarkAsLentOf(db, db.requests[found.value], userId, now);
  }

  /** The body of markAsLent once the request is found. */
  method MarkAsLentOf(db: Database, request: Request, userId: UserId, now: Time) returns (res: Result<RequestRow>)
    requires db.Valid()
    modifies db`notifications, db`nextNotificationId, request, request.item
    ensures db.Valid()
    ensures Commits(db, request, Lifecycle.MarkAsLent(old(request.Row()), old(request.item.Row()), userId, now),
                    res, now)
  {
    if request.item.ownerId != userId {
      return Failure(Forbidden);
    }
    if request.status != Accepted {
      return Failure(NotAccepted);
    }
    request.lenderMarkedAsLent := Some(true);
    request.lentAt := Some(now);
    Notifications.Emit(db, [Lifecycle.Notify(request.requesterId, RequestStatusChanged, request.item.id, request.id)], now);
    res := Success(request.Row());
  }

  /** confirmReceipt(requestId, userId). */
  method ConfirmReceipt(db: Database, requestId: RequestId, userId: UserId, now: Time) returns (res: Result<RequestRow>)
    requires db.Valid()
    modifies db`notifications, db`nextNotificationId, RequestFootprint(db.requests, requestId)
    ensures db.Valid()
    ensures match old(IndexOfId(db.requests, RequestIdOf, requestId))
      case None => res == Failure(NotFound(RequestEntity)) && unchanged(db)
      case Some(k) =>
        var r := db.requests[k];
        Commits(db, r, Lifecycle.ConfirmReceipt(old(r.Row()), old(r.item.Row()), userId, now), res, now)
  {
    var found := IndexOfId(db.requests, RequestIdOf, requestId);
    if found.None? {
      return Failure(NotFound(RequestEntity));
    }
    res := ConfirmReceiptOf(db, db.requests[found.value], userId, now);
  }

  /** The body of confirmReceipt once the request is found: the three guards, in order, then the branch on the type. */
  method ConfirmReceiptOf(db: Database, request: Request, userId: UserId, now: Time) returns (res: Result<RequestRow>)
    requires db.Valid()
    modifies db`notifications, db`nextNotificationId, request, request.item
    ensures db.Valid()
    ensures Commits(db, request, Lifecycle.ConfirmReceipt(old(request.Row()), old(request.item.Row()), userId, now),
                    res, now)
  {
    if request.requesterId != userId {
      return Failure(Forbidden);
    }
    if request.status != Accepted {
      return Failure(NotAccepted);
    }
    if !IsTrue(request.lenderMarkedAsLent) {
      return Failure(NotMarkedAsLent);
    }
    if request.item.itemType == Some(Sell) {
      res := CompleteSale(db, request, userId, now);
    } else {
      res := RecordReceipt(db, request, userId, now);
    }
  }

  /** confirmReceipt on a SELL item past its guards: receipt, DONE, SOLD and completion in one step. */
  method CompleteSale(db: Database, request: Request, userId: UserId, now: Time) returns (res: Result<RequestRow>)
    requires db.Valid()
    requires request.requesterId == userId && request.status == Accepted && IsTrue(request.lenderMarkedAsLent)
    requires request.item.itemType == Some(Sell)
    modifies db`notifications, db`nextNotificationId, request, request.item
    ensures db.Valid()
    ensures Commits(db, request, Lifecycle.ConfirmReceipt(old(request.Row()), old(request.item.Row()), userId, now),
                    res, now)
  {
    var item := request.item;
    ghost var before, itemBefore := request.Row(), item.Row();
    var events := [Lifecycle.Notify(item.ownerId, RequestCompleted, item.id, request.id),
                   Lifecycle.Notify(request.requesterId, RequestCompleted, item.id, request.id)];
    ghost var after := before.(borrowerConfirmedReceipt := Some(true), receivedAt := Some(now),
                               status := Done, completedAt := Some(now));
    assert Lifecycle.ConfirmReceipt(before, itemBefore, userId, now)
        == Lifecycle.Applied(after, itemBefore.(status := Sold), events);
    request.borrowerConfirmedReceipt := Some(true);
    request.receivedAt := Some(now);
    request.status := Done;
    item.status := Sold;
    request.completedAt := Some(now);
    assert item.Row() == itemBefore.(status := Sold);
    assert request.Row() == after;
    Notifications.Emit(db, events, now);
    res := Success(request.Row());
  }

  /** confirmReceipt on any other item past its guards: records the receipt and tells the owner. */
  method RecordReceipt(db: Database, request: Request, userId: UserId, now: Time) returns (res: Result<RequestRow>)
    requires db.Valid()
    requires request.requesterId == userId && request.status == Accepted && IsTrue(request.lenderMarkedAsLent)
    requires request.item.itemType != Some(Sell)
    modifies db`notifications, db`nextNotificationId, request, request.item
    ensures db.Valid()
    ensures Commits(db, request, Lifecycle.ConfirmReceipt(old(request.Row()), old(request.item.Row()), userId, now),
                    res, now)
  {
    ghost var before, itemBefore := request.Row(), request.item.Row();
    var events := [Lifecycle.Notify(request.item.ownerId, RequestStatusChanged, request.item.id, request.id)];
    ghost var after := before.(borrowerConfirmedReceipt := Some(true), receivedAt := Some(now));
    assert Lifecycle.ConfirmReceipt(before, itemBefore, userId, now) == Lifecycle.Applied(after, itemBefore, events);
    request.borrowerConfirmedReceipt := Some(true);
    request.receivedAt := Some(now);
    assert request.Row() == after && request.item.Row() == itemBefore;
    Notifications.Emit(db, events, now);
    res := Success(request.Row());
  }

  predicate AcceptedRequestOf(r: RequestRow, userId: UserId) {
    r.requesterId == userId && r.status == Accepted
  }

  predicate AcceptedRequestFor(r: RequestRow, userId: UserId) {
    r.ownerId == userId && r.status == Accepted
  }

  /**
   * getAcceptedRequestsForUser(userId): the user's ACCEPTED requests as requester,
   * followed by the ACCEPTED requests on the user's items (a request of one's own
   * item appears twice).
   */
  function AcceptedRequestsForUser(rows: seq<RequestRow>, userId: UserId): (r: seq<RequestRow>)
    ensures forall x :: x in r <==> x in rows && x.status == Accepted && (x.requesterId == userId || x.ownerId == userId)
    ensures multiset(r) == multiset(Filter(rows, x => AcceptedRequestOf(x, userId)))
                         + multiset(Filter(rows, x => AcceptedRequestFor(x, userId)))
  {
    Filter(rows, x => AcceptedRequestOf(x, userId)) + Filter(rows, x => AcceptedRequestFor(x, userId))
  }
}
