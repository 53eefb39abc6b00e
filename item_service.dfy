/**
 * ItemServiceImpl: creating an item (validation, trimming, defaults), the owner
 * check and overwrite of `updateItem`, the notifications `updateItem` and
 * `deleteItem` send to holders of open requests, `updateItemStatus`, and the
 * borrower and buyer data of the lent and sold views.
 */
module ItemService {
  import opened Domain
  import opened Store
  import opened Seqs
  import opened Text
  import Notifications

  /** The fields of `ItemDto` the service reads or fills; owner name and e-mail are display data. */
  datatype ItemDto = ItemDto(
    id: Option<ItemId>,
    name: Option<string>,
    description: Option<string>,
    category: Option<string>,
    itemType: Option<ItemType>,
    urgency: Option<string>,
    imageUrl: Option<string>,
    ownerId: Option<UserId>)

  /** `s == null || s.trim().isEmpty()`. */
  predicate Blank(s: Option<string>) {
    s.None? || Trim(s.value, IsJavaSpace) == []
  }

  /** `convertToDto`: the row's fields, with the owner's id. */
  function ToDto(row: ItemRow): (d: ItemDto)
    ensures d.id == Some(row.id) && d.ownerId == Some(row.ownerId)
    ensures d.name == row.name && d.description == row.description && d.category == row.category
    ensures d.itemType == row.itemType && d.urgency == row.urgency && d.imageUrl == row.imageUrl
  {
    ItemDto(Some(row.id), row.name, row.description, row.category, row.itemType, row.urgency, row.imageUrl,
            Some(row.ownerId))
  }

  /**
   * The row `createItem` saves under id `newId`, or the first failed check: blank
   * name, description and category, then missing type, missing owner id, unknown owner.
   */
  function NewItem(dto: ItemDto, users: set<UserId>, newId: ItemId): (r: Result<ItemRow>)
    ensures Blank(dto.name) ==> r == Failure(Missing(NameField))
    ensures !Blank(dto.name) && Blank(dto.description) ==> r == Failure(Missing(DescriptionField))
    ensures !Blank(dto.name) && !Blank(dto.description) && Blank(dto.category)
            ==> r == Failure(Missing(CategoryField))
    ensures !Blank(dto.name) && !Blank(dto.description) && !Blank(dto.category) && dto.itemType.None?
            ==> r == Failure(Missing(TypeField))
    ensures !Blank(dto.name) && !Blank(dto.description) && !Blank(dto.category) && dto.itemType.Some?
            && dto.ownerId.None?
            ==> r == Failure(Missing(OwnerIdField))
    ensures r.Failure? && r.error == NotFound(UserEntity)
            <==> !Blank(dto.name) && !Blank(dto.description) && !Blank(dto.category) && dto.itemType.Some?
                 && dto.ownerId.Some? && dto.ownerId.value !in users
    ensures r.Success? <==>
      !Blank(dto.name) && !Blank(dto.description) && !Blank(dto.category) && dto.itemType.Some?
      && dto.ownerId.Some? && dto.ownerId.value in users
    ensures r.Success? ==>
      && r.value.id == newId && r.value.ownerId == dto.ownerId.value
      && r.value.name == Some(Trim(dto.name.value, IsJavaSpace))
      && r.value.description == Some(Trim(dto.description.value, IsJavaSpace))
      && r.value.category == dto.category && r.value.itemType == dto.itemType
      && r.value.urgency == Some(if dto.urgency.Some? then dto.urgency.value else "NORMAL")
      && r.value.imageUrl == dto.imageUrl
      && r.value.status == Available
  {
    if Blank(dto.name) then Failure(Missing(NameField))
    else if Blank(dto.description) then Failure(Missing(DescriptionField))
    else if Blank(dto.category) then Failure(Missing(CategoryField))
    else if dto.itemType.None? then Failure(Missing(TypeField))
    else if dto.ownerId.None? then Failure(Missing(OwnerIdField))
    else if dto.ownerId.value !in users then Failure(NotFound(UserEntity))
    else
      Success(ItemRow(newId, dto.ownerId.value,
                      Some(Trim(dto.name.value, IsJavaSpace)), Some(Trim(dto.description.value, IsJavaSpace)),
                      dto.category, dto.itemType,
                      Some(if dto.urgency.Some? then dto.urgency.value else "NORMAL"),
                      dto.imageUrl, Available))
  }

  /**
   * A created item's name and description are non-empty, start and end with a
   * non-space, and occur in what the caller sent.
   */
  lemma CreatedTextTrimmed(dto: ItemDto, users: set<UserId>, newId: ItemId)
    requires NewItem(dto, users, newId).Success?
    ensures var row := NewItem(dto, users, newId).value;
      && row.name.Some? && row.name.value != [] && ContainsSubstring(dto.name.value, row.name.value)
      && !IsJavaSpace(row.name.value[0]) && !IsJavaSpace(row.name.value[|row.name.value| - 1])
      && row.description.Some? && row.description.value != []
      && ContainsSubstring(dto.description.value, row.description.value)
      && !IsJavaSpace(row.description.value[0])
      && !IsJavaSpace(row.description.value[|row.description.value| - 1])
  {
    TrimInside(dto.name.value, IsJavaSpace);
    TrimInside(dto.description.value, IsJavaSpace);
  }

  /** A name with nothing but spaces and control characters is refused. */
  lemma WhitespaceNameRefused(dto: ItemDto, users: set<UserId>, newId: ItemId)
    requires dto.name.Some? && forall i :: 0 <= i < |dto.name.value| ==> IsJavaSpace(dto.name.value[i])
    ensures NewItem(dto, users, newId) == Failure(Missing(NameField))
  {
    TrimEmpty(dto.name.value, IsJavaSpace);
  }

  /** createItem(itemDto): saves the row `NewItem` describes and returns the DTO with the new id. */
  method CreateItem(db: Database, dto: ItemDto) returns (res: Result<ItemDto>)
    requires db.Valid()
    modifies db`items, db`nextItemId
    ensures db.Valid()
    ensures match NewItem(dto, db.users, old(db.nextItemId))
      case Failure(e) =>
        res == Failure(e) && db.items == old(db.items) && db.nextItemId == old(db.nextItemId)
      case Success(row) =>
        && res == Success(dto.(id := Some(row.id)))
        && |db.items| == |old(db.items)| + 1
        && db.items[..|old(db.items)|] == old(db.items)
        && fresh(db.items[|old(db.items)|])
        && db.items[|old(db.items)|].Row() == row
        && db.nextItemId == old(db.nextItemId) + 1
  {
    var checked := NewItem(dto, db.users, db.nextItemId);
    if checked.Failure? {
      return Failure(checked.error);
    }
    var item := db.InsertItem(checked.value);
    res := Success(dto.(id := Some(item.id)));
  }

  /** What `updateItem` writes: every descriptive field from the DTO, nulls included. */
  function Revise(row: ItemRow, dto: ItemDto): (r: ItemRow)
    ensures r.id == row.id && r.ownerId == row.ownerId && r.status == row.status
    ensures r.name == dto.name && r.description == dto.description && r.category == dto.category
    ensures r.itemType == dto.itemType && r.urgency == dto.urgency && r.imageUrl == dto.imageUrl
  {
    row.(name := dto.name, description := dto.description, category := dto.category,
         itemType := dto.itemType, urgency := dto.urgency, imageUrl := dto.imageUrl)
  }

  /**
   * The `@NotBlank` constraints of the `Item` entity: name, description and
   * category are non-null and not empty after Java `trim`. Bean Validation checks
   * them when `save` writes the row.
   */
  predicate MeetsItemConstraints(row: ItemRow) {
    !Blank(row.name) && !Blank(row.description) && !Blank(row.category)
  }

  /** `createItem`'s own checks imply the entity constraints, so its `save` never violates them. */
  lemma CreatedItemMeetsConstraints(dto: ItemDto, users: set<UserId>, newId: ItemId)
    requires NewItem(dto, users, newId).Success?
    ensures MeetsItemConstraints(NewItem(dto, users, newId).value)
  {
  }

  /** Revising with what the row already holds changes nothing. */
  lemma ReviseWithOwnDto(row: ItemRow)
    ensures Revise(row, ToDto(row)) == row
  {
  }

  /** A request on item `itemId` that is still PENDING or ACCEPTED. */
  predicate IsOpenOn(r: RequestRow, itemId: ItemId) {
    r.itemId == itemId && (r.status == Pending || r.status == Accepted)
  }

  /** The notification `updateItem` or `deleteItem` sends for request `r`: one if it is open on the item. */
  function EventFor(r: RequestRow, itemId: ItemId, kind: NotificationType, related: Option<ItemId>): seq<Event> {
    if IsOpenOn(r, itemId) then [Event(r.requesterId, kind, related, Some(r.id), None)] else []
  }

  /**
   * The `forEach` over `findByItem_Id(itemId)` after its first `n` rows: one event
   * of `kind` to the requester of each open request, in table order.
   */
  function HolderEvents(rows: seq<RequestRow>, n: nat, itemId: ItemId, kind: NotificationType,
                        related: Option<ItemId>): (r: seq<Event>)
    requires n <= |rows|
    ensures |r| <= n
  {
    if n == 0 then [] else HolderEvents(rows, n - 1, itemId, kind, related) + EventFor(rows[n - 1], itemId, kind, related)
  }

  /** Every event goes to the requester of an open request on the item and is about that request. */
  lemma {:induction false} HolderEventsFromOpenRequests(rows: seq<RequestRow>, n: nat, itemId: ItemId,
                                                       kind: NotificationType, related: Option<ItemId>)
    requires n <= |rows|
    ensures forall e :: e in HolderEvents(rows, n, itemId, kind, related) ==>
      && e.kind == kind && e.relatedItem == related && e.relatedMessage.None?
      && exists i :: 0 <= i < n && IsOpenOn(rows[i], itemId)
                     && e.recipient == rows[i].requesterId && e.relatedRequest == Some(rows[i].id)
  {
    if n > 0 {
      HolderEventsFromOpenRequests(rows, n - 1, itemId, kind, related);
    }
  }

  /** The number of events about request `id`. */
  function CountAbout(events: seq<Event>, id: RequestId): (c: nat)
    ensures c <= |events|
  {
    if events == [] then 0
    else CountAbout(events[..|events| - 1], id) + (if events[|events| - 1].relatedRequest == Some(id) then 1 else 0)
  }

  lemma CountAboutAppend(a: seq<Event>, b: seq<Event>, id: RequestId)
    ensures CountAbout(a + b, id) == CountAbout(a, id) + CountAbout(b, id)
    decreases |b|
  {
    if b != [] {
      assert (a + b)[..|a + b| - 1] == a + b[..|b| - 1];
      CountAboutAppend(a, b[..|b| - 1], id);
    } else {
      assert a + b == a;
    }
  }

  lemma CountAboutEventFor(r: RequestRow, itemId: ItemId, kind: NotificationType, related: Option<ItemId>,
                           id: RequestId)
    ensures CountAbout(EventFor(r, itemId, kind, related), id) == if IsOpenOn(r, itemId) && r.id == id then 1 else 0
  {
    var t := EventFor(r, itemId, kind, related);
    if t != [] {
      assert t[..0] == [];
    }
  }

  /** The `n`-th row adds one event about `id` exactly when it is an open request `id` on the item. */
  lemma CountAboutHolderEvents(rows: seq<RequestRow>, n: nat, itemId: ItemId, kind: NotificationType,
                               related: Option<ItemId>, id: RequestId)
    requires 0 < n <= |rows|
    ensures CountAbout(HolderEvents(rows, n, itemId, kind, related), id)
         == CountAbout(HolderEvents(rows, n - 1, itemId, kind, related), id)
            + if IsOpenOn(rows[n - 1], itemId) && rows[n - 1].id == id then 1 else 0
  {
    CountAboutAppend(HolderEvents(rows, n - 1, itemId, kind, related), EventFor(rows[n - 1], itemId, kind, related), id);
    CountAboutEventFor(rows[n - 1], itemId, kind, related, id);
  }

  /**
   * Each request among the first `n` rows whose id no other of those rows carries
   * (request ids are the table's identity column) hears exactly once when it is
   * open on the item and never otherwise (REJECTED, DONE, or about another item).
   */
  lemma {:induction false} HolderEventsOncePerOpenRequest(rows: seq<RequestRow>, n: nat, itemId: ItemId,
                                                         kind: NotificationType, related: Option<ItemId>, k: nat)
    requires k < n <= |rows|
    requires forall i :: 0 <= i < n && i != k ==> rows[i].id != rows[k].id
    ensures CountAbout(HolderEvents(rows, n, itemId, kind, related), rows[k].id)
         == if IsOpenOn(rows[k], itemId) then 1 else 0
  {
    var id := rows[k].id;
    CountAboutHolderEvents(rows, n, itemId, kind, related, id);
    var earlier := CountAbout(HolderEvents(rows, n - 1, itemId, kind, related), id);
    if k < n - 1 {
      HolderEventsOncePerOpenRequest(rows, n - 1, itemId, kind, related, k);
      assert earlier == (if IsOpenOn(rows[k], itemId) then 1 else 0) && rows[n - 1].id != id;
    } else {
      HolderEventsNoneAbout(rows, n - 1, itemId, kind, related, id);
      assert earlier == 0 && rows[n - 1] == rows[k];
    }
  }

  /** No event is about a request id the first `n` rows do not hold. */
  lemma {:induction false} HolderEventsNoneAbout(rows: seq<RequestRow>, n: nat, itemId: ItemId,
                                                kind: NotificationType, related: Option<ItemId>, id: RequestId)
    requires n <= |rows|
    requires forall i :: 0 <= i < n ==> rows[i].id != id
    ensures CountAbout(HolderEvents(rows, n, itemId, kind, related), id) == 0
  {
    if n > 0 {
      CountAboutHolderEvents(rows, n, itemId, kind, related, id);
      HolderEventsNoneAbout(rows, n - 1, itemId, kind, related, id);
    }
  }

  /** The events for the whole requests table. */
  function AllHolderEvents(requests: seq<Request>, itemId: ItemId, kind: NotificationType,
                           related: Option<ItemId>): seq<Event>
    reads requests
  {
    HolderEvents(RequestRows(requests), |requests|, itemId, kind, related)
  }

  /** The body of the `forEach` of `updateItem` and `deleteItem`, for one request. */
  method NotifyHolder(db: Database, request: RequestRow, itemId: ItemId, kind: NotificationType,
                      related: Option<ItemId>, now: Time)
    requires db.Valid()
    modifies db`notifications, db`nextNotificationId
    ensures db.Valid()
    ensures var events := EventFor(request, itemId, kind, related);
      && db.notifications == old(db.notifications) + Notifications.Stored(events, old(db.nextNotificationId), now)
      && db.nextNotificationId == old(db.nextNotificationId) + |events|
  {
    if request.itemId == itemId && (request.status == Pending || request.status == Accepted) {
      var _ := Notifications.CreateNotification(db, Event(request.requesterId, kind, related, Some(request.id), None), now);
    }
  }

  /**
   * The `forEach` of `updateItem` and `deleteItem` over the requests `rows` read
   * from the table: one `createNotification` per open request on the item.
   */
  method NotifyHolders(db: Database, rows: seq<RequestRow>, itemId: ItemId, kind: NotificationType,
                       related: Option<ItemId>, now: Time)
    requires db.Valid()
    modifies db`notifications, db`nextNotificationId
    ensures db.Valid()
    ensures var events := HolderEvents(rows, |rows|, itemId, kind, related);
      && db.notifications == old(db.notifications) + Notifications.Stored(events, old(db.nextNotificationId), now)
      && db.nextNotificationId == old(db.nextNotificationId) + |events|
  {
    ghost var base, first := db.notifications, db.nextNotificationId;
    for i := 0 to |rows|
      invariant db.Valid()
      invariant db.notifications == base + Notifications.Stored(HolderEvents(rows, i, itemId, kind, related), first, now)
      invariant db.nextNotificationId == first + |HolderEvents(rows, i, itemId, kind, related)|
    {
      NotifyHolder(db, rows[i], itemId, kind, related, now);
      HolderEventsStep(base, db.notifications, rows, i, itemId, kind, related, first, now);
    }
  }

  /** One turn of the `forEach`: the table after `i + 1` requests extends the table after `i`. */
  lemma HolderEventsStep(base: seq<Notification>, t: seq<Notification>, rows: seq<RequestRow>, i: nat,
                         itemId: ItemId, kind: NotificationType, related: Option<ItemId>, first: nat, now: Time)
    requires i < |rows|
    requires var events := HolderEvents(rows, i, itemId, kind, related);
      t == base + Notifications.Stored(events, first, now)
             + Notifications.Stored(EventFor(rows[i], itemId, kind, related), first + |events|, now)
    ensures t == base + Notifications.Stored(HolderEvents(rows, i + 1, itemId, kind, related), first, now)
    ensures |HolderEvents(rows, i + 1, itemId, kind, related)|
         == |HolderEvents(rows, i, itemId, kind, related)| + |EventFor(rows[i], itemId, kind, related)|
  {
    var events, step := HolderEvents(rows, i, itemId, kind, related), EventFor(rows[i], itemId, kind, related);
    Notifications.StoredAppend(events, step, first, now);
    assert HolderEvents(rows, i + 1, itemId, kind, related) == events + step;
  }

  /**
   * updateItem(id, itemDto): the owner check, then the six setters, then `save`,
   * which refuses a row breaking the entity's `@NotBlank` constraints before any
   * notification goes out.
   */
  method UpdateItem(db: Database, id: ItemId, dto: ItemDto, now: Time) returns (res: Result<ItemDto>)
    requires db.Valid()
    modifies db`notifications, db`nextNotificationId, ItemFootprint(db.items, id)
    ensures db.Valid()
    ensures match old(IndexOfId(db.items, ItemIdOf, id))
      case None => res == Failure(NotFound(ItemEntity)) && unchanged(db)
      case Some(k) =>
        if Some(db.items[k].ownerId) != dto.ownerId then
          res == Failure(NotItemOwner) && unchanged(db, db.items[k])
        else if !MeetsItemConstraints(Revise(old(db.items[k].Row()), dto)) then
          res == Failure(ConstraintViolated) && unchanged(db, db.items[k])
        else
          var events := old(AllHolderEvents(db.requests, id, ItemUpdated, Some(id)));
          && db.items[k].Row() == Revise(old(db.items[k].Row()), dto)
          && res == Success(ToDto(db.items[k].Row()))
          && db.notifications == old(db.notifications) + Notifications.Stored(events, old(db.nextNotificationId), now)
          && db.nextNotificationId == old(db.nextNotificationId) + |events|
  {
    var found := IndexOfId(db.items, ItemIdOf, id);
    if found.None? {
      return Failure(NotFound(ItemEntity));
    }
    var item := db.items[found.value];
    if Some(item.ownerId) != dto.ownerId {
      return Failure(NotItemOwner);
    }
    if !MeetsItemConstraints(Revise(item.Row(), dto)) {
      return Failure(ConstraintViolated);
    }
    var requests := RequestRows(db.requests);
    SetDescriptiveFields(item, dto);
    NotifyHolders(db, requests, id, ItemUpdated, Some(id), now);
    res := Success(ToDto(item.Row()));
  }

  /** The six setters `updateItem` calls. */
  method SetDescriptiveFields(item: Item, dto: ItemDto)
    modifies item
    ensures item.Row() == Revise(old(item.Row()), dto)
  {
    item.name := dto.name;
    item.description := dto.description;
    item.category := dto.category;
    item.itemType := dto.itemType;
    item.urgency := dto.urgency;
    item.imageUrl := dto.imageUrl;
  }

  /** deleteItem(id): tells holders of open requests (with no related item), then removes the row. */
  method DeleteItem(db: Database, id: ItemId, now: Time) returns (res: Result<()>)
    requires db.Valid()
    modifies db`items, db`notifications, db`nextNotificationId
    ensures db.Valid()
    ensures match old(IndexOfId(db.items, ItemIdOf, id))
      case None => res == Failure(NotFound(ItemEntity)) && unchanged(db)
      case Some(k) =>
        var events := old(AllHolderEvents(db.requests, id, ItemDeleted, None));
        && res == Success(())
        && db.items == old(db.items[..k] + db.items[k + 1..])
        && db.notifications == old(db.notifications) + Notifications.Stored(events, old(db.nextNotificationId), now)
        && db.nextNotificationId == old(db.nextNotificationId) + |events|
    ensures forall i :: 0 <= i < |db.items| ==> db.items[i].id != id
  {
    var found := IndexOfId(db.items, ItemIdOf, id);
    if found.None? {
      return Failure(NotFound(ItemEntity));
    }
    NotifyHolders(db, RequestRows(db.requests), id, ItemDeleted, None, now);
    db.DeleteItemAt(found.value);
    res := Success(());
  }

  /** updateItemStatus(id, status): the status and nothing else. */
  method UpdateItemStatus(db: Database, id: ItemId, status: ItemStatus) returns (res: Result<()>)
    requires db.Valid()
    modifies ItemFootprint(db.items, id)
    ensures db.Valid()
    ensures match old(IndexOfId(db.items, ItemIdOf, id))
      case None => res == Failure(NotFound(ItemEntity))
      case Some(k) => res == Success(()) && db.items[k].Row() == old(db.items[k].Row()).(status := status)
  {
    var found := IndexOfId(db.items, ItemIdOf, id);
    if found.None? {
      return Failure(NotFound(ItemEntity));
    }
    db.items[found.value].status := status;
    res := Success(());
  }

  /** What the lent view shows of the borrowing request; absent fields stay null. */
  datatype Borrowing = Borrowing(borrower: UserId, lentAt: Option<Time>, completedAt: Option<Time>, isReturned: bool)

  datatype LentItemView = LentItemView(item: ItemDto, status: ItemStatus, borrowing: Option<Borrowing>)

  datatype SoldItemView = SoldItemView(item: ItemDto, buyer: Option<UserId>)

  predicate IsBorrowingOf(r: RequestRow, itemId: ItemId) {
    r.itemId == itemId && (r.status == Accepted || r.status == Done)
  }

  predicate IsPurchaseOf(r: RequestRow, itemId: ItemId) {
    r.itemId == itemId && r.status == Done
  }

  /**
   * convertToLentItemDto: the first ACCEPTED or DONE request on the item supplies
   * the borrower and timestamps; the item counts as returned when both return
   * flags are non-null and true.
   */
  function LentView(row: ItemRow, requests: seq<RequestRow>): (v: LentItemView)
    ensures v.item == ToDto(row) && v.status == row.status
    ensures v.borrowing.None? <==> forall i :: 0 <= i < |requests| ==> !IsBorrowingOf(requests[i], row.id)
    ensures v.borrowing.Some? ==> exists i :: (
      && 0 <= i < |requests| && IsBorrowingOf(requests[i], row.id)
      && (forall j :: 0 <= j < i ==> !IsBorrowingOf(requests[j], row.id))
      && v.borrowing.value.borrower == requests[i].requesterId
      && v.borrowing.value.lentAt == requests[i].lentAt
      && v.borrowing.value.completedAt == requests[i].completedAt
      && (v.borrowing.value.isReturned <==>
            requests[i].borrowerConfirmedReturn == Some(true) && requests[i].lenderConfirmedReturn == Some(true)))
  {
    var first := FirstIndex(requests, r => IsBorrowingOf(r, row.id));
    match first
    case None => LentItemView(ToDto(row), row.status, None)
    case Some(i) =>
      var r := requests[i];
      var borrowerConfirmed := r.borrowerConfirmedReturn.Some? && r.borrowerConfirmedReturn.value;
      var lenderConfirmed := r.lenderConfirmedReturn.Some? && r.lenderConfirmedReturn.value;
      LentItemView(ToDto(row), row.status,
                   Some(Borrowing(r.requesterId, r.lentAt, r.completedAt, borrowerConfirmed && lenderConfirmed)))
  }

  /** convertToSoldItemDto: the buyer is the requester of the first DONE request on the item, if any. */
  function SoldView(row: ItemRow, requests: seq<RequestRow>): (v: SoldItemView)
    ensures v.item == ToDto(row)
    ensures v.buyer.None? <==> forall i :: 0 <= i < |requests| ==> !IsPurchaseOf(requests[i], row.id)
    ensures v.buyer.Some? ==> exists i :: (
      && 0 <= i < |requests| && IsPurchaseOf(requests[i], row.id)
      && (forall j :: 0 <= j < i ==> !IsPurchaseOf(requests[j], row.id))
      && v.buyer.value == requests[i].requesterId)
  {
    match FirstIndex(requests, r => IsPurchaseOf(r, row.id))
    case None => SoldItemView(ToDto(row), None)
    case Some(i) => SoldItemView(ToDto(row), Some(requests[i].requesterId))
  }

  /** A sold item with a buyer also shows a borrower in the lent view. */
  lemma BuyerIsSomeBorrower(row: ItemRow, requests: seq<RequestRow>)
    requires SoldView(row, requests).buyer.Some?
    ensures LentView(row, requests).borrowing.Some?
  {
    var i :| 0 <= i < |requests| && IsPurchaseOf(requests[i], row.id);
    assert IsBorrowingOf(requests[i], row.id);
  }
}
