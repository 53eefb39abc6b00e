/**
 * The persistent state the services work on. `Item` and `Request` are the JPA
 * entities whose fields the services change in place through setters; the
 * `Database` holds the tables in id order (identity columns only grow), the set of
 * known user ids and the next value of each identity column.
 */
module Store {
  import opened Domain
  import opened Seqs

  class Item {
    const id: ItemId
    const ownerId: UserId
    var name: Option<string>
    var description: Option<string>
    var category: Option<string>
    var itemType: Option<ItemType>
    var urgency: Option<string>
    var imageUrl: Option<string>
    var status: ItemStatus

    constructor (row: ItemRow)
      ensures Row() == row
    {
      id := row.id;
      ownerId := row.ownerId;
      name := row.name;
      description := row.description;
      category := row.category;
      itemType := row.itemType;
      urgency := row.urgency;
      imageUrl := row.imageUrl;
      status := row.status;
    }

    /** The row this object currently maps to. */
    function Row(): ItemRow
      reads this
    {
      ItemRow(id, ownerId, name, description, category, itemType, urgency, imageUrl, status)
    }
  }

  class Request {
    const id: RequestId
    const item: Item
    const requesterId: UserId
    const createdAt: Time
    var status: RequestStatus
    var lenderMarkedAsLent: Option<bool>
    var borrowerConfirmedReceipt: Option<bool>
    var borrowerConfirmedReturn: Option<bool>
    var lenderConfirmedReturn: Option<bool>
    var lentAt: Option<Time>
    var receivedAt: Option<Time>
    var completedAt: Option<Time>

    constructor (row: RequestRow, item: Item)
      requires row.itemId == item.id && row.ownerId == item.ownerId
      ensures Row() == row && this.item == item
    {
      id := row.id;
      this.item := item;
      requesterId := row.requesterId;
      createdAt := row.createdAt;
      status := row.status;
      lenderMarkedAsLent := row.lenderMarkedAsLent;
      borrowerConfirmedReceipt := row.borrowerConfirmedReceipt;
      borrowerConfirmedReturn := row.borrowerConfirmedReturn;
      lenderConfirmedReturn := row.lenderConfirmedReturn;
      lentAt := row.lentAt;
      receivedAt := row.receivedAt;
      completedAt := row.completedAt;
    }

    /** The row this object currently maps to; item and owner ids come from the referenced item. */
    function Row(): RequestRow
      reads this
    {
      RequestRow(id, item.id, item.ownerId, requesterId, createdAt, status,
                 lenderMarkedAsLent, borrowerConfirmedReceipt, borrowerConfirmedReturn, lenderConfirmedReturn,
                 lentAt, receivedAt, completedAt)
    }
  }

  class Database {
    var users: set<UserId>
    var items: seq<Item>
    var requests: seq<Request>
    var messages: seq<Message>
    var notifications: seq<Notification>
    var nextItemId: nat
    var nextRequestId: nat
    var nextMessageId: nat
    var nextNotificationId: nat

    /**
     * Every table is ordered by a strictly increasing id below the table's next id.
     * A request refers to its item by object (`Request.item`), and that this object
     * is still in `items` is deliberately not part of `Valid`: `DeleteItem` removes an
     * item while its requests stay in the table, since the model has no cascade, and
     * no operation's contract depends on the link.
     */
    ghost predicate Valid()
      reads this
    {
      && (forall i, j :: 0 <= i < j < |items| ==> items[i].id < items[j].id)
      && (forall i :: 0 <= i < |items| ==> items[i].id < nextItemId)
      && (forall i, j :: 0 <= i < j < |requests| ==> requests[i].id < requests[j].id)
      && (forall i :: 0 <= i < |requests| ==> requests[i].id < nextRequestId)
      && (forall i, j :: 0 <= i < j < |messages| ==> messages[i].id < messages[j].id)
      && (forall i :: 0 <= i < |messages| ==> messages[i].id < nextMessageId)
      && NotificationIdsValid(notifications, nextNotificationId)
    }

    constructor ()
      ensures Valid()
      ensures users == {} && items == [] && requests == [] && messages == [] && notifications == []
    {
      users := {};
      items := [];
      requests := [];
      messages := [];
      notifications := [];
      nextItemId := 1;
      nextRequestId := 1;
      nextMessageId := 1;
      nextNotificationId := 1;
    }

    /** `itemRepository.save` of a new item: the row gets the next identity value. */
    method InsertItem(row: ItemRow) returns (item: Item)
      requires Valid() && row.id == nextItemId
      modifies this`items, this`nextItemId
      ensures Valid()
      ensures fresh(item) && item.Row() == row
      ensures items == old(items) + [item] && nextItemId == old(nextItemId) + 1
    {
      item := new Item(row);
      items := items + [item];
      nextItemId := nextItemId + 1;
    }

    /** `requestRepository.save` of a new request on `item`. */
    method InsertRequest(row: RequestRow, item: Item) returns (request: Request)
      requires Valid() && row.id == nextRequestId && row.itemId == item.id && row.ownerId == item.ownerId
      modifies this`requests, this`nextRequestId
      ensures Valid()
      ensures fresh(request) && request.Row() == row && request.item == item
      ensures requests == old(requests) + [request] && nextRequestId == old(nextRequestId) + 1
    {
      request := new Request(row, item);
      requests := requests + [request];
      nextRequestId := nextRequestId + 1;
    }

    /** `messageRepository.save` of a new message. */
    method InsertMessage(m: Message)
      requires Valid() && m.id == nextMessageId
      modifies this`messages, this`nextMessageId
      ensures Valid()
      ensures messages == old(messages) + [m] && nextMessageId == old(nextMessageId) + 1
    {
      messages := messages + [m];
      nextMessageId := nextMessageId + 1;
    }

    /** `itemRepository.delete`: the item at position `k` leaves the table. */
    method DeleteItemAt(k: nat)
      requires Valid() && k < |items|
      modifies this`items
      ensures Valid()
      ensures items == old(items[..k] + items[k + 1..])
      ensures forall i :: 0 <= i < |items| ==> items[i].id != old(items[k].id)
    {
      ghost var before := items;
      items := items[..k] + items[k + 1..];
      forall i, j | 0 <= i < j < |items|
        ensures items[i].id < items[j].id
      {
        var i' := if i < k then i else i + 1;
        var j' := if j < k then j else j + 1;
        assert items[i] == before[i'] && items[j] == before[j'];
      }
      forall i | 0 <= i < |items|
        ensures items[i].id != before[k].id
      {
        var i' := if i < k then i else i + 1;
        assert items[i] == before[i'];
      }
    }
  }

  ghost predicate NotificationIdsValid(t: seq<Notification>, next: nat) {
    && (forall i, j :: 0 <= i < j < |t| ==> t[i].id < t[j].id)
    && (forall i :: 0 <= i < |t| ==> t[i].id < next)
  }

  /** The identity column of the items table. */
  function ItemIdOf(item: Item): ItemId {
    item.id
  }

  /** The identity column of the requests table. */
  function RequestIdOf(request: Request): RequestId {
    request.id
  }

  /** The objects an operation on request `id` may change: the request and the item it refers to. */
  function RequestFootprint(requests: seq<Request>, id: RequestId): set<object> {
    match IndexOfId(requests, RequestIdOf, id)
    case None => {}
    case Some(k) => {requests[k], requests[k].item}
  }

  /** The object an operation on item `id` may change. */
  function ItemFootprint(items: seq<Item>, id: ItemId): set<object> {
    match IndexOfId(items, ItemIdOf, id)
    case None => {}
    case Some(k) => {items[k]}
  }

  /** The requests table as rows, in table order. */
  function RequestRows(requests: seq<Request>): (r: seq<RequestRow>)
    reads requests
    ensures |r| == |requests|
    ensures forall i :: 0 <= i < |requests| ==> r[i] == requests[i].Row()
  {
    seq(|requests|, i reads requests requires 0 <= i < |requests| => requests[i].Row())
  }
}
