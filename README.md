# GotYourBack: the request lifecycle and its services, in Dafny

GotYourBack is a campus lending and selling board. A user posts an item to LEND or to SELL. Another user requests it. The owner accepts the request, marks the item as lent, and the requester confirms receipt. A sale completes at receipt. A loan completes when the owner marks the request done and both parties confirm the return. Each step notifies the other party, and the two parties can exchange messages while a request is ACCEPTED or DONE.

This project models the backend services that carry that lifecycle, plus the browser-side form validators:

- `domain.dfy`: rows, enums and errors. Nullable Booleans and timestamps are `Option`, and `IsTrue` is `Boolean.TRUE.equals`.
- `store.dfy`: the `Item` and `Request` entity objects, whose fields the services set in place. It also holds the `Database` of tables (sequences in id order) with its id counters.
- `lifecycle.dfy`: each `RequestService` operation as a pure transition over the request row and its item row. A transition either refuses with the first failing guard, or yields the new rows and the notifications sent, in order.
- `request_service.dfy`: the same operations as methods that mutate the `Request` and `Item` objects and append notifications. Each method is proved to end in exactly the state its transition describes.
- `notifications.dfy`: `NotificationServiceImpl`, i.e. creation, the unread count, both `markAsRead`, `markAllAsRead` and both `deleteNotification`.
- `item_service.dfy`: `ItemServiceImpl`, i.e. create with validation, trimming and defaults, update with the owner check, delete, the status setter, the notification fan-out to open requests, and the lent and sold views.
- `message_service.dfy`: `MessageService`, i.e. the status guard, the receiver choice, the MESSAGE_RECEIVED notification, and the two queries sorted by `sentAt`.
- `item_repository.dfy`: the JPQL queries of `ItemRepository` as filters. `text.dfy` adds `trim`, `lower` and SQL `LIKE`.
- `validation.dfy`: `validation.js`, i.e. the four validators and `isValidEmail`.
- `scenarios.dfy`: whole loans and sales composed from the transitions.
- `seqs.dfy`: generic filter, find-first and sort helpers.

The clock is a parameter `now` of every operation that stamps a time.

## Model

| member | source | states |
|---|---|---|
| Lifecycle.CreateRequest | Backend/src/main/java/com/gotyourback/service/RequestService.java:44-73 | Refuses in order: unknown item, unknown requester, item not AVAILABLE. Succeeds exactly when all three pass. The new request is PENDING with no flags and no timestamps except its creation, the item is untouched, and exactly one REQUEST_CREATED goes to the item owner. |
| Lifecycle.UpdateRequestStatus | Backend/src/main/java/com/gotyourback/service/RequestService.java:76-120 | Never refuses, and sets exactly the given status. ACCEPTED makes the item UNAVAILABLE; any other status leaves the item alone. At most one notification, always to the requester, about this item and this request, with no message. One REQUEST_ACCEPTED iff ACCEPTED, one REQUEST_REJECTED iff REJECTED. REQUEST_STATUS_CHANGED iff the status changes to something other than those two; an unchanged status other than those two sends nothing. |
| Lifecycle.MarkRequestAsDone | Backend/src/main/java/com/gotyourback/service/RequestService.java:123-151 | DONE from any status, the item unchanged, and exactly two REQUEST_COMPLETED about this item and this request: to the requester, then to the owner. |
| Lifecycle.ConfirmReturn | Backend/src/main/java/com/gotyourback/service/RequestService.java:154-221 | Refused iff the request is not DONE, and the caller id plays no part. Sets only the flag `isBorrower` selects and notifies the other party. Once both flags are true: the item becomes SOLD for SELL and AVAILABLE otherwise, `completedAt` is set, and both parties are notified again. Otherwise the item and `completedAt` are unchanged. |
| Lifecycle.MarkAsLent | Backend/src/main/java/com/gotyourback/service/RequestService.java:224-251 | Forbidden for anyone but the item owner, checked before the ACCEPTED check. On success only `lenderMarkedAsLent` and `lentAt` change, and one REQUEST_STATUS_CHANGED goes to the requester. |
| Lifecycle.ConfirmReceipt | Backend/src/main/java/com/gotyourback/service/RequestService.java:254-311 | Refuses in order: not the requester, not ACCEPTED, not marked as lent. Succeeds iff all three pass. SELL: DONE, item SOLD, `completedAt` set, REQUEST_COMPLETED to owner then requester. Otherwise only the receipt flag and time change, and one REQUEST_STATUS_CHANGED goes to the owner. |
| Lifecycle.CountKind | Backend/src/main/java/com/gotyourback/service/RequestService.java:106-116 | The number of notifications of one type is at most the list length, and is zero iff none has that type. |
| RequestService.CreateRequest | Backend/src/main/java/com/gotyourback/service/RequestService.java:44-73 | On refusal, no request is saved and no notification is stored. On success, one fresh request object is appended, linked to the item, and holds the transition's row. The notifications table grows by the transition's events; users, items and messages are unchanged. |
| RequestService.UpdateRequestStatus | Backend/src/main/java/com/gotyourback/service/RequestService.java:76-120 | NotFound with nothing changed for an unknown id. Otherwise the request and item objects and the notifications table end exactly as `Lifecycle.UpdateRequestStatus` says. |
| RequestService.UpdateStatusOf | Backend/src/main/java/com/gotyourback/service/RequestService.java:80-119 | The in-place setters and conditional notifications, proved equal to the transition. |
| RequestService.MarkRequestAsDone | Backend/src/main/java/com/gotyourback/service/RequestService.java:123-151 | NotFound for an unknown id, otherwise exactly `Lifecycle.MarkRequestAsDone`. |
| RequestService.MarkDoneOf | Backend/src/main/java/com/gotyourback/service/RequestService.java:127-150 | The setter and the two notifications, proved equal to the transition. |
| RequestService.ConfirmReturn | Backend/src/main/java/com/gotyourback/service/RequestService.java:154-221 | NotFound for an unknown id, otherwise exactly `Lifecycle.ConfirmReturn`. |
| RequestService.ConfirmReturnOf | Backend/src/main/java/com/gotyourback/service/RequestService.java:158-220 | The guard, the flag setter and the check at line 189, with its item update, proved equal to the transition. |
| RequestService.MarkAsLent | Backend/src/main/java/com/gotyourback/service/RequestService.java:224-251 | NotFound for an unknown id, otherwise exactly `Lifecycle.MarkAsLent`. |
| RequestService.MarkAsLentOf | Backend/src/main/java/com/gotyourback/service/RequestService.java:228-250 | The two guards, the setters and the notification, proved equal to the transition. |
| RequestService.ConfirmReceipt | Backend/src/main/java/com/gotyourback/service/RequestService.java:254-311 | NotFound for an unknown id, otherwise exactly `Lifecycle.ConfirmReceipt`. |
| RequestService.ConfirmReceiptOf | Backend/src/main/java/com/gotyourback/service/RequestService.java:258-310 | The three guards in order (not the requester, not ACCEPTED, not marked as lent), then the branch on the item's type. Proved equal to the transition: a refusal changes nothing. |
| RequestService.CompleteSale | Backend/src/main/java/com/gotyourback/service/RequestService.java:270-296 | A SELL item past the guards: receipt flag and time, request DONE with `completedAt`, item SOLD, then REQUEST_COMPLETED to the owner and to the buyer. The new rows and the two notifications are exactly those of the transition. |
| RequestService.RecordReceipt | Backend/src/main/java/com/gotyourback/service/RequestService.java:297-306 | Any other item past the guards: only the receipt flag and time (set at lines 270-271) change, the item is untouched, and one REQUEST_STATUS_CHANGED goes to the owner, exactly as the transition says. |
| RequestService.AcceptedRequestsForUser | Backend/src/main/java/com/gotyourback/service/RequestService.java:325-331 | Lists exactly the ACCEPTED requests the user made or received. As a multiset it is the two filters added together, so a request on one's own item appears twice. |
| Scenarios.LoanRoundTrip | Backend/src/main/java/com/gotyourback/service/RequestService.java:44-221 | A LEND item through create, accept, lend, receipt, done and both return confirmations. Every step is applied, the item is UNAVAILABLE while lent and AVAILABLE at the end, and the request ends DONE with lent, received and completion times set. |
| Scenarios.SaleCompletesAtReceipt | Backend/src/main/java/com/gotyourback/service/RequestService.java:273-296 | A SELL item is DONE and SOLD at the buyer's receipt, with `completedAt`, and both parties get REQUEST_COMPLETED. |
| Scenarios.ReturnAfterSaleKeepsItemSold | Backend/src/main/java/com/gotyourback/service/RequestService.java:158-194 | Return confirmations are still accepted on a completed sale, and the item stays SOLD. |
| Scenarios.SecondAcceptanceApplied | Backend/src/main/java/com/gotyourback/service/RequestService.java:80-83 | Two requests on one item can both be accepted: nothing enforces a single holder. |
| Scenarios.LateReturnFreesItem | Backend/src/main/java/com/gotyourback/service/RequestService.java:189-194 | A completed return makes a LEND item AVAILABLE whatever its status was, even if another request holds it. |
| Scenarios.ConfirmationsCommute | Backend/src/main/java/com/gotyourback/service/RequestService.java:162-197 | Borrower-then-lender and lender-then-borrower end with the same request row and the same item. |
| Notifications.Stored | Backend/src/main/java/com/gotyourback/service/impl/NotificationServiceImpl.java:32-42 | The rows stored for a list of events: one per event, in order, with consecutive ids, unread, stamped `now`, no read time. |
| Notifications.StoredAppend | Backend/src/main/java/com/gotyourback/service/impl/NotificationServiceImpl.java:32-42 | Storing `a + b` is storing `a`, then `b` from the next id. |
| Notifications.CreateNotification | Backend/src/main/java/com/gotyourback/service/impl/NotificationServiceImpl.java:27-45 | Appends exactly one unread row with the given recipient, type and related ids, under the next id. |
| Notifications.Emit | Backend/src/main/java/com/gotyourback/service/impl/NotificationServiceImpl.java:27-45 | One `createNotification` per event, in order; the table grows by exactly `Stored(events)`. |
| Notifications.UnreadCount | Backend/src/main/java/com/gotyourback/service/impl/NotificationServiceImpl.java:64-66 | Counts the user's unread rows: zero iff none, the whole table iff all. |
| Notifications.MarkRead | Backend/src/main/java/com/gotyourback/service/impl/NotificationServiceImpl.java:74-75 | Sets the read flag and the read time to `now`, and keeps id, event and creation time. |
| Notifications.MarkReadTwice | Backend/src/main/java/com/gotyourback/service/impl/NotificationServiceImpl.java:74-75 | Marking twice is marking once at the later time: the flag is idempotent, and the read time is overwritten. |
| Seqs.IndexOfId | Backend/src/main/java/com/gotyourback/service/impl/NotificationServiceImpl.java:71-72 | `findById` on any table (items, requests and notifications, each by its identity column): a position holding the id, or None iff no row has it. |
| Notifications.MarkAsRead | Backend/src/main/java/com/gotyourback/service/impl/NotificationServiceImpl.java:70-79 | NotFound with nothing changed, or only that row is marked read. No ownership check. |
| Notifications.MarkAsReadByRecipient | Backend/src/main/java/com/gotyourback/service/impl/NotificationServiceImpl.java:83-96 | NotFound, then Unauthorized unless the caller is the recipient, both with nothing changed. Otherwise only that row is marked read. |
| Notifications.MarkAllRead | Backend/src/main/java/com/gotyourback/service/impl/NotificationServiceImpl.java:100-110 | Same length; each row is marked read iff it is the user's and unread. |
| Notifications.MarkAllReadClearsUnread | Backend/src/main/java/com/gotyourback/service/impl/NotificationServiceImpl.java:100-110 | Afterwards the user's unread count is zero. |
| Notifications.MarkAllReadKeepsOthers | Backend/src/main/java/com/gotyourback/service/impl/NotificationServiceImpl.java:100-110 | Every other user's unread count is unchanged. |
| Notifications.MarkAllAsRead | Backend/src/main/java/com/gotyourback/service/impl/NotificationServiceImpl.java:100-110 | The `forEach` over the user's unread rows leaves the table equal to `MarkAllRead`. |
| Notifications.RemoveAt | Backend/src/main/java/com/gotyourback/service/impl/NotificationServiceImpl.java:115 | The table without one row, every other row kept in order. |
| Notifications.RemoveKeepsIdsValid | Backend/src/main/java/com/gotyourback/service/impl/NotificationServiceImpl.java:115 | Removing a row keeps ids unique, increasing and below the next id. |
| Notifications.RemoveDropsId | Backend/src/main/java/com/gotyourback/service/impl/NotificationServiceImpl.java:115 | After removal no row carries the removed id. |
| Notifications.DeleteNotification | Backend/src/main/java/com/gotyourback/service/impl/NotificationServiceImpl.java:114-116 | Removes the row with that id, or does nothing for an unknown id; afterwards no row has the id. |
| Notifications.DeleteNotificationByRecipient | Backend/src/main/java/com/gotyourback/service/impl/NotificationServiceImpl.java:120-129 | NotFound, then Unauthorized, both with nothing changed; otherwise exactly that row is removed. |
| ItemService.ToDto | Backend/src/main/java/com/gotyourback/service/impl/ItemServiceImpl.java:172-185 | The DTO carries the row's id, owner id and every descriptive field. |
| ItemService.NewItem | Backend/src/main/java/com/gotyourback/service/impl/ItemServiceImpl.java:30-59 | Refuses in order: blank name, blank description, blank category, missing type, missing owner id, unknown owner. The saved row is AVAILABLE under the new id, with name and description trimmed, urgency defaulting to "NORMAL", and the other fields as given. |
| ItemService.CreatedTextTrimmed | Backend/src/main/java/com/gotyourback/service/impl/ItemServiceImpl.java:52-53 | A saved name and description are non-empty, begin and end with a non-space, and occur within what was sent. |
| ItemService.CreatedItemMeetsConstraints | Backend/src/main/java/com/gotyourback/model/Item.java:19-27 | A row `createItem` saves satisfies the entity's `@NotBlank` constraints on name, description and category, so its `save` is never refused by them. |
| ItemService.WhitespaceNameRefused | Backend/src/main/java/com/gotyourback/service/impl/ItemServiceImpl.java:32-34 | A name of only spaces or control characters is refused as missing. |
| ItemService.CreateItem | Backend/src/main/java/com/gotyourback/service/impl/ItemServiceImpl.java:30-64 | Nothing saved on refusal. On success, one fresh item holding `NewItem`'s row is appended, and the returned DTO carries its id. |
| ItemService.Revise | Backend/src/main/java/com/gotyourback/service/impl/ItemServiceImpl.java:89-95 | Id, owner and status are kept; the six descriptive fields are copied from the DTO, nulls included. `UpdateItem` refuses a revision whose name, description or category is blank. |
| ItemService.ReviseWithOwnDto | Backend/src/main/java/com/gotyourback/service/impl/ItemServiceImpl.java:89-95 | Revising with the row's own DTO changes nothing. |
| ItemService.HolderEvents | Backend/src/main/java/com/gotyourback/service/impl/ItemServiceImpl.java:100-112 | At most one event per request row scanned. |
| ItemService.HolderEventsFromOpenRequests | Backend/src/main/java/com/gotyourback/service/impl/ItemServiceImpl.java:100-112 | Every event has the given type and related item, and goes to the requester of a PENDING or ACCEPTED request on the item, about that request. |
| ItemService.HolderEventsOncePerOpenRequest | Backend/src/main/java/com/gotyourback/service/impl/ItemServiceImpl.java:100-112 | A request whose id no other row carries (ids are the table's identity column) gets exactly one event if it is open on the item and none otherwise. |
| ItemService.HolderEventsNoneAbout | Backend/src/main/java/com/gotyourback/service/impl/ItemServiceImpl.java:100-112 | No event concerns a request that is not in the table. |
| ItemService.CountAbout | Backend/src/main/java/com/gotyourback/service/impl/ItemServiceImpl.java:100-112 | The events about one request number at most the list length. |
| ItemService.CountAboutAppend | Backend/src/main/java/com/gotyourback/service/impl/ItemServiceImpl.java:100-112 | Counting over a concatenation adds the two counts. |
| ItemService.CountAboutEventFor | Backend/src/main/java/com/gotyourback/service/impl/ItemServiceImpl.java:102-103 | One request row yields one event about itself iff it is open on the item. |
| ItemService.NotifyHolder | Backend/src/main/java/com/gotyourback/service/impl/ItemServiceImpl.java:101-111 | Stores the one event `EventFor` gives, or nothing. |
| ItemService.NotifyHolders | Backend/src/main/java/com/gotyourback/service/impl/ItemServiceImpl.java:100-112 | The `forEach` stores exactly `HolderEvents` for the rows, in order. |
| ItemService.UpdateItem | Backend/src/main/java/com/gotyourback/service/impl/ItemServiceImpl.java:82-115 | NotFound, then NotItemOwner when the DTO's owner id differs, both with nothing changed. Then ConstraintViolated, with nothing changed, when the revised name, description or category is blank (the entity's `@NotBlank`, checked by `save` at line 97 before any notification). Otherwise the item becomes `Revise` of itself, ITEM_UPDATED goes to the holders of open requests, and the DTO of the new row is returned. |
| ItemService.SetDescriptiveFields | Backend/src/main/java/com/gotyourback/service/impl/ItemServiceImpl.java:90-95 | The six setters produce exactly `Revise`. |
| ItemService.DeleteItem | Backend/src/main/java/com/gotyourback/service/impl/ItemServiceImpl.java:118-138 | NotFound with nothing changed. Otherwise ITEM_DELETED with no related item goes to the holders of open requests, and exactly that item is removed from the table. |
| ItemService.UpdateItemStatus | Backend/src/main/java/com/gotyourback/service/impl/ItemServiceImpl.java:141-146 | NotFound, or the item's status becomes the given value and no other field changes. |
| ItemService.LentView | Backend/src/main/java/com/gotyourback/service/impl/ItemServiceImpl.java:202-224 | Borrower and times come from the first ACCEPTED or DONE request on the item; there is none iff no such request exists. `isReturned` iff both return flags are non-null and true. |
| ItemService.SoldView | Backend/src/main/java/com/gotyourback/service/impl/ItemServiceImpl.java:187-200 | The buyer is the requester of the first DONE request on the item; none iff no request on it is DONE. |
| ItemService.BuyerIsSomeBorrower | Backend/src/main/java/com/gotyourback/service/impl/ItemServiceImpl.java:187-224 | An item with a buyer in the sold view also has a borrower in the lent view. |
| MessageService.Receiver | Backend/src/main/java/com/gotyourback/service/MessageService.java:45-47 | The receiver is one of the two parties, and the owner only when the requester writes. |
| MessageService.ReceiverIsCounterparty | Backend/src/main/java/com/gotyourback/service/MessageService.java:45-47 | Between two distinct parties, a message reaches the other one. |
| MessageService.ThirdPartyReachesRequester | Backend/src/main/java/com/gotyourback/service/MessageService.java:41-47 | A sender who is neither party is not refused, and the message reaches the requester. |
| MessageService.Send | Backend/src/main/java/com/gotyourback/service/MessageService.java:31-54 | Refuses in order: unknown request, status neither ACCEPTED nor DONE, unknown sender. Succeeds iff all pass, with the given content, sender, receiver and time. |
| MessageService.SendMessage | Backend/src/main/java/com/gotyourback/service/MessageService.java:31-69 | Nothing changes on refusal. On success exactly one message is appended, and one MESSAGE_RECEIVED goes to the receiver, referencing the item, the request and the new message id. |
| MessageService.MessagesByRequest | Backend/src/main/java/com/gotyourback/service/MessageService.java:71-76 | Exactly the request's messages (as a multiset), sorted by `sentAt`, newest first. |
| MessageService.UserMessages | Backend/src/main/java/com/gotyourback/service/MessageService.java:78-83 | Exactly the messages the user sent or received (as a multiset), newest first. |
| MessageService.SentMessageListed | Backend/src/main/java/com/gotyourback/repository/MessageRepository.java:10-14 | A stored message shows up for its request, its sender and its receiver. |
| ItemRepository.FindByOwnerId | Backend/src/main/java/com/gotyourback/repository/ItemRepository.java:10 | Exactly the owner's items, none invented. |
| ItemRepository.FindActiveByOwnerId | Backend/src/main/java/com/gotyourback/repository/ItemRepository.java:13-14 | Exactly the owner's items that are not SOLD. |
| ItemRepository.FindSoldByOwnerId | Backend/src/main/java/com/gotyourback/repository/ItemRepository.java:17-18 | Exactly the owner's SOLD items. |
| ItemRepository.FindLentByOwnerId | Backend/src/main/java/com/gotyourback/repository/ItemRepository.java:21-22 | Exactly the owner's LEND items that are UNAVAILABLE or RETURNED. |
| ItemRepository.ActiveSoldPartition | Backend/src/main/java/com/gotyourback/repository/ItemRepository.java:13-18 | Active and sold lists are disjoint, and together they are all of the owner's items, as multisets. |
| ItemRepository.LentAreActive | Backend/src/main/java/com/gotyourback/repository/ItemRepository.java:13-22 | Every lent item is also in the active list. |
| ItemRepository.SearchItems | Backend/src/main/java/com/gotyourback/repository/ItemRepository.java:26-32 | A row is listed iff it is in the table and meets the search conditions. So only AVAILABLE rows are listed, each given category, type and urgency matches exactly, a keyword needs a non-null name, and no row is invented. |
| ItemRepository.SearchWithoutFilters | Backend/src/main/java/com/gotyourback/repository/ItemRepository.java:26-32 | With no filters, the search lists exactly the AVAILABLE items. |
| ItemRepository.LowerPattern | Backend/src/main/java/com/gotyourback/repository/ItemRepository.java:30 | Lower-casing `'%' + k + '%'` wraps the lower-cased keyword, which is still free of wildcards. |
| ItemRepository.LowerIdempotent | Backend/src/main/java/com/gotyourback/repository/ItemRepository.java:30 | Lower-casing twice is lower-casing once. |
| ItemRepository.KeywordIsSubstringMatch | Backend/src/main/java/com/gotyourback/repository/ItemRepository.java:26-32 | For a keyword without wildcards, an item is found iff its lower-cased name contains the lower-cased keyword (and the other filters hold). |
| ItemRepository.KeywordCaseInsensitive | Backend/src/main/java/com/gotyourback/repository/ItemRepository.java:30 | Keywords that are equal once lower-cased give the same results. |
| ItemRepository.MoreFiltersNarrow | Backend/src/main/java/com/gotyourback/repository/ItemRepository.java:27-29 | Dropping any one of the four filters never removes a result. |
| Text.LikeContains | Backend/src/main/java/com/gotyourback/repository/ItemRepository.java:30 | `s LIKE '%' + k + '%'` holds iff `k` occurs in `s`, for `k` without wildcards. |
| Validation.ValidateItem | Frontend/scripts/utils/validation.js:2-22 | Each message is present iff its check fails, in field order, and nothing else. The list is empty iff trimmed name ≥ 3, trimmed description ≥ 10, and category and type are non-empty. |
| Validation.ValidateProfile | Frontend/scripts/utils/validation.js:25-45 | Name required (trimmed ≥ 2). Department (trimmed ≥ 2), registration number (eight or more digits) and year (integer 1 to 5) are checked only when present and truthy. Each message is present iff its check fails, in order. |
| Validation.ValidateLogin | Frontend/scripts/utils/validation.js:48-60 | The email message iff the e-mail is missing or invalid, the password message iff it is missing or shorter than 6 (untrimmed), in that order. |
| Validation.ValidateSignup | Frontend/scripts/utils/validation.js:63-83 | The name, e-mail and password rules, plus "Passwords do not match" iff the two values differ, each iff its check fails, in order. |
| Validation.IsValidEmail | Frontend/scripts/utils/validation.js:86-89 | The regular expression decided at the first `@`: a non-empty local part free of white space, the rest free of white space and `@`, and a dot with at least one character on each side of it after the `@`. `EmailCheckMatchesPattern` proves this equals the pattern's language. |
| Validation.EmailCheckMatchesPattern | Frontend/scripts/utils/validation.js:86-89 | The first-`@` decision procedure accepts exactly `local@domain.tld` with three non-empty parts free of white space and `@`. |
| Validation.AcceptedNameNotBlankOnServer | Frontend/scripts/utils/validation.js:5 | A name the form accepts, holding no control character outside JavaScript white space, passes the server's blank check. |
| Validation.ControlCharactersPassOnlyTheForm | Frontend/scripts/utils/validation.js:5 | Three U+0001 characters pass the form's length check but are blank for the server's `trim()`. |

## Left out

- Controllers, the exception handler and HTTP status codes. Errors are the `Error` datatype; human-readable message strings (in exceptions and notifications) are not modelled.
- Spring/JPA machinery. Each service method is one atomic update of in-memory tables. `save`, `@Transactional`, `@CreationTimestamp` and the JPA cascade from an item to its requests on delete are not modelled. After `DeleteItem`, the item's requests stay in the table. Of entity validation, only the `@NotBlank` constraints of `Item` (name, description, category) are modelled. They assume a Bean Validation provider is on the class path, as the `jakarta.validation` import of `Item.java` suggests. In the source, `updateItem` has already called the setters on the loaded entity when `save` throws. `UpdateItem` checks before the setters instead, and the stored row ends unchanged either way.
- Time. Every `createNotification` reads the clock itself. So in the source, an operation that stamps a field and notifies, or notifies more than once, reads the clock several times: `createRequest`, `markRequestAsDone`, `confirmReturn`, `markAsLent`, `confirmReceipt`, `sendMessage`, the `updateItem` and `deleteItem` fan-outs, and `markAllAsRead`. The model takes one reading per operation, the parameter `now`, and stamps every row that operation writes with it.
- Concurrency between confirmations, which the code does not address.
- The read-only queries that only forward a repository call: `getRequestsByRequesterId`, `getReceivedRequests`, `getNotificationsForUser`, `getUnreadNotificationsForUser`, `getItemById`, `getAllItems`, `getItemsByOwnerId` and friends, and `countByOwnerId`. The repository filters underneath them are modelled in `ItemRepository` and `MessageService`.
- DTO display fields: owner name and e-mail, sender and receiver names. `convertToDto` of requests and messages is field copying.
- The request row stores the item owner's id at creation, where the source follows `request.getItem().getOwner()`. This is equivalent because no operation changes an item's owner.
- UpdateItem, DeleteItem: the fan-out runs over `findByItem_Id`, a derived query with no `ORDER BY`, so the database chooses the order of the requests. The model takes the requests in id order, which fixes the order and the ids of the ITEM_UPDATED and ITEM_DELETED rows it stores. What the source promises is only the set of holder notifications (`HolderEventsOncePerOpenRequest`, `HolderEventsFromOpenRequests`), not their order or numbering.
- `UpdateItem` reads the request table before it mutates the item; the source reads it after. This is equivalent because the item setters do not touch requests.
- Text. `Lower` folds ASCII letters only, lengths count UTF-16 code units as characters, and JavaScript `trim` uses the common white-space set (ASCII, NBSP, BOM, line and paragraph separators, and the Zs spaces).
- ItemRepository.KeywordIsSubstringMatch: does not cover keywords containing `%` or `_`, which SQL `LIKE` treats as wildcards; `SearchItems` itself handles them through `Like`. A keyword holding `\`, which the usual databases read as the default `LIKE` escape character, is outside the model altogether: `Like` treats `\` as an ordinary character.
- Validation. Validators receive strings or nothing for each field. Non-string JavaScript values are left out, except `yearOfStudy`, which is an integer, another value with its truthiness, or absent. `null` and `undefined` are both `None`, so `ConfirmationDiffers` treats a null and an undefined password as equal, whereas `!==` does not.
- Scenarios: these lemmas illustrate the lifecycle and follow from the transitions' contracts. They add no operation.
