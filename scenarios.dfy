/**
 * Whole transfers composed from the lifecycle transitions: a loan, a sale, and
 * the consequences of `confirmReturn` checking only the DONE status and
 * `updateRequestStatus` checking nothing before it accepts.
 */
module Scenarios {
  import opened Domain
  import opened Lifecycle

  /**
   * A loan from start to end: request, accept, mark as lent, confirm receipt,
   * mark as done, both return confirmations. The item is UNAVAILABLE while lent
   * and AVAILABLE again at the end, and the request is completed at the second
   * confirmation.
   */
  lemma LoanRoundTrip(item: ItemRow, requesterId: UserId, newId: RequestId,
                      t0: Time, t1: Time, t2: Time, t3: Time, t4: Time)
    requires item.status == Available && item.itemType == Some(Lend)
    ensures var c := CreateRequest(Some(item), true, requesterId, newId, t0);
      && c.Applied? && c.request.status == Pending
      && var a := UpdateRequestStatus(c.request, c.item, Accepted);
      && a.Applied? && a.item.status == Unavailable
      && var l := MarkAsLent(a.request, a.item, item.ownerId, t1);
      && l.Applied?
      && var g := ConfirmReceipt(l.request, l.item, requesterId, t2);
      && g.Applied? && g.request.status == Accepted && g.item.status == Unavailable
      && var d := MarkRequestAsDone(g.request, g.item);
      && var b := ConfirmReturn(d.request, d.item, requesterId, true, t3);
      && b.Applied? && b.item.status == Unavailable && b.request.completedAt == None
      && var e := ConfirmReturn(b.request, b.item, item.ownerId, false, t4);
      && e.Applied? && e.item.status == Available && e.request.status == Done
      && e.request.completedAt == Some(t4) && e.request.lentAt == Some(t1) && e.request.receivedAt == Some(t2)
  {
  }

  /** A sale completes at the buyer's receipt: the request is DONE and the item SOLD in one step. */
  lemma SaleCompletesAtReceipt(item: ItemRow, requesterId: UserId, newId: RequestId, t0: Time, t1: Time, t2: Time)
    requires item.status == Available && item.itemType == Some(Sell)
    ensures var c := CreateRequest(Some(item), true, requesterId, newId, t0);
      && c.Applied?
      && var a := UpdateRequestStatus(c.request, c.item, Accepted);
      && var l := MarkAsLent(a.request, a.item, item.ownerId, t1);
      && l.Applied?
      && var g := ConfirmReceipt(l.request, l.item, requesterId, t2);
      && g.Applied? && g.request.status == Done && g.item.status == Sold
      && g.request.completedAt == Some(t2) && CountKind(g.events, RequestCompleted) == 2
  {
  }

  /**
   * `confirmReturn` still accepts a completed sale, since it checks only the
   * DONE status; once both parties confirm, the item stays SOLD.
   */
  lemma ReturnAfterSaleKeepsItemSold(req: RequestRow, item: ItemRow, u: UserId, v: UserId, t1: Time, t2: Time)
    requires req.status == Done && item.itemType == Some(Sell) && item.status == Sold
    ensures var b := ConfirmReturn(req, item, u, true, t1);
      && b.Applied?
      && var e := ConfirmReturn(b.request, b.item, v, false, t2);
      && e.Applied? && ReturnConfirmed(e.request) && e.item.status == Sold
  {
  }

  /**
   * Nothing stops a second request on the same item from being accepted after
   * the first: both acceptances are applied and the item is UNAVAILABLE.
   */
  lemma SecondAcceptanceApplied(r1: RequestRow, r2: RequestRow, item: ItemRow)
    requires r1.itemId == item.id && r2.itemId == item.id && r1.id != r2.id
    ensures var a := UpdateRequestStatus(r1, item, Accepted);
      && var b := UpdateRequestStatus(r2, a.item, Accepted);
      && a.Applied? && b.Applied? && a.request.status == Accepted && b.request.status == Accepted
      && b.item.status == Unavailable
  {
  }

  /**
   * Completing the return of an older request makes a LEND item AVAILABLE
   * whatever its status was, even while another request holds it.
   */
  lemma LateReturnFreesItem(req: RequestRow, item: ItemRow, lender: UserId, now: Time)
    requires req.status == Done && IsTrue(req.borrowerConfirmedReturn) && item.itemType == Some(Lend)
    ensures var o := ConfirmReturn(req, item, lender, false, now);
      o.Applied? && o.item == item.(status := Available)
  {
  }

  /** The two return confirmations commute: either order ends with the same item and the same flags. */
  lemma ConfirmationsCommute(req: RequestRow, item: ItemRow, u: UserId, v: UserId, t1: Time, t2: Time)
    requires req.status == Done
    ensures var b1 := ConfirmReturn(req, item, u, true, t1);
      && var l1 := ConfirmReturn(b1.request, b1.item, v, false, t2);
      && var l2 := ConfirmReturn(req, item, v, false, t1);
      && var b2 := ConfirmReturn(l2.request, l2.item, u, true, t2);
      && l1.Applied? && b2.Applied?
      && l1.item == b2.item && l1.request == b2.request
  {
  }
}
