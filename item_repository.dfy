/**
 * ItemRepository: the owner's active, sold and lent items, and the marketplace
 * search. Each query is a WHERE clause over the items table in row order; a
 * comparison with a NULL column is never true.
 */
module ItemRepository {
  import opened Domain
  import opened Seqs
  import opened Text

  function OwnedBy(ownerId: UserId): ItemRow -> bool {
    (i: ItemRow) => i.ownerId == ownerId
  }

  function ActiveOf(ownerId: UserId): ItemRow -> bool {
    (i: ItemRow) => i.ownerId == ownerId && i.status != Sold
  }

  function SoldOf(ownerId: UserId): ItemRow -> bool {
    (i: ItemRow) => i.ownerId == ownerId && i.status == Sold
  }

  function LentOf(ownerId: UserId): ItemRow -> bool {
    (i: ItemRow) => i.ownerId == ownerId && i.itemType == Some(Lend) && (i.status == Unavailable || i.status == Returned)
  }

  /** findByOwnerId: every item of the owner. */
  function FindByOwnerId(items: seq<ItemRow>, ownerId: UserId): (r: seq<ItemRow>)
    ensures forall x :: x in r <==> x in items && x.ownerId == ownerId
    ensures multiset(r) <= multiset(items)
  {
    Filter(items, OwnedBy(ownerId))
  }

  /** findActiveByOwnerId: the owner's items that are not SOLD. */
  function FindActiveByOwnerId(items: seq<ItemRow>, ownerId: UserId): (r: seq<ItemRow>)
    ensures forall x :: x in r <==> x in items && x.ownerId == ownerId && x.status != Sold
    ensures multiset(r) <= multiset(items)
  {
    Filter(items, ActiveOf(ownerId))
  }

  /** findSoldByOwnerId: the owner's SOLD items. */
  function FindSoldByOwnerId(items: seq<ItemRow>, ownerId: UserId): (r: seq<ItemRow>)
    ensures forall x :: x in r <==> x in items && x.ownerId == ownerId && x.status == Sold
    ensures multiset(r) <= multiset(items)
  {
    Filter(items, SoldOf(ownerId))
  }

  /** findLentByOwnerId: the owner's LEND items that are UNAVAILABLE or RETURNED. */
  function FindLentByOwnerId(items: seq<ItemRow>, ownerId: UserId): (r: seq<ItemRow>)
    ensures forall x :: x in r <==> (x in items && x.ownerId == ownerId && x.itemType == Some(Lend)
                                     && (x.status == Unavailable || x.status == Returned))
    ensures multiset(r) <= multiset(items)
  {
    Filter(items, LentOf(ownerId))
  }

  /** The active and the sold lists split the owner's items: every row lands in exactly one of them. */
  lemma ActiveSoldPartition(items: seq<ItemRow>, ownerId: UserId)
    ensures multiset(FindActiveByOwnerId(items, ownerId)) + multiset(FindSoldByOwnerId(items, ownerId))
         == multiset(FindByOwnerId(items, ownerId))
    ensures forall x :: !(x in FindActiveByOwnerId(items, ownerId) && x in FindSoldByOwnerId(items, ownerId))
  {
    FilterSplit(items, ActiveOf(ownerId), SoldOf(ownerId), OwnedBy(ownerId));
  }

  /** A lent item is never sold, so it is also listed among the active ones. */
  lemma LentAreActive(items: seq<ItemRow>, ownerId: UserId)
    ensures forall x :: x in FindLentByOwnerId(items, ownerId) ==> x in FindActiveByOwnerId(items, ownerId)
  {
  }

  /** The search conditions on one row; a `None` parameter is the JPQL `:p is null` that disables its condition. */
  predicate SearchMatches(i: ItemRow, category: Option<string>, itemType: Option<ItemType>,
                          urgency: Option<string>, keyword: Option<string>) {
    && (category.None? || i.category == category)
    && (itemType.None? || i.itemType == itemType)
    && (urgency.None? || i.urgency == urgency)
    && (keyword.None? || (i.name.Some? && Like(Lower(i.name.value), Lower("%" + keyword.value + "%"))))
    && i.status == Available
  }

  function Matching(category: Option<string>, itemType: Option<ItemType>,
                    urgency: Option<string>, keyword: Option<string>): ItemRow -> bool {
    (i: ItemRow) => SearchMatches(i, category, itemType, urgency, keyword)
  }

  /**
   * searchItems: AVAILABLE items that meet every given filter. A row whose
   * filtered column is NULL never matches that filter.
   */
  function SearchItems(items: seq<ItemRow>, category: Option<string>, itemType: Option<ItemType>,
                       urgency: Option<string>, keyword: Option<string>): (r: seq<ItemRow>)
    ensures forall x :: x in r ==> x in items && x.status == Available
    ensures forall x :: x in r ==> ((category.Some? ==> x.category == category)
                                 && (itemType.Some? ==> x.itemType == itemType)
                                 && (urgency.Some? ==> x.urgency == urgency)
                                 && (keyword.Some? ==> x.name.Some?))
    ensures forall x :: x in r <==> x in items && SearchMatches(x, category, itemType, urgency, keyword)
    ensures multiset(r) <= multiset(items)
  {
    Filter(items, Matching(category, itemType, urgency, keyword))
  }

  /** With no filter at all the search lists exactly the AVAILABLE items. */
  lemma SearchWithoutFilters(items: seq<ItemRow>)
    ensures forall x :: x in SearchItems(items, None, None, None, None) <==> x in items && x.status == Available
  {
  }

  /** Lower-casing the pattern `%keyword%` keeps the wildcards and lower-cases the keyword. */
  lemma LowerPattern(k: string)
    ensures Lower("%" + k + "%") == "%" + Lower(k) + "%"
    ensures NoWildcards(k) ==> NoWildcards(Lower(k))
  {
    var p := "%" + k + "%";
    assert forall i :: 0 <= i < |p| ==> Lower(p)[i] == ("%" + Lower(k) + "%")[i];
  }

  lemma LowerIdempotent(s: string)
    ensures Lower(Lower(s)) == Lower(s)
  {
    assert forall i :: 0 <= i < |s| ==> Lower(Lower(s))[i] == Lower(s)[i];
  }

  /**
   * A keyword without `%` or `_` selects the items whose lower-cased name
   * contains the lower-cased keyword.
   */
  lemma KeywordIsSubstringMatch(items: seq<ItemRow>, category: Option<string>, itemType: Option<ItemType>,
                                urgency: Option<string>, k: string, x: ItemRow)
    requires NoWildcards(k)
    requires x in items && x.status == Available && x.name.Some?
    requires SearchMatches(x, category, itemType, urgency, None)
    ensures x in SearchItems(items, category, itemType, urgency, Some(k))
        <==> ContainsSubstring(Lower(x.name.value), Lower(k))
  {
    LowerPattern(k);
    LikeContains(Lower(x.name.value), Lower(k));
  }

  /** The keyword is compared without regard to case. */
  lemma {:induction false} KeywordCaseInsensitive(items: seq<ItemRow>, category: Option<string>,
                                                  itemType: Option<ItemType>, urgency: Option<string>, k: string)
    ensures SearchItems(items, category, itemType, urgency, Some(k))
         == SearchItems(items, category, itemType, urgency, Some(Lower(k)))
  {
    LowerPattern(k);
    LowerPattern(Lower(k));
    LowerIdempotent(k);
    FilterSame(items, Matching(category, itemType, urgency, Some(k)),
               Matching(category, itemType, urgency, Some(Lower(k))));
  }

  /** Giving one more filter can only narrow the result. */
  lemma MoreFiltersNarrow(items: seq<ItemRow>, category: Option<string>, itemType: Option<ItemType>,
                          urgency: Option<string>, keyword: Option<string>)
    ensures forall x :: x in SearchItems(items, category, itemType, urgency, keyword) ==>
      && x in SearchItems(items, None, itemType, urgency, keyword)
      && x in SearchItems(items, category, None, urgency, keyword)
      && x in SearchItems(items, category, itemType, None, keyword)
      && x in SearchItems(items, category, itemType, urgency, None)
  {
  }
}
