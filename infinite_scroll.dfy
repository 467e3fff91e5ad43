/** Prefix pagination of the game list (web/src/hooks/useInfiniteScroll.js): a
    page-sized prefix is shown, each `loadMore` extends it by one page, and a
    change of the list starts over. */
module InfiniteScroll {

  function Min(a: nat, b: nat): nat { if a <= b then a else b }

  /** `items.slice(0, count)`: the first `count` items, or all of them. */
  function Take<T>(items: seq<T>, count: nat): (r: seq<T>)
    ensures |r| == Min(count, |items|)
    ensures r == items[..|r|]
  {
    items[..Min(count, |items|)]
  }

  /** The prefix shown after the list was set and `loadMore` then ran `loads` times. */
  function ShownAfter<T>(items: seq<T>, perPage: nat, loads: nat): seq<T>
  {
    if loads == 0 then Take(items, perPage)
    else Take(items, |ShownAfter(items, perPage, loads - 1)| + perPage)
  }

  /** Every `loadMore` adds exactly one page until the list runs out. */
  lemma {:induction false} ShownAfterLoads<T>(items: seq<T>, perPage: nat, loads: nat)
    ensures ShownAfter(items, perPage, loads) == Take(items, (loads + 1) * perPage)
  {
    if loads > 0 {
      ShownAfterLoads(items, perPage, loads - 1);
      var before := loads * perPage;
      assert (loads + 1) * perPage == before + perPage;
      assert |ShownAfter(items, perPage, loads - 1)| == Min(before, |items|);
      assert Min(Min(before, |items|) + perPage, |items|) == Min(before + perPage, |items|);
    }
  }

  /** With a positive page size, enough `loadMore` calls show the whole list. */
  lemma EventuallyAllShown<T>(items: seq<T>, perPage: nat)
    requires perPage > 0
    ensures ShownAfter(items, perPage, |items|) == items
  {
    ShownAfterLoads(items, perPage, |items|);
    assert (|items| + 1) * perPage >= |items|;
  }

  class Pager<T> {
    var items: seq<T>
    var perPage: nat
    var displayed: seq<T>
    var hasMore: bool

    /** `displayed` is a prefix of `items`, and `hasMore` says whether it is a proper one. */
    ghost predicate Valid()
      reads this
    {
      |displayed| <= |items| && displayed == items[..|displayed|] && hasMore == (|displayed| < |items|)
    }

    /** The initial state is the first page of the first list. */
    constructor (initial: seq<T>, itemsPerPage: nat)
      ensures items == initial && perPage == itemsPerPage
      ensures displayed == Take(initial, itemsPerPage) && hasMore == (|initial| > itemsPerPage)
      ensures Valid()
    {
      items, perPage := initial, itemsPerPage;
      displayed := Take(initial, itemsPerPage);
      hasMore := |initial| > itemsPerPage;
    }

    /** The effect run when the list (or the page size) changes. */
    method Reset(newItems: seq<T>, itemsPerPage: nat)
      modifies this
      ensures items == newItems && perPage == itemsPerPage
      ensures displayed == Take(newItems, itemsPerPage) && hasMore == (|newItems| > itemsPerPage)
      ensures Valid()
    {
      items, perPage := newItems, itemsPerPage;
      displayed := Take(items, perPage);
      hasMore := |items| > perPage;
    }

    /** `loadMore`: one more page of the same list. */
    method LoadMore()
      requires Valid()
      modifies this`displayed, this`hasMore
      ensures displayed == Take(items, |old(displayed)| + perPage)
      ensures hasMore == (|displayed| < |items|)
      ensures Valid()
      ensures old(displayed) == displayed[..|old(displayed)|]
      ensures |displayed| <= |old(displayed)| + perPage
      ensures !old(hasMore) ==> displayed == old(displayed)
    {
      var newItems := Take(items, |displayed| + perPage);
      hasMore := |newItems| < |items|;
      displayed := newItems;
    }

    /** The observer callback: it loads only while there is more to show. */
    method OnIntersection(isIntersecting: bool)
      requires Valid()
      modifies this`displayed, this`hasMore
      ensures isIntersecting && old(hasMore) ==> displayed == Take(items, |old(displayed)| + perPage)
      ensures !(isIntersecting && old(hasMore)) ==> displayed == old(displayed) && hasMore == old(hasMore)
      ensures Valid()
    {
      if isIntersecting && hasMore {
        LoadMore();
      }
    }
  }
}
