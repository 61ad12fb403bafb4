/** The infinite-scroll loader of js/infinite-scroll.js: one atomic step per call of
    `loadMoreBlocks`, over the feed state and the children of the block container. */
module InfiniteScroll {
  import opened Common

  /** What the block container holds: rendered blocks, the 1px scroll trigger, and the
      "Loading more..." indicator. */
  datatype Child = Rendered(block: Block) | ScrollTrigger | LoadingIndicator

  /** Position of the first child equal to `x`. */
  function IndexOf(s: seq<Child>, x: Child): (i: nat)
    requires x in s
    ensures i < |s| && s[i] == x
    ensures forall k | 0 <= k < i :: s[k] != x
  {
    if s[0] == x then 0
    else 1 + IndexOf(s[1..], x)
  }

  /** `document.querySelector(selector)` followed by `.remove()`: the first child equal to `x`
      goes, everything else stays in order; nothing happens when there is none. */
  function RemoveFirst(s: seq<Child>, x: Child): (r: seq<Child>)
    ensures x !in s ==> r == s
  {
    if x in s then
      var i := IndexOf(s, x);
      s[..i] + s[i + 1..]
    else s
  }

  /** Exactly one `x` goes, when there is one. */
  lemma RemoveFirstMultiset(s: seq<Child>, x: Child)
    ensures multiset(RemoveFirst(s, x)) == multiset(s) - multiset{x}
  {
    if x in s {
      var i := IndexOf(s, x);
      assert s == s[..i] + [x] + s[i + 1..];
    }
  }

  /** The elements `renderBlocks(contents, true, ...)` appends, one per block, in order. */
  function RenderAll(items: seq<Block>): (r: seq<Child>)
    ensures |r| == |items|
    ensures forall i | 0 <= i < |items| :: r[i] == Rendered(items[i])
    ensures ScrollTrigger !in r && LoadingIndicator !in r
  {
    seq(|items|, i requires 0 <= i < |items| => Rendered(items[i]))
  }

  /** At most one scroll trigger and no loading indicator. */
  predicate WellFormed(c: seq<Child>) {
    multiset(c)[ScrollTrigger] <= 1 && LoadingIndicator !in c
  }

  /** The container after a non-empty page: the page's blocks are appended and, when the page
      was full, the trigger is moved to the very end. */
  function AppendPage(c: seq<Child>, items: seq<Block>, full: bool): seq<Child> {
    if full then RemoveFirst(c + RenderAll(items), ScrollTrigger) + [ScrollTrigger]
    else c + RenderAll(items)
  }

  /** Appending a page keeps the container well formed; afterwards there is a trigger exactly
      when the page was full or one was already there. */
  lemma AppendPageWellFormed(c: seq<Child>, items: seq<Block>, full: bool)
    requires WellFormed(c)
    ensures WellFormed(AppendPage(c, items, full))
    ensures ScrollTrigger in AppendPage(c, items, full) <==> full || ScrollTrigger in c
    ensures RemoveFirst(AppendPage(c, items, full), LoadingIndicator) == AppendPage(c, items, full)
  {
    var r := RenderAll(items);
    assert multiset(c + r)[ScrollTrigger] == multiset(c)[ScrollTrigger];
    assert LoadingIndicator !in c + r;
    if full {
      var d := RemoveFirst(c + r, ScrollTrigger);
      RemoveFirstMultiset(c + r, ScrollTrigger);
      assert multiset(d)[ScrollTrigger] == 0;
      assert multiset(d + [ScrollTrigger])[ScrollTrigger] == 1;
      assert LoadingIndicator !in d by {
        assert multiset(d)[LoadingIndicator] <= multiset(c + r)[LoadingIndicator];
      }
    } else {
      assert ScrollTrigger in c + r <==> ScrollTrigger in c;
    }
  }

  class Feed {
    var currentPage: int
    var hasMore: bool
    var loadingMore: bool
    var currentBlocks: seq<Block>
    var container: seq<Child>
    const perPage: int

    /** At most one scroll trigger, and no loading indicator between two steps. */
    ghost predicate Valid()
      reads this
    {
      WellFormed(container)
    }

    constructor(perPage: int)
      ensures this.perPage == perPage
      ensures currentPage == 1 && hasMore && !loadingMore && currentBlocks == [] && container == []
      ensures Valid()
    {
      this.perPage := perPage;
      currentPage := 1;
      hasMore := true;
      loadingMore := false;
      currentBlocks := [];
      container := [];
    }

    /** `removeInfiniteScrollTrigger`: the trigger, if any, leaves the container. */
    method RemoveInfiniteScrollTrigger()
      modifies this
      ensures container == RemoveFirst(old(container), ScrollTrigger)
      ensures old(multiset(container)[ScrollTrigger]) <= 1 ==> ScrollTrigger !in container
      ensures currentPage == old(currentPage) && hasMore == old(hasMore) && loadingMore == old(loadingMore)
      ensures currentBlocks == old(currentBlocks)
    {
      RemoveFirstMultiset(container, ScrollTrigger);
      container := RemoveFirst(container, ScrollTrigger);
    }

    /** `addInfiniteScrollTrigger`: any existing trigger is removed before a new one is appended,
        so from a state with at most one trigger there is exactly one, at the end. */
    method AddInfiniteScrollTrigger()
      modifies this
      ensures container == RemoveFirst(old(container), ScrollTrigger) + [ScrollTrigger]
      ensures old(multiset(container)[ScrollTrigger]) <= 1 ==> multiset(container)[ScrollTrigger] == 1
      ensures currentPage == old(currentPage) && hasMore == old(hasMore) && loadingMore == old(loadingMore)
      ensures currentBlocks == old(currentBlocks)
    {
      RemoveInfiniteScrollTrigger();
      container := container + [ScrollTrigger];
    }

    /** `loadMoreBlocks` as one atomic step; `outcome` is what `fetchWithRetry` produced. */
    method LoadMoreBlocks(outcome: FetchOutcome)
      requires Valid()
      modifies this
      ensures Valid()
      ensures old(loadingMore) || !old(hasMore) ==>
        currentPage == old(currentPage) && hasMore == old(hasMore) && loadingMore == old(loadingMore) &&
        currentBlocks == old(currentBlocks) && container == old(container)
      ensures !old(loadingMore) && old(hasMore) ==>
        currentPage == old(currentPage) + 1 && !loadingMore && LoadingIndicator !in container
      ensures !old(loadingMore) && old(hasMore) && outcome.Contents? && |outcome.items| > 0 ==>
        currentBlocks == old(currentBlocks) + outcome.items &&
        hasMore == (|outcome.items| == perPage) &&
        container == AppendPage(old(container), outcome.items, hasMore)
      ensures !old(loadingMore) && old(hasMore) && !(outcome.Contents? && |outcome.items| > 0) ==>
        currentBlocks == old(currentBlocks) && !hasMore &&
        container == RemoveFirst(old(container), ScrollTrigger) && ScrollTrigger !in container
      ensures !old(loadingMore) && old(hasMore) ==>
        (ScrollTrigger in container <==>
          hasMore || (outcome.Contents? && |outcome.items| > 0 && ScrollTrigger in old(container)))
    {
      if loadingMore || !hasMore {
        return;
      }
      loadingMore := true;
      currentPage := currentPage + 1;
      if outcome.Contents? && |outcome.items| > 0 {
        ReceivePage(outcome.items);
      } else {
        EndOfFeed();
      }
      loadingMore := false;
    }

    /** The successful branch of `loadMoreBlocks`, from appending the indicator to the `finally`
        block: the blocks are appended to the state and rendered, and on a full page the trigger
        is moved to the end. */
    method ReceivePage(items: seq<Block>)
      requires Valid() && |items| > 0
      modifies this
      ensures Valid()
      ensures currentBlocks == old(currentBlocks) + items
      ensures hasMore == (|items| == perPage)
      ensures container == AppendPage(old(container), items, hasMore)
      ensures ScrollTrigger in container <==> hasMore || ScrollTrigger in old(container)
      ensures currentPage == old(currentPage) && loadingMore == old(loadingMore)
    {
      var before := container;
      container := container + [LoadingIndicator];
      currentBlocks := currentBlocks + items;
      // `loadingIndicator.remove()` takes out the element just appended
      container := container[..|container| - 1];
      assert container == before;
      container := container + RenderAll(items);
      hasMore := |items| == perPage;
      if hasMore {
        AddInfiniteScrollTrigger();
      }
      // the `finally` block finds no indicator left
      container := RemoveFirst(container, LoadingIndicator);
      AppendPageWellFormed(before, items, hasMore);
    }

    /** The branches of `loadMoreBlocks` for an empty or missing page and for a failed fetch:
        the feed is over and the trigger goes; the `finally` block removes the indicator. */
    method EndOfFeed()
      requires Valid()
      modifies this
      ensures Valid()
      ensures currentBlocks == old(currentBlocks) && !hasMore
      ensures container == RemoveFirst(old(container), ScrollTrigger) && ScrollTrigger !in container
      ensures currentPage == old(currentPage) && loadingMore == old(loadingMore)
    {
      var before := container;
      container := container + [LoadingIndicator];
      hasMore := false;
      RemoveInfiniteScrollTrigger();
      container := RemoveFirst(container, LoadingIndicator);
      EndOfFeedWellFormed(before);
    }
  }

  /** With the indicator appended, removing the trigger and then the indicator leaves the
      container without its trigger, and well formed. */
  lemma EndOfFeedWellFormed(c: seq<Child>)
    requires WellFormed(c)
    ensures RemoveFirst(RemoveFirst(c + [LoadingIndicator], ScrollTrigger), LoadingIndicator) == RemoveFirst(c, ScrollTrigger)
    ensures WellFormed(RemoveFirst(c, ScrollTrigger)) && ScrollTrigger !in RemoveFirst(c, ScrollTrigger)
  {
    var d := RemoveFirst(c, ScrollTrigger);
    RemoveFirstMultiset(c, ScrollTrigger);
    RemoveFirstPastEnd(c, LoadingIndicator, ScrollTrigger);
    assert multiset(d)[LoadingIndicator] == 0;
    assert multiset(d)[ScrollTrigger] == 0;
    RemoveFirstLast(d, LoadingIndicator);
  }

  /** The first occurrence is determined by its two defining facts. */
  lemma IndexOfUnique(s: seq<Child>, x: Child, i: nat)
    requires i < |s| && s[i] == x
    requires forall k | 0 <= k < i :: s[k] != x
    ensures IndexOf(s, x) == i
  {
  }

  /** Removing `x` from `s + [y]` with `y != x` does not touch the appended element. */
  lemma RemoveFirstPastEnd(s: seq<Child>, y: Child, x: Child)
    requires y != x
    ensures RemoveFirst(s + [y], x) == RemoveFirst(s, x) + [y]
  {
    if x in s {
      var i := IndexOf(s, x);
      IndexOfUnique(s + [y], x, i);
      assert (s + [y])[i + 1..] == s[i + 1..] + [y];
    } else {
      assert x !in s + [y];
    }
  }

  /** Removing `x` from `s + [x]` when `s` has none removes exactly the appended element. */
  lemma RemoveFirstLast(s: seq<Child>, x: Child)
    requires x !in s
    ensures RemoveFirst(s + [x], x) == s
  {
    IndexOfUnique(s + [x], x, |s|);
  }
}
