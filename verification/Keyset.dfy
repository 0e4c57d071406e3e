/**
 * Keyset paging in general: each page holds the lowest items above the last one returned. Following
 * pages never repeats or skips an item, even when items come and go between pages.
 */
module Keyset {
  import opened Basics

  /** The items a continuation has yet to return. */
  ghost function Remaining<T(!new)>(less: (T, T) -> bool, items: set<T>, after: Option<T>): set<T> {
    set x | x in items && (after.Some? ==> less(after.value, x))
  }

  /** A page of at most `limit` items: the lowest remaining ones in order, and whether there are more. */
  ghost predicate IsPage<T(!new)>(less: (T, T) -> bool, items: set<T>, after: Option<T>, limit: nat, page: seq<T>, more: bool) {
    && Ascending(less, page)
    && Members(page) == Lowest(less, Remaining(less, items, after), limit)
    && (more <==> |Remaining(less, items, after)| > limit)
  }

  /** Where a page ended. */
  function End<T>(page: seq<T>, after: Option<T>): Option<T> {
    if page == [] then after else Some(page[|page| - 1])
  }

  /** Pages taken one after another, each from the items of its own moment, until none are left. */
  ghost predicate Walk<T(!new)>(
      less: (T, T) -> bool, moments: seq<set<T>>, after: Option<T>, limit: nat, pages: seq<seq<T>>)
    decreases |pages|
  {
    && |moments| == |pages| > 0
    && IsPage(less, moments[0], after, limit, pages[0], |pages| > 1)
    && (|pages| > 1 ==> Walk(less, moments[1..], End(pages[0], after), limit, pages[1..]))
  }

  function Concat<T>(pages: seq<seq<T>>): seq<T> {
    if pages == [] then [] else pages[0] + Concat(pages[1..])
  }

  /** Every moment's items belong to one ordered universe: an item's place in the order never changes. */
  ghost predicate Within<T(!new)>(less: (T, T) -> bool, universe: set<T>, moments: seq<set<T>>, after: Option<T>) {
    && StrictOrder(less, universe)
    && (forall i :: 0 <= i < |moments| ==> moments[i] <= universe)
    && (after.Some? ==> after.value in universe)
  }

  /** A page of the lowest items is below everything it leaves out. */
  lemma {:induction false} LeftOutIsAbove<T(!new)>(less: (T, T) -> bool, s: set<T>, limit: nat, x: T, y: T)
    requires StrictOrder(less, s) && x in Lowest(less, s, limit) && y in s && y !in Lowest(less, s, limit)
    ensures less(x, y)
  {
    if less(y, x) {
      assert Below(less, s, y) <= Below(less, s, x);
      SubsetSize(Below(less, s, y), Below(less, s, x));
    }
  }

  /** A page that is not the last is full, so it has an end. */
  lemma {:induction false} PageAdvances<T(!new)>(
      less: (T, T) -> bool, universe: set<T>, items: set<T>, after: Option<T>, limit: nat, page: seq<T>, more: bool)
    requires StrictOrder(less, universe) && items <= universe && limit > 0 && IsPage(less, items, after, limit, page, more)
    ensures |page| == if more then limit else |Remaining(less, items, after)|
    ensures forall x :: x in page ==> x in Remaining(less, items, after)
    ensures !more ==> Members(page) == Remaining(less, items, after)
  {
    var rest := Remaining(less, items, after);
    LowestCount(less, rest, limit);
    assert StrictOrder(less, Members(page));
    AscendingSize(less, page);
    assert forall x :: x in page ==> x in Members(page);
    if !more {
      SubsetSize(Lowest(less, rest, limit), rest);
    }
  }

  /** Concatenated pages are strictly ascending and all beyond where the walk started: nothing repeats. */
  lemma {:induction false} WalkAscends<T(!new)>(
      less: (T, T) -> bool, universe: set<T>, moments: seq<set<T>>, after: Option<T>, limit: nat, pages: seq<seq<T>>)
    requires Walk(less, moments, after, limit, pages) && Within(less, universe, moments, after) && limit > 0
    ensures Ascending(less, Concat(pages))
    ensures forall x :: x in Concat(pages) ==> x in universe && (after.Some? ==> less(after.value, x))
    decreases |pages|
  {
    var page := pages[0];
    PageAdvances(less, universe, moments[0], after, limit, page, |pages| > 1);
    if |pages| > 1 {
      var last := page[|page| - 1];
      assert last in page;
      WalkAscends(less, universe, moments[1..], End(page, after), limit, pages[1..]);
      var rest := Concat(pages[1..]);
      forall i, j | 0 <= i < |page| && 0 <= j < |rest| ensures less(page[i], rest[j]) {
        assert rest[j] in rest && page[i] in page && less(last, rest[j]);
        assert i < |page| - 1 ==> less(page[i], last);
      }
      forall x | x in Concat(pages) ensures x in universe && (after.Some? ==> less(after.value, x)) {
        if x !in page {
          assert x in rest && less(last, x) && last in Remaining(less, moments[0], after);
        }
      }
    } else {
      assert Concat(pages) == page + [] == page;
    }
  }

  /** Every item returned was there when its page was taken. */
  lemma {:induction false} WalkSound<T(!new)>(
      less: (T, T) -> bool, universe: set<T>, moments: seq<set<T>>, after: Option<T>, limit: nat, pages: seq<seq<T>>, x: T)
    requires Walk(less, moments, after, limit, pages) && Within(less, universe, moments, after) && limit > 0
    requires x in Concat(pages)
    ensures exists i :: 0 <= i < |moments| && x in moments[i] && x in pages[i]
    decreases |pages|
  {
    PageAdvances(less, universe, moments[0], after, limit, pages[0], |pages| > 1);
    if x in pages[0] {
      assert x in moments[0];
    } else {
      assert |pages| > 1;
      assert pages[0][|pages[0]| - 1] in pages[0];
      WalkSound(less, universe, moments[1..], End(pages[0], after), limit, pages[1..], x);
      var i :| 0 <= i < |moments[1..]| && x in moments[1..][i] && x in pages[1..][i];
      assert x in moments[i + 1] && x in pages[i + 1];
    }
  }

  /** An item that is there at every moment, beyond where the walk starts, is returned. */
  lemma {:induction false} WalkComplete<T(!new)>(
      less: (T, T) -> bool, universe: set<T>, moments: seq<set<T>>, after: Option<T>, limit: nat, pages: seq<seq<T>>, x: T)
    requires Walk(less, moments, after, limit, pages) && Within(less, universe, moments, after) && limit > 0
    requires (forall i :: 0 <= i < |moments| ==> x in moments[i]) && (after.Some? ==> less(after.value, x))
    ensures x in Concat(pages)
    decreases |pages|
  {
    var page := pages[0];
    assert x in moments[0];
    PageAdvances(less, universe, moments[0], after, limit, page, |pages| > 1);
    if x !in page {
      var rest := Remaining(less, moments[0], after);
      assert x in rest && x !in Members(page);
      assert |pages| > 1;
      var last := page[|page| - 1];
      assert last in page && last in Members(page);
      LeftOutIsAbove(less, rest, limit, last, x);
      forall i | 0 <= i < |moments[1..]| ensures x in moments[1..][i] { assert moments[1..][i] == moments[i + 1]; }
      WalkComplete(less, universe, moments[1..], End(page, after), limit, pages[1..], x);
    }
  }

  /** Over items that do not change, the pages are exactly the sorted items, so as many as there are. */
  lemma {:induction false} WalkIsSorted<T(!new)>(less: (T, T) -> bool, items: set<T>, moments: seq<set<T>>, limit: nat, pages: seq<seq<T>>)
    requires StrictOrder(less, items) && (forall i :: 0 <= i < |moments| ==> moments[i] == items)
    requires Walk(less, moments, None, limit, pages) && limit > 0
    ensures Ascending(less, Concat(pages)) && Lists(Concat(pages), items) && |Concat(pages)| == |items|
  {
    WalkAscends(less, items, moments, None, limit, pages);
    forall x ensures x in Concat(pages) <==> x in items {
      if x in items {
        WalkComplete(less, items, moments, None, limit, pages, x);
      }
    }
    assert Members(Concat(pages)) == items;
    AscendingSize(less, Concat(pages));
  }

  /** Sorting what remains and cutting it at the limit gives a page. */
  lemma {:induction false} SortedPage<T(!new)>(less: (T, T) -> bool, items: set<T>, after: Option<T>, limit: nat, sorted: seq<T>)
    requires StrictOrder(less, items) && limit > 0
    requires Ascending(less, sorted) && Lists(sorted, Remaining(less, items, after))
    ensures var page := if |sorted| > limit then sorted[..limit] else sorted;
            IsPage(less, items, after, limit, page, |sorted| > limit) && forall x :: x in page ==> x in items
  {
    var rest := Remaining(less, items, after);
    CutIsLowest(less, sorted, rest, limit);
    assert Members(sorted) == rest;
    AscendingSize(less, sorted);
    forall x | x in (if |sorted| > limit then sorted[..limit] else sorted) ensures x in items {
      assert x in sorted;
    }
  }

  /** An item is beyond a full page exactly when it remained and the page left it out. */
  lemma {:induction false} BeyondPage<T(!new)>(
      less: (T, T) -> bool, items: set<T>, after: Option<T>, limit: nat, page: seq<T>, x: T)
    requires StrictOrder(less, items) && IsPage(less, items, after, limit, page, true) && page != []
    requires (after.Some? ==> after.value in items) && page[|page| - 1] in Remaining(less, items, after)
    ensures x in Remaining(less, items, End(page, after)) <==> x in Remaining(less, items, after) && x !in Members(page)
  {
    var rest, last := Remaining(less, items, after), page[|page| - 1];
    assert last in Members(page);
    if x in rest && x !in Members(page) {
      LeftOutIsAbove(less, rest, limit, last, x);
    } else if x in Members(page) {
      var i :| 0 <= i < |page| && page[i] == x;
      assert i < |page| - 1 ==> less(x, last);
      assert x in rest;
    }
  }

  /** What a page that is not the last leaves for the next one. */
  lemma {:induction false} NextRemaining<T(!new)>(less: (T, T) -> bool, items: set<T>, after: Option<T>, limit: nat, page: seq<T>)
    requires StrictOrder(less, items) && limit > 0 && IsPage(less, items, after, limit, page, true)
    requires after.Some? ==> after.value in items
    ensures page != [] && page[|page| - 1] in items
    ensures Remaining(less, items, End(page, after)) == Remaining(less, items, after) - Members(page)
    ensures |Remaining(less, items, End(page, after))| < |Remaining(less, items, after)|
  {
    PageAdvances(less, items, items, after, limit, page, true);
    var rest, last := Remaining(less, items, after), page[|page| - 1];
    assert last in page;
    forall x ensures x in Remaining(less, items, End(page, after)) <==> x in rest - Members(page) {
      BeyondPage(less, items, after, limit, page, x);
    }
    assert Remaining(less, items, End(page, after)) == rest - Members(page);
    SubsetSize(rest - Members(page), rest);
    assert last in rest && last in Members(page);
  }

  /** The items up to a position, in order. */
  ghost predicate Gathered<T(!new)>(less: (T, T) -> bool, items: set<T>, after: Option<T>, seen: seq<T>) {
    && (after.Some? ==> after.value in items)
    && Ascending(less, seen) && Members(seen) == items - Remaining(less, items, after)
  }

  /** Adding a page to what has been gathered. */
  lemma {:induction false} GatherMore<T(!new)>(
      less: (T, T) -> bool, items: set<T>, after: Option<T>, limit: nat, seen: seq<T>, page: seq<T>, more: bool)
    requires StrictOrder(less, items) && limit > 0
    requires Gathered(less, items, after, seen) && IsPage(less, items, after, limit, page, more)
    ensures more ==> page != [] && Gathered(less, items, End(page, after), seen + page) &&
                     |Remaining(less, items, End(page, after))| < |Remaining(less, items, after)|
    ensures !more ==> Ascending(less, seen + page) && Members(seen + page) == items
  {
    PageAdvances(less, items, items, after, limit, page, more);
    GatherAscends(less, items, after, seen, page);
    assert Members(seen + page) == Members(seen) + Members(page);
    if more {
      NextRemaining(less, items, after, limit, page);
      GatherSet(items, Remaining(less, items, after), Members(page));
    } else {
      GatherSet(items, Remaining(less, items, after), Remaining(less, items, after));
    }
  }

  lemma GatherSet<T>(items: set<T>, rest: set<T>, page: set<T>)
    requires page <= rest <= items
    ensures (items - rest) + page == items - (rest - page)
    ensures page == rest ==> (items - rest) + page == items
  {
  }

  lemma {:induction false} GatherAscends<T(!new)>(less: (T, T) -> bool, items: set<T>, after: Option<T>, seen: seq<T>, page: seq<T>)
    requires StrictOrder(less, items) && Gathered(less, items, after, seen) && Ascending(less, page)
    requires forall x :: x in page ==> x in Remaining(less, items, after)
    ensures Ascending(less, seen + page)
  {
    forall i, j | 0 <= i < j < |seen + page| ensures less((seen + page)[i], (seen + page)[j]) {
      if i < |seen| <= j {
        assert seen[i] in Members(seen) && page[j - |seen|] in page;
        SeenBelow(less, items, after, seen[i], page[j - |seen|]);
      }
    }
  }

  lemma {:induction false} SeenBelow<T(!new)>(less: (T, T) -> bool, items: set<T>, after: Option<T>, x: T, y: T)
    requires StrictOrder(less, items) && (after.Some? ==> after.value in items)
    requires x in items && x !in Remaining(less, items, after) && y in Remaining(less, items, after)
    ensures less(x, y)
  {
  }
}
