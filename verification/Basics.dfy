/** Small values every component uses: optional values, results and Go's string order. */
module Basics {

  /** Instants and durations, as whole microseconds. */
  type Time = int

  datatype Option<+T> = None | Some(value: T)

  datatype Result<+T, +E> = Ok(value: T) | Err(error: E)

  /** Go's `<` on strings: lexicographic. */
  predicate Less(a: string, b: string) {
    if b == "" then false
    else if a == "" then true
    else a[0] < b[0] || (a[0] == b[0] && Less(a[1..], b[1..]))
  }

  lemma LessTransitive(a: string, b: string, c: string)
    requires Less(a, b) && Less(b, c)
    ensures Less(a, c)
  {
    if a != "" && a[0] == b[0] && b[0] == c[0] {
      LessTransitive(a[1..], b[1..], c[1..]);
    }
  }

  lemma LessAsymmetric(a: string, b: string)
    ensures !(Less(a, b) && Less(b, a))
  {
    if a != "" && b != "" {
      LessAsymmetric(a[1..], b[1..]);
    }
  }

  lemma LessConnected(a: string, b: string)
    ensures a == b || Less(a, b) || Less(b, a)
  {
    if a != "" && b != "" && a[0] == b[0] {
      LessConnected(a[1..], b[1..]);
      assert a == [a[0]] + a[1..] && b == [b[0]] + b[1..];
    }
  }

  /** A subset of a finite set has at most as many elements. */
  lemma SubsetSize<T>(a: set<T>, b: set<T>)
    requires a <= b
    ensures |a| <= |b|
    ensures |a| == |b| ==> a == b
  {
    assert b == a + (b - a);
  }

  /** `less` orders the members of `s` strictly and totally. */
  ghost predicate StrictOrder<T(!new)>(less: (T, T) -> bool, s: set<T>) {
    && (forall x :: x in s ==> !less(x, x))
    && (forall x, y :: x in s && y in s ==> x == y || less(x, y) || less(y, x))
    && (forall x, y, z :: x in s && y in s && z in s && less(x, y) && less(y, z) ==> less(x, z))
  }

  ghost predicate Ascending<T(!new)>(less: (T, T) -> bool, xs: seq<T>) {
    forall i, j :: 0 <= i < j < |xs| ==> less(xs[i], xs[j])
  }

  ghost predicate Lists<T(!new)>(xs: seq<T>, s: set<T>) {
    forall x :: x in xs <==> x in s
  }

  /** `slices.SortFunc` over a set: its members in order. */
  method SortSet<T(==, !new)>(s: set<T>, less: (T, T) -> bool) returns (xs: seq<T>)
    requires StrictOrder(less, s)
    ensures Ascending(less, xs) && Lists(xs, s)
  {
    xs := [];
    var rest := s;
    while rest != {}
      invariant rest <= s && Ascending(less, xs) && Lists(xs, s - rest)
    {
      var x :| x in rest;
      rest := rest - {x};
      xs := InsertAscending(xs, x, less, s);
    }
  }

  method InsertAscending<T(==, !new)>(xs: seq<T>, x: T, less: (T, T) -> bool, ghost s: set<T>) returns (ys: seq<T>)
    requires StrictOrder(less, s) && x in s && (forall e :: e in xs ==> e in s) && x !in xs && Ascending(less, xs)
    ensures Ascending(less, ys) && forall e :: e in ys <==> e in xs || e == x
  {
    var i := 0;
    while i < |xs| && less(xs[i], x)
      invariant 0 <= i <= |xs| && forall k :: 0 <= k < i ==> less(xs[k], x)
    {
      i := i + 1;
    }
    ys := xs[..i] + [x] + xs[i..];
    assert forall e :: e in xs <==> e in xs[..i] || e in xs[i..] by { assert xs == xs[..i] + xs[i..]; }
    assert i < |xs| ==> less(x, xs[i]) by { assert i < |xs| ==> xs[i] in xs; }
    forall k | i <= k < |xs| ensures less(x, xs[k]) {
      assert xs[k] in xs && xs[i] in xs;
    }
  }

  /** The members of `s` below `x`. */
  ghost function Below<T(!new)>(less: (T, T) -> bool, s: set<T>, x: T): set<T> {
    set y | y in s && less(y, x)
  }

  ghost function Members<T(!new)>(xs: seq<T>): set<T> {
    set x | x in xs
  }

  lemma AscendingSize<T(!new)>(less: (T, T) -> bool, xs: seq<T>)
    requires Ascending(less, xs) && StrictOrder(less, Members(xs))
    ensures |Members(xs)| == |xs|
  {
    if xs != [] {
      var rest, last := xs[..|xs| - 1], xs[|xs| - 1];
      assert xs == rest + [last];
      assert Members(xs) == Members(rest) + {last};
      forall k | 0 <= k < |rest| ensures rest[k] != last {
        assert less(xs[k], last) && last in Members(xs);
      }
      AscendingSize(less, rest);
    }
  }

  /** The i-th member in order has exactly i members below it. */
  lemma RankOf<T(!new)>(less: (T, T) -> bool, xs: seq<T>, i: nat)
    requires Ascending(less, xs) && StrictOrder(less, Members(xs)) && i < |xs|
    ensures |Below(less, Members(xs), xs[i])| == i
  {
    var low := xs[..i];
    assert Below(less, Members(xs), xs[i]) == Members(low) by {
      forall y ensures y in Below(less, Members(xs), xs[i]) <==> y in low {
        if y in low {
          var k :| 0 <= k < i && xs[k] == y;
        }
        if y in Below(less, Members(xs), xs[i]) {
          var k :| 0 <= k < |xs| && xs[k] == y;
          assert xs[i] in Members(xs);
          assert k < i;
          assert y == low[k];
        }
      }
    }
    assert StrictOrder(less, Members(low)) by { assert Members(low) <= Members(xs); }
    AscendingSize(less, low);
  }

  /** A prefix of the sorted members is the members with fewer than n below them. */
  lemma PrefixIsLowest<T(!new)>(less: (T, T) -> bool, xs: seq<T>, n: nat)
    requires Ascending(less, xs) && StrictOrder(less, Members(xs)) && n <= |xs|
    ensures Members(xs[..n]) == set x | x in Members(xs) && |Below(less, Members(xs), x)| < n
  {
    forall x ensures x in xs[..n] <==> x in Members(xs) && |Below(less, Members(xs), x)| < n {
      if x in xs[..n] {
        var i :| 0 <= i < n && xs[i] == x;
        RankOf(less, xs, i);
      }
      if x in Members(xs) {
        var i :| 0 <= i < |xs| && xs[i] == x;
        RankOf(less, xs, i);
        assert i < n ==> xs[..n][i] == x;
      }
    }
  }

  lemma StringsOrdered(s: set<string>)
    ensures StrictOrder(Less, s)
  {
    forall x ensures !Less(x, x) { LessAsymmetric(x, x); }
    forall x, y ensures x == y || Less(x, y) || Less(y, x) { LessConnected(x, y); }
    forall x, y, z | Less(x, y) && Less(y, z) ensures Less(x, z) { LessTransitive(x, y, z); }
  }

  lemma {:induction false} HasMaximum<T(!new)>(less: (T, T) -> bool, s: set<T>) returns (m: T)
    requires StrictOrder(less, s) && s != {}
    ensures m in s && forall x :: x in s && x != m ==> less(x, m)
    decreases |s|
  {
    m :| m in s;
    if s != {m} {
      var rest := s - {m};
      var n := HasMaximum(less, rest);
      if less(m, n) {
        m := n;
      }
    }
  }

  ghost function Lowest<T(!new)>(less: (T, T) -> bool, s: set<T>, n: int): set<T> {
    set x | x in s && |Below(less, s, x)| < n
  }

  /** Exactly n members have fewer than n below them, or all of them when there are fewer. */
  lemma {:induction false} LowestCount<T(!new)>(less: (T, T) -> bool, s: set<T>, n: nat)
    requires StrictOrder(less, s)
    ensures |Lowest(less, s, n)| == if n < |s| then n else |s|
    decreases |s|
  {
    if s == {} {
      assert Lowest(less, s, n) == {};
    } else {
      var m := HasMaximum(less, s);
      var rest := s - {m};
      assert Below(less, s, m) == rest;
      forall x | x in rest ensures Below(less, s, x) == Below(less, rest, x) {
        assert less(x, m);
      }
      LowestCount(less, rest, n);
      assert Lowest(less, s, n) == Lowest(less, rest, n) + if |rest| < n then {m} else {};
    }
  }

  /** Sorting a set and cutting it at a limit, where zero or less is no limit, leaves its lowest members. */
  lemma CutIsLowest<T(!new)>(less: (T, T) -> bool, xs: seq<T>, s: set<T>, limit: int)
    requires Ascending(less, xs) && Lists(xs, s) && StrictOrder(less, s)
    ensures var cut := if 0 < limit < |xs| then xs[..limit] else xs;
            Members(cut) == (if limit <= 0 then s else Lowest(less, s, limit)) && |cut| == |Members(cut)|
  {
    assert Members(xs) == s;
    AscendingSize(less, xs);
    if 0 < limit {
      LowestCount(less, s, limit);
      if limit < |xs| {
        PrefixIsLowest(less, xs, limit);
      } else {
        SubsetSize(Lowest(less, s, limit), s);
      }
    }
  }

  /** Powers of two. */
  function Pow2(n: nat): nat {
    if n == 0 then 1 else 2 * Pow2(n - 1)
  }

  lemma Pow2Grows(m: nat, n: nat)
    requires m <= n
    ensures 1 <= Pow2(m) <= Pow2(n)
  {
    if m < n { Pow2Grows(m, n - 1); }
    else if n > 0 { Pow2Grows(n - 1, n - 1); }
  }

  /** The members of a list that pass a test, in order. */
  function Sieve<T>(xs: seq<T>, keep: T -> bool): seq<T> {
    if xs == [] then []
    else
      var k := |xs| - 1;
      Sieve(xs[..k], keep) + if keep(xs[k]) then [xs[k]] else []
  }

  lemma {:induction false} SieveOrdered<T(!new)>(less: (T, T) -> bool, xs: seq<T>, keep: T -> bool)
    requires Ascending(less, xs)
    ensures Ascending(less, Sieve(xs, keep))
    ensures forall x :: x in Sieve(xs, keep) <==> x in xs && keep(x)
  {
    if xs != [] {
      var k := |xs| - 1;
      SieveOrdered(less, xs[..k], keep);
      assert xs == xs[..k] + [xs[k]];
      var init := Sieve(xs[..k], keep);
      forall i | 0 <= i < |init| ensures less(init[i], xs[k]) {
        assert init[i] in xs[..k];
        var j :| 0 <= j < k && xs[j] == init[i];
      }
    }
  }

  lemma SieveNext<T>(xs: seq<T>, keep: T -> bool, i: nat)
    requires i < |xs|
    ensures Sieve(xs[..i + 1], keep) == Sieve(xs[..i], keep) + if keep(xs[i]) then [xs[i]] else []
  {
    assert xs[..i + 1][..i] == xs[..i];
  }

  lemma {:induction false} SievePrefix<T>(xs: seq<T>, keep: T -> bool, i: nat)
    requires i <= |xs|
    ensures |Sieve(xs[..i], keep)| <= |Sieve(xs, keep)|
    ensures Sieve(xs, keep)[..|Sieve(xs[..i], keep)|] == Sieve(xs[..i], keep)
    decreases |xs| - i
  {
    if i == |xs| {
      assert xs[..i] == xs;
    } else {
      SieveNext(xs, keep, i);
      SievePrefix(xs, keep, i + 1);
    }
  }

  /** Sieving a sorted set until a limit is reached leaves the lowest members that pass. */
  lemma SieveIsLowest<T(!new)>(less: (T, T) -> bool, xs: seq<T>, kept: set<T>, keep: T -> bool, i: nat, limit: nat)
    requires Ascending(less, xs) && StrictOrder(less, kept) && i <= |xs| && limit > 0
    requires forall x :: x in kept <==> x in xs && keep(x)
    requires |Sieve(xs[..i], keep)| <= limit && (i == |xs| || |Sieve(xs[..i], keep)| == limit)
    ensures Members(Sieve(xs[..i], keep)) == Lowest(less, kept, limit)
  {
    var all := Sieve(xs, keep);
    SieveOrdered(less, xs, keep);
    SievePrefix(xs, keep, i);
    CutIsLowest(less, all, kept, limit);
    assert xs[..|xs|] == xs;
    assert all[..|all|] == all;
  }
}
