/**
 * Listing a recipient's notifications, newest first (notify/memory.go, notify/store.go), and what
 * following the pages returns while notifications are published, read, closed and pruned.
 */
module NotificationLists {
  import opened Basics
  import opened Keyset
  import opened Notifications
  import opened Retention
  import N = NotificationStore
  import R = NotificationRuns

  datatype Position = Position(createdAt: Time, id: Id)

  function PositionOf(n: Notification): Position {
    Position(n.createdAt, n.id)
  }

  /** `newestFirst`: by creation, then by identifier, both descending. */
  predicate Newer(a: Position, b: Position) {
    a.createdAt > b.createdAt || (a.createdAt == b.createdAt && Less(b.id, a.id))
  }

  ghost predicate OnePerId(s: set<Position>) {
    forall a, b :: a in s && b in s && a.id == b.id ==> a == b
  }

  lemma {:induction false} NewerOrders(s: set<Position>)
    requires OnePerId(s)
    ensures StrictOrder(Newer, s)
  {
    forall x, y | x in s && y in s ensures x == y || Newer(x, y) || Newer(y, x) { LessConnected(x.id, y.id); }
    forall x | x in s ensures !Newer(x, x) { LessAsymmetric(x.id, x.id); }
    forall x, y, z | x in s && y in s && z in s && Newer(x, y) && Newer(y, z) ensures Newer(x, z) {
      if x.createdAt == z.createdAt {
        LessTransitive(z.id, y.id, x.id);
      }
    }
  }

  /** What a cursor is bound to: the recipient and the filters, in whatever order they are listed. */
  datatype Filter = Filter(recipient: string, states: multiset<State>, kinds: multiset<string>, subject: string)

  datatype Cursor = Cursor(after: Position, filter: Filter) | Garbled

  datatype ListQuery = ListQuery(
    recipient: string, states: seq<State>, kinds: seq<string>, subject: string, limit: nat, cursor: Option<Cursor>)

  datatype Page = Page(notifications: seq<Notification>, next: Option<Cursor>)

  function FilterOf(q: ListQuery): Filter {
    Filter(q.recipient, multiset(q.states), multiset(q.kinds), q.subject)
  }

  function EffectiveLimit(q: ListQuery): (n: nat)
    ensures n > 0
  {
    if q.limit == 0 then 50 else q.limit
  }

  /** `matches`. */
  predicate Matches(n: Notification, q: ListQuery) {
    && n.recipient == q.recipient
    && (q.states == [] || n.state in q.states)
    && (q.kinds == [] || n.kind in q.kinds)
    && (q.subject == "" || n.subject == q.subject)
  }

  function Matching(ns: map<Id, Notification>, q: ListQuery): set<Position> {
    set id | id in ns && Matches(ns[id], q) :: PositionOf(ns[id])
  }

  predicate Decodes(q: ListQuery, c: Cursor) {
    c.Cursor? && c.after.id != "" && c.filter == FilterOf(q)
  }

  function After(q: ListQuery): Option<Position> {
    if q.cursor.Some? && q.cursor.value.Cursor? then Some(q.cursor.value.after) else None
  }

  function Positions(ns: seq<Notification>): seq<Position> {
    seq(|ns|, i requires 0 <= i < |ns| => PositionOf(ns[i]))
  }

  lemma MatchingAt(ns: map<Id, Notification>, q: ListQuery, p: Position)
    requires Filed(ns) && p in Matching(ns, q)
    ensures p.id in ns && PositionOf(ns[p.id]) == p && Matches(ns[p.id], q)
  {
  }

  lemma {:induction false} PageOf(ns: map<Id, Notification>, q: ListQuery, sorted: seq<Position>)
    requires Filed(ns) && Ascending(Newer, sorted) && Lists(sorted, Remaining(Newer, Matching(ns, q), After(q)))
    ensures var page := if |sorted| > EffectiveLimit(q) then sorted[..EffectiveLimit(q)] else sorted;
            IsPage(Newer, Matching(ns, q), After(q), EffectiveLimit(q), page, |sorted| > EffectiveLimit(q)) &&
            forall p :: p in page ==> p in Matching(ns, q)
  {
    forall a, b | a in Matching(ns, q) && b in Matching(ns, q) && a.id == b.id ensures a == b {
      MatchingAt(ns, q, a);
      MatchingAt(ns, q, b);
    }
    NewerOrders(Matching(ns, q));
    SortedPage(Newer, Matching(ns, q), After(q), EffectiveLimit(q), sorted);
  }

  method SortListed(ns: map<Id, Notification>, q: ListQuery) returns (sorted: seq<Position>)
    requires Filed(ns)
    ensures Ascending(Newer, sorted) && Lists(sorted, Remaining(Newer, Matching(ns, q), After(q)))
  {
    var after := After(q);
    var matched := set p | p in Matching(ns, q) && (after.Some? ==> Newer(after.value, p));
    NewerOrders(matched);
    sorted := SortSet(matched, Newer);
  }

  method NotificationsAt(ns: map<Id, Notification>, ghost q: ListQuery, positions: seq<Position>) returns (out: seq<Notification>)
    requires Filed(ns) && forall p :: p in positions ==> p in Matching(ns, q)
    ensures Positions(out) == positions && |out| == |positions|
    ensures forall n :: n in out ==> n.id in ns && ns[n.id] == n && Matches(n, q)
  {
    out := [];
    for i := 0 to |positions|
      invariant |out| == i && forall k :: 0 <= k < i ==> PositionOf(out[k]) == positions[k]
      invariant forall n :: n in out ==> n.id in ns && ns[n.id] == n && Matches(n, q)
    {
      assert positions[i] in positions;
      MatchingAt(ns, q, positions[i]);
      out := out + [ns[positions[i].id]];
    }
  }

  /** Newest first, and of two created at once the higher identifier. */
  ghost predicate NewestFirst(ns: seq<Notification>) {
    forall i, j :: 0 <= i < j < |ns| ==>
      ns[j].createdAt < ns[i].createdAt || (ns[j].createdAt == ns[i].createdAt && Less(ns[j].id, ns[i].id))
  }

  lemma {:induction false} AnswerNewestFirst(ns: seq<Notification>)
    requires Ascending(Newer, Positions(ns))
    ensures NewestFirst(ns)
  {
    forall i, j | 0 <= i < j < |ns|
      ensures ns[j].createdAt < ns[i].createdAt || (ns[j].createdAt == ns[i].createdAt && Less(ns[j].id, ns[i].id))
    {
      assert Newer(Positions(ns)[i], Positions(ns)[j]);
    }
  }

  /** `List`: a page of the recipient's notifications, newest first; a cursor of another listing is refused. */
  method List(ns: map<Id, Notification>, q: ListQuery) returns (page: Option<Page>)
    requires Filed(ns)
    ensures page.None? <==> q.cursor.Some? && !Decodes(q, q.cursor.value)
    ensures page.Some? ==>
              && IsPage(Newer, Matching(ns, q), After(q), EffectiveLimit(q), Positions(page.value.notifications), page.value.next.Some?)
              && NewestFirst(page.value.notifications)
              && (forall n :: n in page.value.notifications ==> n.id in ns && ns[n.id] == n && Matches(n, q))
              && (page.value.next.Some? ==>
                    page.value.notifications != [] &&
                    page.value.next.value == Cursor(PositionOf(page.value.notifications[|page.value.notifications| - 1]), FilterOf(q)))
  {
    if q.cursor.Some? && !Decodes(q, q.cursor.value) {
      return None;
    }
    var cut, more := CutPage(ns, q);
    var out := NotificationsAt(ns, q, cut);
    AnswerNewestFirst(out);
    return Some(Page(out, if more then Some(Cursor(cut[|cut| - 1], FilterOf(q))) else None));
  }

  /** The sorted remainder cut at the limit, and whether anything is left. */
  method CutPage(ns: map<Id, Notification>, q: ListQuery) returns (cut: seq<Position>, more: bool)
    requires Filed(ns)
    ensures IsPage(Newer, Matching(ns, q), After(q), EffectiveLimit(q), cut, more) && (more ==> cut != [])
    ensures forall p :: p in cut ==> p in Matching(ns, q)
  {
    cut := SortListed(ns, q);
    PageOf(ns, q, cut);
    more := |cut| > EffectiveLimit(q);
    if more {
      cut := cut[..EffectiveLimit(q)];
    }
  }

  // ---------------------------------------------------------------- listing during a run

  ghost function Union(moments: seq<set<Position>>): set<Position> {
    if moments == [] then {} else moments[0] + Union(moments[1..])
  }

  lemma {:induction false} UnionHolds(moments: seq<set<Position>>)
    ensures forall i :: 0 <= i < |moments| ==> moments[i] <= Union(moments)
    ensures forall p :: p in Union(moments) ==> exists i :: 0 <= i < |moments| && p in moments[i]
  {
    if moments != [] {
      UnionHolds(moments[1..]);
      forall i | 0 <= i < |moments| ensures moments[i] <= Union(moments) {
        if i > 0 {
          assert moments[i] == moments[1..][i - 1];
        }
      }
      forall p | p in Union(moments) ensures exists i :: 0 <= i < |moments| && p in moments[i] {
        if p in Union(moments[1..]) {
          var i :| 0 <= i < |moments[1..]| && p in moments[1..][i];
          assert p in moments[i + 1];
        } else {
          assert p in moments[0];
        }
      }
    }
  }

  /** What a listing matches at successive moments of a run. */
  ghost predicate Listed(states: seq<N.Store>, at: seq<nat>, q: ListQuery, moments: seq<set<Position>>) {
    && |moments| == |at| && (forall i :: 0 <= i < |at| ==> at[i] < |states|)
    && (forall i, j :: 0 <= i < j < |at| ==> at[i] <= at[j])
    && (forall i :: 0 <= i < |at| ==> moments[i] == Matching(states[at[i]].notifications, q))
  }

  lemma {:induction false} RunFiled(states: seq<N.Store>, used: seq<set<Id>>, ops: seq<R.Op>, i: nat)
    requires R.IsRun(states, used, ops) && i <= |ops|
    ensures Filed(states[i].notifications)
  {
    R.RunDated(states, used, ops, i);
    assert R.DatedInv(states[i], used[i]);
  }

  /** A notification keeps its place for as long as it exists. */
  lemma {:induction false} SamePlace(
      states: seq<N.Store>, used: seq<set<Id>>, ops: seq<R.Op>, at: seq<nat>, q: ListQuery, moments: seq<set<Position>>,
      i: nat, j: nat, a: Position, b: Position)
    requires R.IsRun(states, used, ops) && Listed(states, at, q, moments) && i <= j < |at|
    requires a in moments[i] && b in moments[j] && a.id == b.id
    ensures a == b
  {
    RunFiled(states, used, ops, at[i]);
    RunFiled(states, used, ops, at[j]);
    MatchingAt(states[at[i]].notifications, q, a);
    MatchingAt(states[at[j]].notifications, q, b);
    R.RunForward(states, used, ops, at[i], at[j], a.id);
  }

  lemma {:induction false} ListedWithin(
      states: seq<N.Store>, used: seq<set<Id>>, ops: seq<R.Op>, at: seq<nat>, q: ListQuery, moments: seq<set<Position>>)
    requires R.IsRun(states, used, ops) && Listed(states, at, q, moments)
    ensures OnePerId(Union(moments)) && Within(Newer, Union(moments), moments, None)
  {
    UnionHolds(moments);
    forall a, b | a in Union(moments) && b in Union(moments) && a.id == b.id ensures a == b {
      var i :| 0 <= i < |moments| && a in moments[i];
      var j :| 0 <= j < |moments| && b in moments[j];
      if i <= j {
        SamePlace(states, used, ops, at, q, moments, i, j, a, b);
      } else {
        SamePlace(states, used, ops, at, q, moments, j, i, b, a);
      }
    }
    NewerOrders(Union(moments));
  }

  /**
   * Pages of one listing taken at successive moments of a run list no notification twice, and list every
   * one that matched whenever a page was taken.
   */
  lemma {:induction false} ListingExact(
      states: seq<N.Store>, used: seq<set<Id>>, ops: seq<R.Op>, at: seq<nat>, q: ListQuery, moments: seq<set<Position>>,
      pages: seq<seq<Position>>, p: Position)
    requires R.IsRun(states, used, ops) && Listed(states, at, q, moments)
    requires Walk(Newer, moments, None, EffectiveLimit(q), pages)
    ensures Ascending(Newer, Concat(pages))
    ensures (forall i :: 0 <= i < |moments| ==> p in moments[i]) ==> p in Concat(pages)
  {
    ListedWithin(states, used, ops, at, q, moments);
    WalkAscends(Newer, Union(moments), moments, None, EffectiveLimit(q), pages);
    if forall i :: 0 <= i < |moments| ==> p in moments[i] {
      WalkComplete(Newer, Union(moments), moments, None, EffectiveLimit(q), pages, p);
    }
  }
}
