/**
 * The in-memory task store and its staged transactions (memstore/memstore.go, memstore/outbox.go), and
 * the service pipeline that runs inside one (service.go): a scope sees its own writes, a commit makes
 * exactly what the scope saw the committed state, and every request does to it what `TaskDb` says.
 */
module TaskStore {
  import opened Basics
  import opened Lifecycle
  import opened TaskDb
  import opened TaskAgreement
  import O = Outbox

  // ---------------------------------------------------------------- values

  function Of(h: map<TaskId, seq<TransitionRecord>>, id: TaskId): seq<TransitionRecord> {
    if id in h then h[id] else []
  }

  function Joined(a: map<TaskId, seq<TransitionRecord>>, b: map<TaskId, seq<TransitionRecord>>): map<TaskId, seq<TransitionRecord>> {
    map id | id in a.Keys + b.Keys :: Of(a, id) + Of(b, id)
  }

  lemma {:induction false} JoinedNothing(a: map<TaskId, seq<TransitionRecord>>)
    ensures Joined(a, map[]) == a
  {
    forall id | id in a ensures Joined(a, map[])[id] == a[id] {
      assert a[id] + [] == a[id];
    }
  }

  lemma {:induction false} JoinedMore(a: map<TaskId, seq<TransitionRecord>>, b: map<TaskId, seq<TransitionRecord>>, id: TaskId, r: TransitionRecord)
    ensures Joined(a, b[id := Of(b, id) + [r]]) == Joined(a, b)[id := Of(Joined(a, b), id) + [r]]
  {
    assert Of(a, id) + (Of(b, id) + [r]) == Of(a, id) + Of(b, id) + [r];
    assert Of(Joined(a, b), id) == Of(a, id) + Of(b, id);
  }

  /** Rows with some of their edits applied. */
  function Edited(rows: seq<O.OutboxRow>, edits: map<O.EventId, O.OutboxRow>, done: set<O.EventId>): seq<O.OutboxRow> {
    seq(|rows|, i requires 0 <= i < |rows| =>
      if rows[i].event.id in done && rows[i].event.id in edits then edits[rows[i].event.id] else rows[i])
  }

  ghost predicate DistinctIds(rows: seq<O.OutboxRow>) {
    forall i, j :: 0 <= i < j < |rows| ==> rows[i].event.id != rows[j].event.id
  }

  /** Edits are of committed rows, and keep their events. */
  ghost predicate Edits(rows: seq<O.OutboxRow>, edits: map<O.EventId, O.OutboxRow>) {
    forall i :: 0 <= i < |rows| && rows[i].event.id in edits ==> edits[rows[i].event.id].event == rows[i].event
  }

  /** Committed histories with some tasks' staged records appended. */
  function JoinedSome(a: map<TaskId, seq<TransitionRecord>>, b: map<TaskId, seq<TransitionRecord>>, done: set<TaskId>)
    : map<TaskId, seq<TransitionRecord>>
  {
    map id | id in a.Keys + done :: if id in done then Of(a, id) + Of(b, id) else a[id]
  }

  lemma {:induction false} JoinedSomeNone(a: map<TaskId, seq<TransitionRecord>>, b: map<TaskId, seq<TransitionRecord>>)
    ensures JoinedSome(a, b, {}) == a && JoinedSome(a, b, b.Keys) == Joined(a, b)
  {
    forall id | id in a && id !in b ensures Joined(a, b)[id] == a[id] {
      assert a[id] + [] == a[id];
    }
  }

  lemma {:induction false} JoinedSomeMore(a: map<TaskId, seq<TransitionRecord>>, b: map<TaskId, seq<TransitionRecord>>, done: set<TaskId>, id: TaskId)
    requires id in b && id !in done
    ensures JoinedSome(a, b, done + {id}) == JoinedSome(a, b, done)[id := Of(JoinedSome(a, b, done), id) + b[id]]
    ensures b.Keys - done - {id} == b.Keys - (done + {id})
  {
  }

  lemma {:induction false} EditedNothing(rows: seq<O.OutboxRow>, edits: map<O.EventId, O.OutboxRow>)
    ensures Edited(rows, edits, {}) == rows
  {
  }

  /** Editing keeps every row's identifier. */
  lemma {:induction false} EditedIds(all: seq<O.OutboxRow>, edits: map<O.EventId, O.OutboxRow>, done: set<O.EventId>,
                  committed: seq<O.OutboxRow>, appended: seq<O.OutboxRow>)
    requires all == committed + appended && Edits(committed, edits)
    requires forall i :: 0 <= i < |appended| ==> appended[i].event.id !in edits
    ensures forall i :: 0 <= i < |all| ==> Edited(all, edits, done)[i].event.id == all[i].event.id
  {
  }

  /** The first row of an identifier, replaced; a row that is not there is not. */
  method ReplaceFirst(rows: seq<O.OutboxRow>, id: O.EventId, edited: O.OutboxRow) returns (out: seq<O.OutboxRow>)
    requires DistinctIds(rows)
    ensures |out| == |rows| && forall i :: 0 <= i < |rows| ==> out[i] == if rows[i].event.id == id then edited else rows[i]
  {
    for i := 0 to |rows|
      invariant forall k :: 0 <= k < i ==> rows[k].event.id != id
    {
      if rows[i].event.id == id {
        return rows[i := edited];
      }
    }
    return rows;
  }

  lemma {:induction false} EditedMore(all: seq<O.OutboxRow>, edits: map<O.EventId, O.OutboxRow>, done: set<O.EventId>, id: O.EventId,
                   committed: seq<O.OutboxRow>, appended: seq<O.OutboxRow>)
    requires id in edits && id !in done && all == committed + appended && Edits(committed, edits)
    requires forall i :: 0 <= i < |appended| ==> appended[i].event.id !in edits
    ensures forall i :: 0 <= i < |all| ==>
              Edited(all, edits, done + {id})[i] ==
              if Edited(all, edits, done)[i].event.id == id then edits[id] else Edited(all, edits, done)[i]
    ensures edits.Keys - done - {id} == edits.Keys - (done + {id})
  {
    EditedIds(all, edits, done, committed, appended);
  }

  lemma {:induction false} EditedSplit(committed: seq<O.OutboxRow>, appended: seq<O.OutboxRow>, edits: map<O.EventId, O.OutboxRow>)
    requires forall i :: 0 <= i < |appended| ==> appended[i].event.id !in edits
    ensures Edited(committed + appended, edits, edits.Keys) == Edited(committed, edits, edits.Keys) + appended
  {
  }

  // ---------------------------------------------------------------- leases

  function LockedSome(tasks: map<TaskId, Task>, lease: LeaseRequest, done: set<TaskId>): map<TaskId, Task> {
    map id | id in tasks :: if id in done then Locked(tasks[id], lease) else tasks[id]
  }

  /** The leased copies of some tasks. */
  ghost predicate Copies(tasks: map<TaskId, Task>, lease: LeaseRequest, taken: seq<TaskId>, claimed: seq<Task>) {
    |claimed| == |taken| && forall i :: 0 <= i < |taken| ==> taken[i] in tasks && claimed[i] == Locked(tasks[taken[i]], lease)
  }

  lemma {:induction false} LockedNone(tasks: map<TaskId, Task>, lease: LeaseRequest, taken: seq<TaskId>)
    requires taken == []
    ensures LockedSome(tasks, lease, Members(taken)) == tasks && Copies(tasks, lease, taken, [])
  {
    assert Members(taken) == {};
  }

  lemma {:induction false} LockedMore(
      tasks: map<TaskId, Task>, lease: LeaseRequest, taken: seq<TaskId>, id: TaskId, staged: map<TaskId, Task>, claimed: seq<Task>)
    requires id in tasks && Copies(tasks, lease, taken, claimed)
    requires tasks + staged == LockedSome(tasks, lease, Members(taken))
    ensures tasks + staged[id := Locked(tasks[id], lease)] == LockedSome(tasks, lease, Members(taken + [id]))
    ensures Copies(tasks, lease, taken + [id], claimed + [Locked(tasks[id], lease)])
  {
    assert Members(taken + [id]) == Members(taken) + {id};
    assert tasks + staged[id := Locked(tasks[id], lease)] == (tasks + staged)[id := Locked(tasks[id], lease)];
  }

  /** The loop of `ClaimOverdue` over a snapshot: what it stages, and the copies it hands out. */
  method LeaseSnapshot(snapshot: map<TaskId, Task>, lease: LeaseRequest)
    returns (staged: map<TaskId, Task>, claimed: seq<Task>, ghost taken: seq<TaskId>)
    ensures snapshot + staged == LockedSome(snapshot, lease, LeasedIds(snapshot, lease))
    ensures Ascending(Less, taken) && Members(taken) == LeasedIds(snapshot, lease) && Copies(snapshot, lease, taken, claimed)
  {
    var ids := SortKeys(snapshot);
    staged, claimed, taken := map[], [], [];
    var i := 0;
    LockedNone(snapshot, lease, taken);
    while i < |ids| && |claimed| < Limit(lease)
      invariant 0 <= i <= |ids| && taken == Sieve(ids[..i], Wanted(snapshot, lease)) && |taken| <= Limit(lease)
      invariant snapshot + staged == LockedSome(snapshot, lease, Members(taken)) && Copies(snapshot, lease, taken, claimed)
    {
      SieveNext(ids, Wanted(snapshot, lease), i);
      assert ids[i] in snapshot.Keys;
      var task := snapshot[ids[i]];
      if Leasable(task, lease) {
        LockedMore(snapshot, lease, taken, ids[i], staged, claimed);
        var leased := Locked(task, lease);
        staged := staged[ids[i] := leased];
        claimed, taken := claimed + [leased], taken + [ids[i]];
      }
      i := i + 1;
    }
    LockedAll(snapshot, lease, ids, i, taken);
  }

  method SortKeys(tasks: map<TaskId, Task>) returns (ids: seq<TaskId>)
    ensures Ascending(Less, ids) && Lists(ids, tasks.Keys)
  {
    StringsOrdered(tasks.Keys);
    ids := SortSet(tasks.Keys, Less);
  }

  function Wanted(tasks: map<TaskId, Task>, lease: LeaseRequest): TaskId -> bool {
    id => id in tasks && Leasable(tasks[id], lease)
  }

  lemma {:induction false} LockedAll(tasks: map<TaskId, Task>, lease: LeaseRequest, ids: seq<TaskId>, i: nat, taken: seq<TaskId>)
    requires Ascending(Less, ids) && Lists(ids, tasks.Keys) && i <= |ids|
    requires taken == Sieve(ids[..i], Wanted(tasks, lease)) && |taken| <= Limit(lease) && (i == |ids| || |taken| == Limit(lease))
    ensures Members(taken) == LeasedIds(tasks, lease) && Ascending(Less, taken)
  {
    StringsOrdered(Overdue(tasks, lease));
    SieveIsLowest(Less, ids, Overdue(tasks, lease), Wanted(tasks, lease), i, Limit(lease));
    SieveOrdered(Less, ids[..i], Wanted(tasks, lease));
  }

  // ---------------------------------------------------------------- claims and settlements

  /** Oldest first: by when the event occurred, then by identifier. */
  predicate Earlier(a: O.OutboxRow, b: O.OutboxRow) {
    a.event.occurredAt < b.event.occurredAt || (a.event.occurredAt == b.event.occurredAt && Less(a.event.id, b.event.id))
  }

  function ClaimLimit(claim: O.OutboxClaim): nat {
    if claim.limit <= 0 then 50 else claim.limit
  }

  ghost function DueRows(rows: seq<O.OutboxRow>, now: Time): set<O.OutboxRow> {
    set r | r in rows && O.Due(r, now)
  }

  /** The oldest due rows, up to the limit. */
  ghost function TakenRows(rows: seq<O.OutboxRow>, claim: O.OutboxClaim): set<O.OutboxRow> {
    Lowest(Earlier, DueRows(rows, claim.now), ClaimLimit(claim))
  }

  ghost function AfterClaim(rows: seq<O.OutboxRow>, claim: O.OutboxClaim): seq<O.OutboxRow> {
    seq(|rows|, i requires 0 <= i < |rows| => if rows[i] in TakenRows(rows, claim) then O.Leased(rows[i], claim) else rows[i])
  }

  predicate HasRow(rows: seq<O.OutboxRow>, id: O.EventId) {
    exists i :: 0 <= i < |rows| && rows[i].event.id == id
  }

  function SettledRows(rows: seq<O.OutboxRow>, id: O.EventId, s: O.Settlement): seq<O.OutboxRow> {
    seq(|rows|, i requires 0 <= i < |rows| => if rows[i].event.id == id then O.Settle(rows[i], s) else rows[i])
  }

  lemma {:induction false} EarlierOrders(rows: seq<O.OutboxRow>, s: set<O.OutboxRow>)
    requires DistinctIds(rows) && forall r :: r in s ==> r in rows
    ensures StrictOrder(Earlier, s)
  {
    forall x, y | x in s && y in s ensures x == y || Earlier(x, y) || Earlier(y, x) {
      LessConnected(x.event.id, y.event.id);
      var i :| 0 <= i < |rows| && rows[i] == x;
      var j :| 0 <= j < |rows| && rows[j] == y;
    }
    forall x | x in s ensures !Earlier(x, x) {
      LessAsymmetric(x.event.id, x.event.id);
    }
    forall x, y, z | x in s && y in s && z in s && Earlier(x, y) && Earlier(y, z) ensures Earlier(x, z) {
      if x.event.occurredAt == z.event.occurredAt {
        LessTransitive(x.event.id, y.event.id, z.event.id);
      }
    }
  }

  lemma {:induction false} SnapshotDistinct(rows: seq<O.OutboxRow>, edits: map<O.EventId, O.OutboxRow>)
    requires DistinctIds(rows) && Edits(rows, edits)
    ensures DistinctIds(Edited(rows, edits, edits.Keys))
    ensures forall i :: 0 <= i < |rows| ==> Edited(rows, edits, edits.Keys)[i].event == rows[i].event
  {
  }

  function IsDue(now: Time): O.OutboxRow -> bool {
    r => O.Due(r, now)
  }

  method SortRows(rows: seq<O.OutboxRow>) returns (sorted: seq<O.OutboxRow>)
    requires DistinctIds(rows)
    ensures Ascending(Earlier, sorted) && forall r :: r in sorted <==> r in rows
  {
    var all := set r | r in rows;
    EarlierOrders(rows, all);
    sorted := SortSet(all, Earlier);
  }

  /** The leases of some rows, under their events' identifiers. */
  ghost predicate LeaseEdits(taken: seq<O.OutboxRow>, claim: O.OutboxClaim, edits: map<O.EventId, O.OutboxRow>, claimed: seq<O.OutboxRow>) {
    && |claimed| == |taken| && (forall i :: 0 <= i < |taken| ==> claimed[i] == O.Leased(taken[i], claim))
    && (forall r :: r in taken ==> r.event.id in edits && edits[r.event.id] == O.Leased(r, claim))
    && (forall id :: id in edits ==> exists r :: r in taken && r.event.id == id)
  }

  /** The loop of `ClaimDueEvents` over a snapshot. */
  method ClaimSnapshot(rows: seq<O.OutboxRow>, claim: O.OutboxClaim)
    returns (edits: map<O.EventId, O.OutboxRow>, claimed: seq<O.OutboxRow>, ghost taken: seq<O.OutboxRow>)
    requires DistinctIds(rows)
    ensures Ascending(Earlier, taken) && Members(taken) == TakenRows(rows, claim) && LeaseEdits(taken, claim, edits, claimed)
  {
    var sorted := SortRows(rows);
    edits, claimed, taken := map[], [], [];
    var i := 0;
    while i < |sorted| && |claimed| < ClaimLimit(claim)
      invariant 0 <= i <= |sorted| && taken == Sieve(sorted[..i], IsDue(claim.now)) && |taken| <= ClaimLimit(claim)
      invariant LeaseEdits(taken, claim, edits, claimed)
    {
      SieveNext(sorted, IsDue(claim.now), i);
      var row := sorted[i];
      if O.Due(row, claim.now) {
        SieveOrdered(Earlier, sorted[..i], IsDue(claim.now));
        LeaseMore(rows, sorted, i, taken, claim, edits, claimed);
        var leased := O.Leased(row, claim);
        edits := edits[row.event.id := leased];
        claimed, taken := claimed + [leased], taken + [row];
      }
      i := i + 1;
    }
    TakenAll(rows, sorted, i, claim, taken);
  }

  lemma {:induction false} LeaseMore(
      rows: seq<O.OutboxRow>, sorted: seq<O.OutboxRow>, i: nat, taken: seq<O.OutboxRow>, claim: O.OutboxClaim,
      edits: map<O.EventId, O.OutboxRow>, claimed: seq<O.OutboxRow>)
    requires DistinctIds(rows) && i < |sorted| && Ascending(Earlier, sorted) && (forall r :: r in sorted ==> r in rows)
    requires LeaseEdits(taken, claim, edits, claimed) && forall r :: r in taken ==> r in sorted[..i]
    ensures var row := sorted[i];
            LeaseEdits(taken + [row], claim, edits[row.event.id := O.Leased(row, claim)], claimed + [O.Leased(row, claim)])
  {
    var row := sorted[i];
    forall r | r in taken ensures r.event.id != row.event.id {
      var k :| 0 <= k < i && sorted[k] == r;
      assert Earlier(sorted[k], sorted[i]);
      LessAsymmetric(row.event.id, row.event.id);
      assert r in sorted && row in sorted;
      var a :| 0 <= a < |rows| && rows[a] == r;
      var b :| 0 <= b < |rows| && rows[b] == row;
      assert a != b;
    }
  }

  lemma {:induction false} TakenAll(rows: seq<O.OutboxRow>, sorted: seq<O.OutboxRow>, i: nat, claim: O.OutboxClaim, taken: seq<O.OutboxRow>)
    requires DistinctIds(rows) && Ascending(Earlier, sorted) && (forall r :: r in sorted <==> r in rows) && i <= |sorted|
    requires taken == Sieve(sorted[..i], IsDue(claim.now)) && |taken| <= ClaimLimit(claim) && (i == |sorted| || |taken| == ClaimLimit(claim))
    ensures Members(taken) == TakenRows(rows, claim) && Ascending(Earlier, taken)
  {
    EarlierOrders(rows, DueRows(rows, claim.now));
    SieveIsLowest(Earlier, sorted, DueRows(rows, claim.now), IsDue(claim.now), i, ClaimLimit(claim));
    SieveOrdered(Earlier, sorted[..i], IsDue(claim.now));
  }

  /** Event identifiers are never reused, and edits are of committed rows. */
  ghost predicate Staged(rows: seq<O.OutboxRow>, edits: map<O.EventId, O.OutboxRow>, appended: seq<O.OutboxRow>) {
    && DistinctIds(rows + appended) && Edits(rows, edits)
    && forall i :: 0 <= i < |appended| ==> appended[i].event.id !in edits
  }

  /** The outbox as a scope sees it. */
  function Seen(rows: seq<O.OutboxRow>, edits: map<O.EventId, O.OutboxRow>, appended: seq<O.OutboxRow>): seq<O.OutboxRow> {
    Edited(rows, edits, edits.Keys) + appended
  }

  lemma {:induction false} SeenEvents(rows: seq<O.OutboxRow>, edits: map<O.EventId, O.OutboxRow>, appended: seq<O.OutboxRow>)
    requires Staged(rows, edits, appended)
    ensures |Seen(rows, edits, appended)| == |rows + appended|
    ensures forall i :: 0 <= i < |rows + appended| ==> Seen(rows, edits, appended)[i].event == (rows + appended)[i].event
    ensures DistinctIds(Seen(rows, edits, appended)) && DistinctIds(rows)
  {
    var seen := Seen(rows, edits, appended);
    forall i | 0 <= i < |rows + appended| ensures seen[i].event == (rows + appended)[i].event {
    }
    forall i, j | 0 <= i < j < |rows| ensures rows[i].event.id != rows[j].event.id {
      assert (rows + appended)[i] == rows[i] && (rows + appended)[j] == rows[j];
    }
  }

  lemma {:induction false} ClaimStaged(
      rows: seq<O.OutboxRow>, edits: map<O.EventId, O.OutboxRow>, more: map<O.EventId, O.OutboxRow>, claim: O.OutboxClaim,
      taken: seq<O.OutboxRow>, claimed: seq<O.OutboxRow>)
    requires DistinctIds(rows) && Edits(rows, edits) && LeaseEdits(taken, claim, more, claimed)
    requires Members(taken) == TakenRows(Edited(rows, edits, edits.Keys), claim)
    ensures Edits(rows, edits + more)
    ensures Edited(rows, edits + more, (edits + more).Keys) == AfterClaim(Edited(rows, edits, edits.Keys), claim)
  {
    var seen := Edited(rows, edits, edits.Keys);
    SnapshotDistinct(rows, edits);
    forall i | 0 <= i < |rows|
      ensures seen[i] in Members(taken) ==> rows[i].event.id in more && more[rows[i].event.id] == O.Leased(seen[i], claim)
      ensures seen[i] !in Members(taken) ==> rows[i].event.id !in more
    {
      if seen[i] !in Members(taken) && rows[i].event.id in more {
        var r :| r in taken && r.event.id == rows[i].event.id;
        assert r in TakenRows(seen, claim) && r in seen;
        var k :| 0 <= k < |seen| && seen[k] == r;
      }
    }
  }

  lemma {:induction false} SettleAppended(
      rows: seq<O.OutboxRow>, edits: map<O.EventId, O.OutboxRow>, appended: seq<O.OutboxRow>, i: nat, s: O.Settlement)
    requires Staged(rows, edits, appended) && i < |appended|
    ensures var id, after := appended[i].event.id, appended[i := O.Settle(appended[i], s)];
            Staged(rows, edits, after) && HasRow(Seen(rows, edits, appended), id) &&
            Seen(rows, edits, after) == SettledRows(Seen(rows, edits, appended), id, s)
  {
    var seen, id := Seen(rows, edits, appended), appended[i].event.id;
    var after := appended[i := O.Settle(appended[i], s)];
    SeenEvents(rows, edits, appended);
    assert seen[|rows| + i] == appended[i];
    assert (rows + appended)[|rows| + i] == appended[i];
    forall k | 0 <= k < |rows + after| ensures (rows + after)[k].event.id == (rows + appended)[k].event.id {
    }
    forall k | 0 <= k < |seen| ensures Seen(rows, edits, after)[k] == SettledRows(seen, id, s)[k] {
    }
  }

  lemma {:induction false} SettleCommitted(
      rows: seq<O.OutboxRow>, edits: map<O.EventId, O.OutboxRow>, appended: seq<O.OutboxRow>, i: nat, s: O.Settlement)
    requires Staged(rows, edits, appended) && i < |rows|
    ensures var id := rows[i].event.id;
            var after := edits[id := O.Settle(if id in edits then edits[id] else rows[i], s)];
            Staged(rows, after, appended) && HasRow(Seen(rows, edits, appended), id) &&
            Seen(rows, after, appended) == SettledRows(Seen(rows, edits, appended), id, s)
  {
    var seen, id := Seen(rows, edits, appended), rows[i].event.id;
    var after := edits[id := O.Settle(if id in edits then edits[id] else rows[i], s)];
    SeenEvents(rows, edits, appended);
    assert (rows + appended)[i] == rows[i];
    assert seen[i].event.id == id;
    forall k | 0 <= k < |appended| ensures appended[k].event.id != id {
      assert (rows + appended)[|rows| + k] == appended[k];
    }
    forall k | 0 <= k < |seen| ensures Seen(rows, after, appended)[k] == SettledRows(seen, id, s)[k] {
      assert (rows + appended)[k].event.id == id ==> k == i;
    }
  }

  lemma {:induction false} SettleMissing(
      rows: seq<O.OutboxRow>, edits: map<O.EventId, O.OutboxRow>, appended: seq<O.OutboxRow>, id: O.EventId, s: O.Settlement)
    requires Staged(rows, edits, appended) && !HasRow(rows, id) && !HasRow(appended, id)
    ensures !HasRow(Seen(rows, edits, appended), id) && SettledRows(Seen(rows, edits, appended), id, s) == Seen(rows, edits, appended)
  {
    var seen := Seen(rows, edits, appended);
    SeenEvents(rows, edits, appended);
    forall k | 0 <= k < |seen| ensures seen[k].event.id != id {
      assert (rows + appended)[k].event.id == seen[k].event.id;
    }
  }

  class Store {
    var tasks: map<TaskId, Task>
    var history: map<TaskId, seq<TransitionRecord>>
    var outbox: seq<O.OutboxRow>

    constructor ()
      ensures Abs() == EMPTY
    {
      tasks, history, outbox := map[], map[], [];
    }

    ghost function Abs(): Db reads this {
      Db(tasks, history, outbox)
    }
  }

  /** One transaction's staged writes. */
  class Tx {
    const store: Store
    var tasks: map<TaskId, Task>
    var history: map<TaskId, seq<TransitionRecord>>
    var outbox: seq<O.OutboxRow>
    var edits: map<O.EventId, O.OutboxRow>

    constructor (store: Store)
      ensures this.store == store && tasks == map[] && history == map[] && outbox == [] && edits == map[]
      ensures View() == store.Abs()
    {
      this.store := store;
      tasks, history, outbox, edits := map[], map[], [], map[];
      new;
      JoinedNothing(store.history);
      assert store.tasks + tasks == store.tasks;
    }

    /** The state as this scope sees it: committed, with its own writes over it. */
    ghost function View(): Db reads this, store {
      Db(store.tasks + tasks, Joined(store.history, history), Edited(store.outbox, edits, edits.Keys) + outbox)
    }

    method Get(id: TaskId) returns (task: Option<Task>)
      ensures task == TaskOf(View(), id)
    {
      if id in tasks {
        return Some(tasks[id]);
      }
      if id in store.tasks {
        return Some(store.tasks[id]);
      }
      return None;
    }

    method Create(task: Task) returns (conflict: bool)
      modifies this`tasks
      ensures conflict == (task.id in old(View()).tasks)
      ensures View() == if conflict then old(View()) else old(View()).(tasks := old(View()).tasks[task.id := task])
    {
      var current := Get(task.id);
      if current.Some? {
        return true;
      }
      tasks := tasks[task.id := task];
      return false;
    }

    /** A conditional write: a stale one changes nothing and reports the current version. */
    method Update(task: Task, expected: int) returns (refusal: Option<Refusal>)
      modifies this`tasks
      ensures refusal.None? <==> task.id in old(View()).tasks && old(View()).tasks[task.id].version == expected
      ensures refusal.Some? && task.id in old(View()).tasks ==> refusal.value == Conflict(expected, old(View()).tasks[task.id].version)
      ensures View() == if refusal.Some? then old(View()) else old(View()).(tasks := old(View()).tasks[task.id := task])
    {
      var current := Get(task.id);
      if current.None? {
        return Some(NotFound);
      }
      if current.value.version != expected {
        return Some(Conflict(expected, current.value.version));
      }
      tasks := tasks[task.id := task];
      return None;
    }

    method AppendHistory(record: TransitionRecord)
      modifies this`history
      ensures View() == old(View()).(history := old(View()).history[record.taskId := HistoryOf(old(View()), record.taskId) + [record]])
    {
      JoinedMore(store.history, history, record.taskId, record);
      history := history[record.taskId := Of(history, record.taskId) + [record]];
    }

    method Append(event: Event)
      modifies this`outbox
      ensures View() == old(View()).(outbox := old(View()).outbox + [O.Appended(event)])
      ensures outbox == old(outbox) + [O.Appended(event)]
    {
      outbox := outbox + [O.Appended(event)];
    }

    /** Event identifiers are never reused, and edits are of committed rows. */
    ghost predicate Valid() reads this, store {
      Staged(store.outbox, edits, outbox)
    }

    /** Histories first: each task's staged records after its committed ones. */
    method CommitHistory()
      modifies store`history
      ensures store.history == Joined(old(store.history), history)
    {
      ghost var was, done := store.history, {};
      var ids := history.Keys;
      JoinedSomeNone(was, history);
      while ids != {}
        invariant done <= history.Keys && ids == history.Keys - done
        invariant store.history == JoinedSome(was, history, done)
      {
        var id :| id in ids;
        JoinedSomeMore(was, history, done, id);
        store.history := store.history[id := Of(store.history, id) + history[id]];
        ids, done := ids - {id}, done + {id};
      }
      assert done == history.Keys;
    }

    /** Then the outbox: appended rows, and each edit on the first row of its identifier. */
    method CommitOutbox()
      requires Valid()
      modifies store`outbox
      ensures store.outbox == Edited(old(store.outbox), edits, edits.Keys) + outbox
    {
      ghost var all, done := store.outbox + outbox, {};
      ghost var committed := store.outbox;
      store.outbox := store.outbox + outbox;
      EditedNothing(all, edits);
      var ids := edits.Keys;
      while ids != {}
        invariant done <= edits.Keys && ids == edits.Keys - done
        invariant store.outbox == Edited(all, edits, done)
      {
        var id :| id in ids;
        EditedIds(all, edits, done, committed, outbox);
        store.outbox := ReplaceFirst(store.outbox, id, edits[id]);
        EditedMore(all, edits, done, id, committed, outbox);
        ids, done := ids - {id}, done + {id};
      }
      assert done == edits.Keys;
      EditedSplit(committed, outbox, edits);
    }

    /** `commit`: the committed state becomes exactly what the scope saw. */
    method Commit()
      requires Valid()
      modifies store
      ensures store.Abs() == old(View())
    {
      store.tasks := store.tasks + tasks;
      CommitHistory();
      CommitOutbox();
    }

    /** `ClaimOverdue`: leases the overdue tasks of lowest identifier, up to the limit, in that order. */
    method ClaimOverdue(lease: LeaseRequest) returns (claimed: seq<Task>, ghost taken: seq<TaskId>)
      modifies this`tasks
      ensures View() == LeaseOverdue(old(View()), lease)
      ensures Ascending(Less, taken) && Members(taken) == LeasedIds(old(View()).tasks, lease)
      ensures |claimed| == |taken| && forall i :: 0 <= i < |claimed| ==> taken[i] in View().tasks && claimed[i] == View().tasks[taken[i]]
    {
      var staged;
      staged, claimed, taken := LeaseSnapshot(store.tasks + tasks, lease);
      assert store.tasks + (tasks + staged) == store.tasks + tasks + staged;
      tasks := tasks + staged;
    }

    /**
     * `ClaimDueEvents` in a transaction of its own: leases the oldest due events, up to the limit, and
     * returns them oldest first.
     */
    method ClaimDueEvents(claim: O.OutboxClaim) returns (claimed: seq<O.OutboxRow>, ghost taken: seq<O.OutboxRow>)
      requires Valid() && outbox == []
      modifies this`edits
      ensures Valid() && View() == old(View()).(outbox := AfterClaim(old(View()).outbox, claim))
      ensures Ascending(Earlier, taken) && Members(taken) == TakenRows(old(View()).outbox, claim)
      ensures |claimed| == |taken| && forall i :: 0 <= i < |taken| ==> claimed[i] == O.Leased(taken[i], claim)
    {
      var rows := Edited(store.outbox, edits, edits.Keys);
      assert rows + outbox == rows && store.outbox + outbox == store.outbox;
      SnapshotDistinct(store.outbox, edits);
      var more;
      more, claimed, taken := ClaimSnapshot(rows, claim);
      ClaimStaged(store.outbox, edits, more, claim, taken, claimed);
      edits := edits + more;
      assert View().outbox == Edited(store.outbox, edits, edits.Keys);
    }

    /** `editOutbox`: settles the row of an event, wherever it is staged; an unknown event is not found. */
    method EditOutbox(id: O.EventId, s: O.Settlement) returns (found: bool)
      requires Valid()
      modifies this`edits, this`outbox
      ensures Valid() && found == HasRow(old(View()).outbox, id)
      ensures View() == old(View()).(outbox := SettledRows(old(View()).outbox, id, s))
    {
      for i := 0 to |outbox|
        invariant forall k :: 0 <= k < i ==> outbox[k].event.id != id
      {
        if outbox[i].event.id == id {
          SettleAppended(store.outbox, edits, outbox, i, s);
          outbox := outbox[i := O.Settle(outbox[i], s)];
          return true;
        }
      }
      for i := 0 to |store.outbox|
        invariant forall k :: 0 <= k < i ==> store.outbox[k].event.id != id
      {
        if store.outbox[i].event.id == id {
          var row := if id in edits then edits[id] else store.outbox[i];
          SettleCommitted(store.outbox, edits, outbox, i, s);
          edits := edits[id := O.Settle(row, s)];
          return true;
        }
      }
      SettleMissing(store.outbox, edits, outbox, id, s);
      return false;
    }
  }
}
