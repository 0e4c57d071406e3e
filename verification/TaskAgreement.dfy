/**
 * Tasks, history and outbox agree in every committed state, and stored tasks keep their invariant over
 * every run of requests, sweep leases and relay writes.
 */
module TaskAgreement {
  import opened Basics
  import opened Lifecycle
  import opened Eligibility
  import opened TaskDb
  import opened TaskInvariants
  import O = Outbox

  /** A committed state, with the number of progress saves that left no record. */
  datatype World = World(db: Db, silent: map<TaskId, nat>)

  function SilentOf(w: World, id: TaskId): nat {
    if id in w.silent then w.silent[id] else 0
  }

  /** The transitions a task's outbox events carry, in order. */
  function EventsOf(outbox: seq<O.OutboxRow>, id: TaskId): seq<TransitionRecord> {
    if outbox == [] then []
    else
      var last := outbox[|outbox| - 1];
      EventsOf(outbox[..|outbox| - 1], id) + if last.event.taskId == id then [last.event.transition] else []
  }

  /** The records that owe an event: all but a save's implicit start. */
  function Announced(hs: seq<TransitionRecord>): seq<TransitionRecord> {
    if hs == [] then []
    else
      var last := hs[|hs| - 1];
      Announced(hs[..|hs| - 1]) + if last.operation != OpSaveProgress then [last] else []
  }

  /** A From/To chain from CREATED, versions strictly increasing, every pair legal. */
  ghost predicate Chain(hs: seq<TransitionRecord>, id: TaskId) {
    && (forall i :: 0 <= i < |hs| ==> hs[i].taskId == id && LegalRecord(hs[i]))
    && (hs != [] ==> hs[0].from == Created)
    && (forall i :: 0 < i < |hs| ==> hs[i - 1].to == hs[i].from && hs[i - 1].version < hs[i].version)
  }

  function TaskOf(db: Db, id: TaskId): Option<Task> {
    if id in db.tasks then Some(db.tasks[id]) else None
  }

  /** A task's history, its announced transitions, its current value and its silent saves fit together. */
  ghost predicate Matches(hs: seq<TransitionRecord>, announced: seq<TransitionRecord>, task: Option<Task>, silent: nat, id: TaskId) {
    && Chain(hs, id)
    && announced == Announced(hs)
    && (match task
        case Some(t) =>
          && t.id == id && Good(t) && hs != []
          && hs[|hs| - 1].to == t.status && hs[|hs| - 1].version <= t.version
          && t.version == |hs| + silent
          && (t.suspendedFrom.Some? <==> t.status == Suspended || (t.status == Exited && hs[|hs| - 1].from == Suspended))
        case None => hs == [] && silent == 0)
  }

  ghost predicate Agrees(w: World, id: TaskId) {
    Matches(HistoryOf(w.db, id), EventsOf(w.db.outbox, id), TaskOf(w.db, id), SilentOf(w, id), id)
  }

  /** Each event describes its transition. */
  predicate EventTrue(e: Event) {
    e.kind == EventTypeOf(e.transition.operation) && e.taskId == e.transition.taskId && e.version == e.transition.version &&
    e.status == e.transition.to && e.transition.operation != OpSaveProgress
  }

  ghost predicate Inv(w: World) {
    (forall id :: Agrees(w, id)) && forall i :: 0 <= i < |w.db.outbox| ==> EventTrue(w.db.outbox[i].event)
  }

  // ---------------------------------------------------------------- leases and relay writes

  datatype LeaseRequest = LeaseRequest(now: Time, owner: string, duration: Time, limit: int, types: seq<string>)

  predicate IsOverdue(t: Task, now: Time) {
    t.dueAt.Some? && !Terminal(t.status) && t.status != Suspended && t.dueAt.value <= now
  }

  predicate IsLeased(t: Task, now: Time) {
    t.lockedUntil.Some? && now < t.lockedUntil.value
  }

  predicate Leasable(t: Task, lease: LeaseRequest) {
    IsOverdue(t, lease.now) && !IsLeased(t, lease.now) && (lease.types == [] || t.taskType in lease.types)
  }

  function Locked(t: Task, lease: LeaseRequest): Task {
    t.(lockedBy := lease.owner, lockedUntil := Some(lease.now + lease.duration))
  }

  function Limit(lease: LeaseRequest): nat {
    if lease.limit <= 0 then 100 else lease.limit
  }

  ghost function Overdue(tasks: map<TaskId, Task>, lease: LeaseRequest): set<TaskId> {
    set id | id in tasks && Leasable(tasks[id], lease)
  }

  /** `ClaimOverdue` leases the overdue tasks of lowest identifier, up to its limit. */
  ghost function LeasedIds(tasks: map<TaskId, Task>, lease: LeaseRequest): set<TaskId> {
    Lowest(Less, Overdue(tasks, lease), Limit(lease))
  }

  ghost function LeaseOverdue(db: Db, lease: LeaseRequest): Db {
    db.(tasks := map id | id in db.tasks :: if id in LeasedIds(db.tasks, lease) then Locked(db.tasks[id], lease) else db.tasks[id])
  }

  /** The same events in the same order, whatever the relay wrote about delivering them. */
  predicate SameEvents(a: seq<O.OutboxRow>, b: seq<O.OutboxRow>) {
    |a| == |b| && forall i :: 0 <= i < |a| ==> a[i].event == b[i].event
  }

  // ---------------------------------------------------------------- runs

  datatype DbStep =
    | Creating(ports: Ports, draft: Task, choice: Choice, now: Time, eventId: string)
    | Mutating(ports: Ports, req: Request, now: Time, eventId: string)
    | Leasing(lease: LeaseRequest)
    | Relaying(outbox: seq<O.OutboxRow>)

  predicate Allowed(w: World, s: DbStep) {
    && (s.Creating? ==> Fresh(s.draft))
    && (s.Relaying? ==> SameEvents(w.db.outbox, s.outbox))
  }

  ghost function Next(w: World, s: DbStep): World {
    match s
    case Creating(ports, draft, choice, now, eventId) => Applied(w, Placement(ports, w.db, draft, choice, now), eventId)
    case Mutating(ports, req, now, eventId) => Applied(w, Attempt(ports, w.db, req, now), eventId)
    case Leasing(lease) => w.(db := LeaseOverdue(w.db, lease))
    case Relaying(outbox) => w.(db := w.db.(outbox := outbox))
  }

  /** Committing an attempt: a refused one changes nothing, and one without a record is a silent save. */
  function Applied(w: World, attempt: Result<Change, Refusal>, eventId: string): World {
    match Committed(w.db, attempt, eventId)
    case Err(_) => w
    case Ok(db) =>
      if attempt.value.record.Some? then w.(db := db)
      else World(db, w.silent[attempt.value.next.id := SilentOf(w, attempt.value.next.id) + 1])
  }

  lemma {:induction false} AppendAnnounced(hs: seq<TransitionRecord>, r: TransitionRecord)
    ensures Announced(hs + [r]) == Announced(hs) + if r.operation != OpSaveProgress then [r] else []
  {
    assert (hs + [r])[..|hs|] == hs;
  }

  lemma {:induction false} AppendEvents(outbox: seq<O.OutboxRow>, row: O.OutboxRow, id: TaskId)
    ensures EventsOf(outbox + [row], id) == EventsOf(outbox, id) + if row.event.taskId == id then [row.event.transition] else []
  {
    assert (outbox + [row])[..|outbox|] == outbox;
  }

  lemma {:induction false} SameEventsOf(a: seq<O.OutboxRow>, b: seq<O.OutboxRow>, id: TaskId)
    requires SameEvents(a, b)
    ensures EventsOf(a, id) == EventsOf(b, id)
  {
    if a != [] {
      SameEventsOf(a[..|a| - 1], b[..|b| - 1], id);
    }
  }

  lemma {:induction false} ChainAppend(hs: seq<TransitionRecord>, r: TransitionRecord, id: TaskId)
    requires Chain(hs, id) && r.taskId == id && LegalRecord(r)
    requires if hs == [] then r.from == Created else hs[|hs| - 1].to == r.from && hs[|hs| - 1].version < r.version
    ensures Chain(hs + [r], id)
  {
    var all := hs + [r];
    assert all[0] == if hs == [] then r else hs[0];
    forall i | 0 < i < |all| ensures all[i - 1].to == all[i].from && all[i - 1].version < all[i].version {
      if i < |hs| {
        assert all[i - 1] == hs[i - 1] && all[i] == hs[i];
      } else {
        assert all[i - 1] == hs[|hs| - 1] && all[i] == r;
      }
    }
  }

  /** A described change continues what its task had. */
  lemma {:induction false} Continues(hs: seq<TransitionRecord>, announced: seq<TransitionRecord>, t: Task, silent: nat, c: Change)
    requires Described(t, c) && Good(c.next) && c.next.id == t.id
    requires Chain(hs, t.id) && announced == Announced(hs) && t.version == |hs| + silent
    requires if hs == [] then t.status == Created else hs[|hs| - 1].to == t.status && hs[|hs| - 1].version <= t.version
    ensures Matches(if c.record.Some? then hs + [c.record.value] else hs,
                    if c.event.Some? then announced + [c.event.value.transition] else announced,
                    Some(c.next), if c.record.Some? then silent else silent + 1, t.id)
  {
    if c.record.Some? {
      AppendAnnounced(hs, c.record.value);
      ChainAppend(hs, c.record.value, t.id);
    }
  }

  /** What persisting a change does to one task's history and events. */
  lemma {:induction false} PersistedAt(db: Db, t: Task, c: Change, eventId: string, id: TaskId)
    requires Described(t, c) && c.next.id == t.id
    ensures var written := Persisted(db.(tasks := db.tasks[t.id := c.next]), c, eventId);
            HistoryOf(written, id) == (if id == t.id && c.record.Some? then HistoryOf(db, id) + [c.record.value] else HistoryOf(db, id)) &&
            EventsOf(written.outbox, id) ==
              (if id == t.id && c.event.Some? then EventsOf(db.outbox, id) + [c.event.value.transition] else EventsOf(db.outbox, id)) &&
            TaskOf(written, id) == if id == t.id then Some(c.next) else TaskOf(db, id)
  {
    if c.event.Some? {
      AppendEvents(db.outbox, O.Appended(c.event.value.(id := eventId)), id);
    }
  }

  /** The change describes itself truthfully against the stored task, or against a new one. */
  ghost predicate Sound(db: Db, c: Change) {
    var id := c.next.id;
    Good(c.next) && exists t: Task :: t.id == id && Described(t, c) && Precedes(db, t)
  }

  predicate Precedes(db: Db, t: Task) {
    if t.id in db.tasks then db.tasks[t.id] == t else t.version == 0 && t.status == Created
  }

  /** Committing a sound attempt keeps the invariant. */
  lemma {:induction false} AppliedKeeps(w: World, attempt: Result<Change, Refusal>, eventId: string)
    requires Inv(w) && forall c :: attempt == Ok(c) ==> Sound(w.db, c)
    ensures Inv(Applied(w, attempt, eventId))
  {
    if attempt.Ok? {
      var c := attempt.value;
      assert Sound(w.db, c);
      var t: Task :| t.id == c.next.id && Described(t, c) && Precedes(w.db, t);
      ChangeKeeps(w, t, c, eventId, Applied(w, attempt, eventId));
    }
  }

  lemma {:induction false} ChangeKeeps(w: World, t: Task, c: Change, eventId: string, after: World)
    requires Inv(w) && Described(t, c) && Good(c.next) && c.next.id == t.id && Precedes(w.db, t)
    requires after.db == Persisted(w.db.(tasks := w.db.tasks[t.id := c.next]), c, eventId)
    requires after.silent == if c.record.None? then w.silent[t.id := SilentOf(w, t.id) + 1] else w.silent
    ensures Inv(after)
  {
    assert Agrees(w, t.id);
    ChangeOwn(w, t, c, eventId);
    forall id ensures Agrees(after, id) {
      assert Agrees(w, id);
      PersistedAt(w.db, t, c, eventId, id);
    }
    AppendedTrue(w.db, t, c, eventId);
  }

  lemma {:induction false} ChangeOwn(w: World, t: Task, c: Change, eventId: string)
    requires Agrees(w, t.id) && Described(t, c) && Good(c.next) && c.next.id == t.id && Precedes(w.db, t)
    ensures var db := Persisted(w.db.(tasks := w.db.tasks[t.id := c.next]), c, eventId);
            Matches(HistoryOf(db, t.id), EventsOf(db.outbox, t.id), Some(c.next),
                    if c.record.Some? then SilentOf(w, t.id) else SilentOf(w, t.id) + 1, t.id)
  {
    PersistedAt(w.db, t, c, eventId, t.id);
    Continues(HistoryOf(w.db, t.id), EventsOf(w.db.outbox, t.id), t, SilentOf(w, t.id), c);
  }

  lemma {:induction false} AppendedTrue(db: Db, t: Task, c: Change, eventId: string)
    requires Described(t, c) && forall i :: 0 <= i < |db.outbox| ==> EventTrue(db.outbox[i].event)
    ensures var outbox := Persisted(db.(tasks := db.tasks[t.id := c.next]), c, eventId).outbox;
            forall i :: 0 <= i < |outbox| ==> EventTrue(outbox[i].event)
  {
  }

  lemma {:induction false} AttemptSound(w: World, ports: Ports, req: Request, now: Time, c: Change)
    requires Inv(w) && Attempt(ports, w.db, req, now) == Ok(c)
    ensures Sound(w.db, c)
  {
    var t := w.db.tasks[req.taskId];
    assert Agrees(w, req.taskId);
    StepGood(ports, t, req, now);
    assert Described(t, c) && Precedes(w.db, t);
  }

  lemma {:induction false} PlacementSound(w: World, ports: Ports, draft: Task, choice: Choice, now: Time, c: Change)
    requires Fresh(draft) && Placement(ports, w.db, draft, choice, now) == Ok(c)
    ensures Sound(w.db, c)
  {
    AssignGood(ports.directory, choice, draft, now);
    assert Described(draft, c) && Precedes(w.db, draft);
  }

  lemma {:induction false} LeaseKeeps(w: World, s: DbStep)
    requires Inv(w) && s.Leasing?
    ensures Inv(Next(w, s))
  {
    forall id ensures Agrees(Next(w, s), id) {
      assert Agrees(w, id);
    }
  }

  lemma {:induction false} RelayKeeps(w: World, s: DbStep)
    requires Inv(w) && s.Relaying? && Allowed(w, s)
    ensures Inv(Next(w, s))
  {
    forall id ensures Agrees(Next(w, s), id) {
      assert Agrees(w, id);
      SameEventsOf(w.db.outbox, s.outbox, id);
    }
  }

  lemma {:induction false} StepKeeps(w: World, s: DbStep)
    requires Inv(w) && Allowed(w, s)
    ensures Inv(Next(w, s))
  {
    match s
    case Creating(ports, draft, choice, now, eventId) =>
      forall c | Placement(ports, w.db, draft, choice, now) == Ok(c) ensures Sound(w.db, c) {
        PlacementSound(w, ports, draft, choice, now, c);
      }
      AppliedKeeps(w, Placement(ports, w.db, draft, choice, now), eventId);
    case Mutating(ports, req, now, eventId) =>
      forall c | Attempt(ports, w.db, req, now) == Ok(c) ensures Sound(w.db, c) {
        AttemptSound(w, ports, req, now, c);
      }
      AppliedKeeps(w, Attempt(ports, w.db, req, now), eventId);
    case Leasing(_) => LeaseKeeps(w, s);
    case Relaying(_) => RelayKeeps(w, s);
  }

  ghost predicate IsRun(states: seq<World>, steps: seq<DbStep>) {
    && |states| == |steps| + 1 && states[0] == World(EMPTY, map[])
    && forall i :: 0 <= i < |steps| ==> Allowed(states[i], steps[i]) && states[i + 1] == Next(states[i], steps[i])
  }

  /** In every reachable state tasks, history and outbox agree, and every task is good. */
  lemma {:induction false} RunAgrees(states: seq<World>, steps: seq<DbStep>, i: nat)
    requires IsRun(states, steps) && i <= |steps|
    ensures Inv(states[i])
  {
    if i > 0 {
      RunAgrees(states, steps, i - 1);
      assert Allowed(states[i - 1], steps[i - 1]) && states[i - 1 + 1] == Next(states[i - 1], steps[i - 1]);
      StepKeeps(states[i - 1], steps[i - 1]);
    }
  }

  /**
   * In every committed state a task names the state it was suspended from if and only if it is SUSPENDED,
   * or EXITED by a cancellation that found it suspended.
   */
  lemma {:induction false} RunSuspendedFrom(states: seq<World>, steps: seq<DbStep>, i: nat, id: TaskId)
    requires IsRun(states, steps) && i <= |steps| && id in states[i].db.tasks
    ensures var t, hs := states[i].db.tasks[id], HistoryOf(states[i].db, id);
            hs != [] &&
            (t.suspendedFrom.Some? <==> t.status == Suspended || (t.status == Exited && hs[|hs| - 1].from == Suspended))
  {
    RunAgrees(states, steps, i);
    assert Agrees(states[i], id);
  }

  /** No task is stored under the empty identifier. */
  lemma {:induction false} RunNamed(states: seq<World>, steps: seq<DbStep>, i: nat)
    requires IsRun(states, steps) && i <= |steps|
    ensures "" !in states[i].db.tasks
  {
    RunAgrees(states, steps, i);
    assert Agrees(states[i], "");
  }
}
