/**
 * The service pipeline over transactions (service.go): `mutate` and `Create` as the sequence of store
 * calls they make, in a scope the engine opens or in one the host opened, and what the committed store
 * keeps through all of them.
 */
module TaskService {
  import opened Basics
  import opened Lifecycle
  import opened Eligibility
  import opened TaskDb
  import opened TaskInvariants
  import opened TaskAgreement
  import opened TaskStore
  import O = Outbox

  /** No event carries the identifier yet. */
  ghost predicate Unused(outbox: seq<O.OutboxRow>, eventId: string) {
    forall i :: 0 <= i < |outbox| ==> outbox[i].event.id != eventId
  }

  /** Appending a row under a new identifier keeps the scope sound. */
  lemma {:induction false} AppendStaged(
      rows: seq<O.OutboxRow>, edits: map<O.EventId, O.OutboxRow>, appended: seq<O.OutboxRow>, row: O.OutboxRow)
    requires Staged(rows, edits, appended) && Unused(Seen(rows, edits, appended), row.event.id) && row.event.id !in edits
    ensures Staged(rows, edits, appended + [row])
  {
    SeenEvents(rows, edits, appended);
    var all := rows + appended;
    assert rows + (appended + [row]) == all + [row];
    forall i | 0 <= i < |all| ensures all[i].event.id != row.event.id {
      assert Seen(rows, edits, appended)[i].event.id == all[i].event.id;
    }
  }

  /** `persistOutcome`: the record, then the stamped event, each if there is one. */
  method PersistOutcome(tx: Tx, c: Change, eventId: string)
    requires tx.Valid() && Unused(tx.View().outbox, eventId) && eventId !in tx.edits
    modifies tx`history, tx`outbox
    ensures tx.Valid() && tx.View() == Persisted(old(tx.View()), c, eventId)
  {
    if c.record.Some? {
      tx.AppendHistory(c.record.value);
    }
    if c.event.None? {
      return;
    }
    AppendStaged(tx.store.outbox, tx.edits, tx.outbox, O.Appended(c.event.value.(id := eventId)));
    tx.Append(c.event.value.(id := eventId));
  }

  /** Every stored task is good and filed under its identifier, as `TaskAgreement.Inv` says. */
  ghost predicate AllGood(db: Db) {
    forall id :: id in db.tasks ==> db.tasks[id].id == id && Good(db.tasks[id])
  }

  /**
   * `mutate` inside a scope: what the scope sees changes exactly as `TaskDb.Mutate` says, and a refused
   * request stages nothing.
   */
  method MutateIn(tx: Tx, ports: Ports, req: Request, now: Time, eventId: string) returns (refusal: Option<Refusal>)
    requires AllGood(tx.View()) && tx.Valid() && Unused(tx.View().outbox, eventId) && eventId !in tx.edits
    modifies tx`tasks, tx`history, tx`outbox
    ensures tx.Valid()
    ensures match Mutate(ports, old(tx.View()), req, now, eventId)
            case Ok(db) => refusal.None? && tx.View() == db
            case Err(e) => refusal == Some(e) && tx.View() == old(tx.View())
  {
    if req.taskId == "" {
      return Some(Invalid);
    }
    var current := tx.Get(req.taskId);
    if current.None? {
      return Some(NotFound);
    }
    if req.version.Some? && req.version.value != current.value.version {
      return Some(Conflict(req.version.value, current.value.version));
    }
    var attempt := Step(ports, current.value, req, now);
    if attempt.Err? {
      return Some(attempt.error);
    }
    refusal := WriteChange(tx, current.value, ports, req, now, attempt.value, eventId);
  }

  /** The writing half of `mutate`. */
  method WriteChange(tx: Tx, current: Task, ghost ports: Ports, ghost req: Request, ghost now: Time, c: Change, eventId: string)
    returns (refusal: Option<Refusal>)
    requires Good(current) && Step(ports, current, req, now) == Ok(c) && TaskOf(tx.View(), current.id) == Some(current)
    requires tx.Valid() && Unused(tx.View().outbox, eventId) && eventId !in tx.edits
    modifies tx`tasks, tx`history, tx`outbox
    ensures tx.Valid() && refusal.None?
    ensures tx.View() == Persisted(old(tx.View()).(tasks := old(tx.View()).tasks[c.next.id := c.next]), c, eventId)
  {
    StepGood(ports, current, req, now);
    refusal := tx.Update(c.next, current.version);
    if refusal.Some? {
      return;
    }
    PersistOutcome(tx, c, eventId);
  }

  /** `Assign` over the candidates the directory resolves. */
  method PlaceTask(ports: Ports, draft: Task, choice: Choice, now: Time) returns (placed: Result<Move, Refusal>)
    ensures placed == Assign(ports.directory, choice, draft, now)
  {
    var eligible := ResolveCandidates(ports.directory, draft.candidates);
    if eligible.None? {
      return FaultTask(draft, "candidate resolution failed", now);
    }
    SomeoneListed(ports.directory, draft.candidates, eligible.value);
    if |eligible.value| == 0 {
      return FaultTask(draft, "no actor is eligible for this task", now);
    }
    if choice.Refuses? {
      return FaultTask(draft, "assignment strategy failed", now);
    }
    if choice.actor != "" && choice.actor !in eligible.value {
      return FaultTask(draft, "assignment strategy chose an ineligible actor", now);
    }
    return Activate(draft, draft.createdBy, choice.actor, now);
  }

  lemma {:induction false} SomeoneListed(directory: Option<Directory>, pool: Pool, eligible: seq<string>)
    requires forall actor :: actor in eligible <==> InPool(directory, pool, actor)
    ensures |eligible| == 0 <==> !Anyone(directory, pool)
  {
    if |eligible| > 0 {
      assert eligible[0] in eligible && InPool(directory, pool, eligible[0]);
    }
  }

  /** `Service.Create` inside a scope. */
  method CreateIn(tx: Tx, ports: Ports, draft: Task, choice: Choice, now: Time, eventId: string) returns (refusal: Option<Refusal>)
    requires Fresh(draft) && tx.Valid() && Unused(tx.View().outbox, eventId) && eventId !in tx.edits
    modifies tx`tasks, tx`history, tx`outbox
    ensures tx.Valid()
    ensures match TaskDb.Create(ports, old(tx.View()), draft, choice, now, eventId)
            case Ok(db) => refusal.None? && tx.View() == db
            case Err(e) => refusal == Some(e) && tx.View() == old(tx.View())
  {
    var placed := PlaceTask(ports, draft, choice, now);
    AssignGood(ports.directory, choice, draft, now);
    var conflict := StorePlaced(tx, placed.value, eventId);
    return if conflict then Some(Conflict(0, 0)) else None;
  }

  /** Writes a placed task with its record and event, unless its identifier is taken. */
  method StorePlaced(tx: Tx, m: Move, eventId: string) returns (conflict: bool)
    requires tx.Valid() && Unused(tx.View().outbox, eventId) && eventId !in tx.edits
    modifies tx`tasks, tx`history, tx`outbox
    ensures tx.Valid() && conflict == (m.next.id in old(tx.View()).tasks)
    ensures tx.View() ==
            if conflict then old(tx.View())
            else Persisted(old(tx.View()).(tasks := old(tx.View()).tasks[m.next.id := m.next]),
                           Change(m.next, Some(m.event), Some(m.event.transition)), eventId)
  {
    conflict := tx.Create(m.next);
    if !conflict {
      PersistOutcome(tx, Change(m.next, Some(m.event), Some(m.event.transition)), eventId);
    }
  }

  // ---------------------------------------------------------------- scopes

  lemma {:induction false} InvAllGood(w: World)
    requires Inv(w)
    ensures AllGood(w.db)
  {
    forall id | id in w.db.tasks ensures w.db.tasks[id].id == id && Good(w.db.tasks[id]) {
      assert Agrees(w, id);
    }
  }

  /** The identifiers a scope stamps its events with, one per request. */
  ghost predicate NewIds(outbox: seq<O.OutboxRow>, ids: seq<string>) {
    && (forall i :: 0 <= i < |ids| ==> Unused(outbox, ids[i]))
    && (forall i, j :: 0 <= i < j < |ids| ==> ids[i] != ids[j])
  }

  /** A request or a creation, with the instant and the event identifier it draws. */
  datatype Call =
    | Call(ports: Ports, req: Request, now: Time, eventId: string)
    | Creation(ports: Ports, draft: Task, choice: Choice, now: Time, eventId: string)

  function StepOf(c: Call): DbStep {
    match c
    case Call(ports, req, now, eventId) => Mutating(ports, req, now, eventId)
    case Creation(ports, draft, choice, now, eventId) => Creating(ports, draft, choice, now, eventId)
  }

  /** Creations are of tasks as `NewTask` builds them. */
  predicate Proper(c: Call) {
    c.Creation? ==> Fresh(c.draft)
  }

  ghost function After(w: World, calls: seq<Call>): World {
    if calls == [] then w else Next(After(w, calls[..|calls| - 1]), StepOf(calls[|calls| - 1]))
  }

  function RefusalOf(w: World, c: Call): Option<Refusal> {
    match Answered(w, c)
    case Ok(_) => None
    case Err(e) => Some(e)
  }

  function Answered(w: World, c: Call): Result<Db, Refusal> {
    match c
    case Call(ports, req, now, eventId) => Mutate(ports, w.db, req, now, eventId)
    case Creation(ports, draft, choice, now, eventId) => TaskDb.Create(ports, w.db, draft, choice, now, eventId)
  }

  /** What the requests of a scope are refused with, if they are. */
  ghost function Refusals(w: World, calls: seq<Call>): seq<Option<Refusal>> {
    if calls == [] then []
    else
      var k := |calls| - 1;
      Refusals(w, calls[..k]) + [RefusalOf(After(w, calls[..k]), calls[k])]
  }

  /** The engine: the store, and how many progress saves each task has had without a record. */
  class Service {
    const store: Store
    ghost var silent: map<TaskId, nat>

    /** What every committed state keeps. */
    ghost predicate Valid() reads this, store {
      Inv(World(store.Abs(), silent)) && DistinctIds(store.outbox)
    }

    ghost function State(): World reads this, store {
      World(store.Abs(), silent)
    }

    constructor (store: Store)
      requires store.Abs() == EMPTY
      ensures Valid() && this.store == store && State() == World(EMPTY, map[])
    {
      this.store := store;
      silent := map[];
    }

    /**
     * A transaction of several requests and creations, the host's or the engine's own: committed, it is
     * those one after another, each whole or refused; rolled back, it never happened.
     */
    method Scope(calls: seq<Call>, commit: bool) returns (refusals: seq<Option<Refusal>>)
      requires Valid() && NewIds(store.outbox, EventIds(calls)) && forall i :: 0 <= i < |calls| ==> Proper(calls[i])
      modifies this, store
      ensures Valid() && State() == if commit then After(old(State()), calls) else old(State())
      ensures refusals == Refusals(old(State()), calls)
    {
      var tx := new Tx(store);
      FreshScope(store.outbox);
      refusals := RunCalls(tx, calls, State());
      if commit {
        ViewDistinct(tx);
        silent := After(State(), calls).silent;
        tx.Commit();
      }
    }

    /** The requests of a scope, one after another. */
    method RunCalls(tx: Tx, calls: seq<Call>, ghost was: World) returns (refusals: seq<Option<Refusal>>)
      requires tx.edits == map[] && tx.Valid() && tx.View() == was.db && Inv(was) && NewIds(was.db.outbox, EventIds(calls))
      requires forall i :: 0 <= i < |calls| ==> Proper(calls[i])
      modifies tx`tasks, tx`history, tx`outbox
      ensures tx.Valid() && tx.View() == After(was, calls).db && Inv(After(was, calls)) && refusals == Refusals(was, calls)
    {
      refusals := [];
      assert calls[..0] == [] && EventIds(calls)[0..] == EventIds(calls);
      for i := 0 to |calls|
        invariant tx.Valid() && tx.View() == After(was, calls[..i]).db && Inv(After(was, calls[..i]))
        invariant NewIds(After(was, calls[..i]).db.outbox, EventIds(calls)[i..]) && refusals == Refusals(was, calls[..i])
      {
        assert calls[..i + 1][..i] == calls[..i];
        assert EventIds(calls)[i..][0] == calls[i].eventId && EventIds(calls)[i..][1..] == EventIds(calls)[i + 1..];
        var refusal := Request(tx, calls[i], After(was, calls[..i]), EventIds(calls)[i..]);
        refusals := refusals + [refusal];
      }
      assert calls[..|calls|] == calls;
    }

    /** One request of a scope. */
    method Request(tx: Tx, call: Call, ghost w: World, ghost ids: seq<string>) returns (refusal: Option<Refusal>)
      requires tx.edits == map[] && tx.Valid() && tx.View() == w.db && Inv(w) && Proper(call)
      requires ids != [] && ids[0] == call.eventId && NewIds(w.db.outbox, ids)
      modifies tx`tasks, tx`history, tx`outbox
      ensures tx.Valid() && tx.View() == Next(w, StepOf(call)).db && Inv(Next(w, StepOf(call)))
      ensures NewIds(Next(w, StepOf(call)).db.outbox, ids[1..]) && refusal == RefusalOf(w, call)
    {
      InvAllGood(w);
      StepKeeps(w, StepOf(call));
      CommittedIds(w, StepOf(call), ids);
      match call
      case Call(ports, req, now, eventId) => refusal := MutateIn(tx, ports, req, now, eventId);
      case Creation(ports, draft, choice, now, eventId) => refusal := CreateIn(tx, ports, draft, choice, now, eventId);
    }

    /** `Service.Create` in a transaction of its own. */
    method CreateTask(ports: Ports, draft: Task, choice: Choice, now: Time, eventId: string) returns (refusal: Option<Refusal>)
      requires Valid() && Fresh(draft) && Unused(store.outbox, eventId)
      modifies this, store
      ensures Valid() && State() == Next(old(State()), Creating(ports, draft, choice, now, eventId))
    {
      var tx := new Tx(store);
      FreshScope(store.outbox);
      StepKeeps(State(), Creating(ports, draft, choice, now, eventId));
      refusal := CreateIn(tx, ports, draft, choice, now, eventId);
      if refusal.Some? {
        return;
      }
      ViewDistinct(tx);
      tx.Commit();
    }

    /** `Service.ClaimOverdue`: the leases are committed before anything is escalated. */
    method LeaseTasks(lease: LeaseRequest) returns (claimed: seq<Task>)
      requires Valid()
      modifies this, store
      ensures Valid() && State() == Next(old(State()), Leasing(lease))
    {
      var tx := new Tx(store);
      FreshScope(store.outbox);
      StepKeeps(State(), Leasing(lease));
      ghost var taken;
      claimed, taken := tx.ClaimOverdue(lease);
      ViewDistinct(tx);
      tx.Commit();
    }

    /** `Service.ClaimDueEvents`: the events keep their order and content, whatever is leased. */
    method LeaseEvents(claim: O.OutboxClaim) returns (claimed: seq<O.OutboxRow>)
      requires Valid()
      modifies this, store
      ensures Valid() && State() == Next(old(State()), Relaying(AfterClaim(old(store.outbox), claim)))
    {
      var tx := new Tx(store);
      FreshScope(store.outbox);
      StepKeeps(State(), Relaying(AfterClaim(store.outbox, claim)));
      ghost var taken;
      claimed, taken := tx.ClaimDueEvents(claim);
      ViewDistinct(tx);
      tx.Commit();
    }

    /** A relay's settlement of one event. */
    method SettleEvent(id: O.EventId, s: O.Settlement) returns (found: bool)
      requires Valid()
      modifies this, store
      ensures Valid() && found == HasRow(old(store.outbox), id)
      ensures State() == Next(old(State()), Relaying(SettledRows(old(store.outbox), id, s)))
    {
      var tx := new Tx(store);
      FreshScope(store.outbox);
      StepKeeps(State(), Relaying(SettledRows(store.outbox, id, s)));
      found := tx.EditOutbox(id, s);
      ViewDistinct(tx);
      tx.Commit();
    }
  }

  function EventIds(calls: seq<Call>): seq<string> {
    seq(|calls|, i requires 0 <= i < |calls| => calls[i].eventId)
  }

  lemma {:induction false} FreshScope(rows: seq<O.OutboxRow>)
    requires DistinctIds(rows)
    ensures Staged(rows, map[], []) && Seen(rows, map[], []) == rows
  {
    assert rows + [] == rows;
  }

  /** A request adds at most its own event's identifier. */
  lemma {:induction false} CommittedIds(w: World, s: DbStep, ids: seq<string>)
    requires (s.Mutating? || s.Creating?) && ids != [] && ids[0] == s.eventId && NewIds(w.db.outbox, ids)
    ensures NewIds(Next(w, s).db.outbox, ids[1..])
  {
    var outbox := Next(w, s).db.outbox;
    assert forall i :: 0 <= i < |outbox| ==> (i < |w.db.outbox| && outbox[i] == w.db.outbox[i]) || outbox[i].event.id == s.eventId;
  }

  lemma {:induction false} ViewDistinct(tx: Tx)
    requires tx.Valid()
    ensures DistinctIds(tx.View().outbox)
  {
    SeenEvents(tx.store.outbox, tx.edits, tx.outbox);
  }
}
