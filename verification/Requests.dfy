/**
 * Which requests a task accepts, from whom, and what each leaves behind (transitions.go, service.go,
 * assignment.go), stated over the task and the request alone, and what that makes of every recorded event.
 */
module Requests {
  import opened Basics
  import opened Lifecycle
  import opened Eligibility
  import opened TaskDb
  import opened TaskInvariants
  import opened TaskAgreement
  import O = Outbox

  // ---------------------------------------------------------------- who may do what, and when

  /** The statuses from which a request is legal at all. */
  predicate InTime(ports: Ports, t: Task, command: Command) {
    match command
    case Claiming => t.status == Ready
    case Releasing => t.status == Reserved
    case Starting => t.status == Reserved
    case Completing(_, _) => t.status == InProgress
    case Failing => t.status == InProgress
    case Delegating(_) => t.status == Reserved || t.status == InProgress
    case Saving(_) => t.status == Reserved || t.status == InProgress
    case Suspending => Suspendable(t.status)
    case Resuming => t.status == Suspended && t.suspendedFrom.Some? && Suspendable(t.suspendedFrom.value)
    case Cancelling => Suspendable(t.status) || t.status == Suspended
    case Escalating =>
      if Supersedes(ports, t) then t.status == Ready || t.status == Reserved else Suspendable(t.status)
  }

  predicate Supersedes(ports: Ports, t: Task) {
    PolicyFor(ports, t).Some? && PolicyFor(ports, t).value.action == Supersede
  }

  /** The actor is the one who holds the task. */
  predicate Holds(t: Task, actor: string) {
    actor == t.assignee != ""
  }

  /** Whom a request may come from, apart from the directory's say on a claim. */
  predicate MayAct(t: Task, actor: string, command: Command) {
    match command
    case Claiming => actor != ""
    case Suspending => actor != "" && (t.assignee != "" ==> actor == t.assignee)
    case Resuming => actor != "" && (t.assignee != "" ==> actor == t.assignee)
    case Escalating => true
    case Cancelling => true
    case _ => Holds(t, actor)
  }

  /** What a request says is fit to be acted on: the payload, the patch, the delegate. */
  predicate Payload(ports: Ports, t: Task, req: Request) {
    match req.command
    case Claiming => IsEligible(ports.directory, t.candidates, req.actor) == Ok(true)
    case Delegating(target) => target != "" && IsEligible(ports.directory, t.candidates, target) == Ok(true)
    case Completing(_, valid) => valid
    case Saving(merged) => merged.Some?
    case _ => true
  }

  lemma AcceptedHeld(ports: Ports, t: Task, req: Request, now: Time)
    requires req.command.Releasing? || req.command.Starting? || req.command.Failing? || req.command.Completing?
    ensures Step(ports, t, req, now).Ok? <==> InTime(ports, t, req.command) && MayAct(t, req.actor, req.command) && Payload(ports, t, req)
  {
  }

  lemma AcceptedReserving(ports: Ports, t: Task, req: Request, now: Time)
    requires req.command.Claiming? || req.command.Delegating? || req.command.Saving?
    ensures Step(ports, t, req, now).Ok? <==> InTime(ports, t, req.command) && MayAct(t, req.actor, req.command) && Payload(ports, t, req)
  {
  }

  lemma AcceptedPausing(ports: Ports, t: Task, req: Request, now: Time)
    requires req.command.Suspending? || req.command.Resuming?
    ensures Step(ports, t, req, now).Ok? <==> InTime(ports, t, req.command) && MayAct(t, req.actor, req.command) && Payload(ports, t, req)
  {
  }

  lemma AcceptedCancelling(ports: Ports, t: Task, req: Request, now: Time)
    requires req.command.Cancelling?
    ensures Step(ports, t, req, now).Ok? <==> InTime(ports, t, req.command) && MayAct(t, req.actor, req.command) && Payload(ports, t, req)
  {
  }

  lemma AcceptedEscalating(ports: Ports, t: Task, req: Request, now: Time)
    requires req.command.Escalating?
    ensures Step(ports, t, req, now).Ok? <==> InTime(ports, t, req.command) && MayAct(t, req.actor, req.command) && Payload(ports, t, req)
  {
  }

  /**
   * A request is accepted if and only if it comes in time, from someone who may make it, with a payload
   * that holds up: only the holder releases, starts, saves, delegates, completes or fails a task.
   */
  lemma Accepted(ports: Ports, t: Task, req: Request, now: Time)
    ensures Step(ports, t, req, now).Ok? <==> InTime(ports, t, req.command) && MayAct(t, req.actor, req.command) && Payload(ports, t, req)
  {
    match req.command
    case Claiming => AcceptedReserving(ports, t, req, now);
    case Delegating(_) => AcceptedReserving(ports, t, req, now);
    case Saving(_) => AcceptedReserving(ports, t, req, now);
    case Suspending => AcceptedPausing(ports, t, req, now);
    case Resuming => AcceptedPausing(ports, t, req, now);
    case Cancelling => AcceptedCancelling(ports, t, req, now);
    case Escalating => AcceptedEscalating(ports, t, req, now);
    case _ => AcceptedHeld(ports, t, req, now);
  }

  /** How a refused request is answered: the status is looked at first, then the actor, then the rest. */
  lemma RefusedAs(ports: Ports, t: Task, req: Request, now: Time)
    requires Step(ports, t, req, now).Err?
    ensures var e := Step(ports, t, req, now).error;
            && (e.Illegal? <==> !InTime(ports, t, req.command))
            && (InTime(ports, t, req.command) && !MayAct(t, req.actor, req.command) ==> e == Unauthorized)
            && (e == Invalid ==> req.command.Completing? || req.command.Saving? || req.command.Delegating?)
            && (e == Fault ==> req.command.Claiming? || req.command.Delegating?)
  {
    match req.command
    case Claiming =>
    case Delegating(_) =>
    case Saving(_) =>
    case Completing(_, _) =>
    case Resuming =>
    case Escalating =>
    case _ =>
  }

  // ---------------------------------------------------------------- what a request leaves

  function OperationOf(ports: Ports, t: Task, command: Command): Operation {
    match command
    case Claiming => OpClaim
    case Releasing => OpRelease
    case Starting => OpStart
    case Completing(_, _) => OpComplete
    case Failing => OpFail
    case Delegating(_) => OpDelegate
    case Suspending => OpSuspend
    case Resuming => OpResume
    case Cancelling => OpCancel
    case Saving(_) => OpSaveProgress
    case Escalating => if Supersedes(ports, t) then OpObsolete else OpEscalate
  }

  function StatusAfter(ports: Ports, t: Task, command: Command): Status {
    match command
    case Claiming => Reserved
    case Releasing => Ready
    case Starting => InProgress
    case Completing(_, _) => Completed
    case Failing => Failed
    case Delegating(_) => Reserved
    case Suspending => Suspended
    case Resuming => if t.suspendedFrom.Some? then t.suspendedFrom.value else t.status
    case Cancelling => Exited
    case Saving(_) => InProgress
    case Escalating => if Supersedes(ports, t) then Obsolete else t.status
  }

  /** The request is on record as made: what was done, by whom, with which words, when. */
  predicate OnRecord(ports: Ports, t: Task, req: Request, now: Time, r: TransitionRecord) {
    && r.operation == OperationOf(ports, t, req.command) && r.actor == req.actor && r.at == now
    && (req.command.Claiming? || req.command.Starting? || r.comment == req.comment)
  }

  /** What an accepted request makes of the task: its status, its reason, its first start, its end. */
  predicate Leaves(ports: Ports, t: Task, req: Request, now: Time, c: Change) {
    && c.next.status == StatusAfter(ports, t, req.command)
    && c.next.reason == (if req.command.Failing? || req.command.Cancelling? || (req.command.Escalating? && Supersedes(ports, t))
                         then req.comment else t.reason)
    && c.next.startedAt == (if t.startedAt.None? && t.status == Reserved && (req.command.Starting? || req.command.Saving?)
                            then Some(now) else t.startedAt)
    && c.next.closedAt == (if Terminal(c.next.status) && t.closedAt.None? then Some(now) else t.closedAt)
    && c.next.escalatedAt == (if req.command.Escalating? && !Supersedes(ports, t) then Some(now) else t.escalatedAt)
    && (c.record.Some? ==> OnRecord(ports, t, req, now, c.record.value))
    && (c.event.Some? ==> c.event.value.actor == req.actor && c.event.value.occurredAt == now &&
                          c.event.value.output == if req.command.Completing? then req.command.output else "")
    && (c.event.Some? <==> !req.command.Saving?)
  }

  lemma LeavesHolding(ports: Ports, t: Task, req: Request, now: Time)
    requires Step(ports, t, req, now).Ok? && (req.command.Claiming? || req.command.Delegating? || req.command.Releasing?)
    ensures Leaves(ports, t, req, now, Step(ports, t, req, now).value)
  {
  }

  lemma LeavesWorking(ports: Ports, t: Task, req: Request, now: Time)
    requires Step(ports, t, req, now).Ok? && (req.command.Starting? || req.command.Saving?)
    ensures Leaves(ports, t, req, now, Step(ports, t, req, now).value)
  {
  }

  lemma LeavesPausing(ports: Ports, t: Task, req: Request, now: Time)
    requires Step(ports, t, req, now).Ok? && (req.command.Suspending? || req.command.Resuming?)
    ensures Leaves(ports, t, req, now, Step(ports, t, req, now).value)
  {
  }

  lemma LeavesEscalating(ports: Ports, t: Task, req: Request, now: Time)
    requires Step(ports, t, req, now).Ok? && req.command.Escalating?
    ensures Leaves(ports, t, req, now, Step(ports, t, req, now).value)
  {
  }

  lemma LeavesEnding(ports: Ports, t: Task, req: Request, now: Time)
    requires Step(ports, t, req, now).Ok? && (req.command.Completing? || req.command.Failing? || req.command.Cancelling?)
    ensures Leaves(ports, t, req, now, Step(ports, t, req, now).value)
  {
  }

  /** What each accepted request leaves. */
  lemma StepLeaves(ports: Ports, t: Task, req: Request, now: Time)
    requires Step(ports, t, req, now).Ok?
    ensures Leaves(ports, t, req, now, Step(ports, t, req, now).value)
  {
    match req.command
    case Claiming => LeavesHolding(ports, t, req, now);
    case Delegating(_) => LeavesHolding(ports, t, req, now);
    case Releasing => LeavesHolding(ports, t, req, now);
    case Starting => LeavesWorking(ports, t, req, now);
    case Saving(_) => LeavesWorking(ports, t, req, now);
    case Suspending => LeavesPausing(ports, t, req, now);
    case Resuming => LeavesPausing(ports, t, req, now);
    case Escalating => LeavesEscalating(ports, t, req, now);
    case _ => LeavesEnding(ports, t, req, now);
  }

  // ---------------------------------------------------------------- placement

  /** Nobody can do the task, or the strategy did not name someone who can. */
  ghost predicate Unplaceable(directory: Option<Directory>, choice: Choice, t: Task) {
    || !Resolvable(directory, t.candidates)
    || (forall actor :: !InPool(directory, t.candidates, actor))
    || choice.Refuses?
    || (choice.actor != "" && !InPool(directory, t.candidates, choice.actor))
  }

  lemma AnyoneInPool(directory: Option<Directory>, pool: Pool)
    ensures Anyone(directory, pool) <==> exists actor :: InPool(directory, pool, actor)
  {
    if actor :| InPool(directory, pool, actor) {
      if actor !in pool.users {
        var g :| g in pool.groups && actor in Eligibility.Members(directory, g);
        assert g in pool.groups && exists a :: a in Eligibility.Members(directory, g) && InPool(directory, pool, a);
      }
    }
  }

  /** The task is closed as an ERROR nobody holds. */
  predicate PutAside(m: Move, now: Time) {
    m.next.status == Error && m.next.assignee == "" && m.next.closedAt == Some(now) && m.event.kind == TaskErrored
  }

  /** The task is reserved for someone, or open to its pool when no one is named. */
  predicate PutTo(m: Move, actor: string, t: Task) {
    && m.next.assignee == actor && m.next.status == (if actor == "" then Ready else Reserved) && m.next.closedAt.None?
    && m.event.kind == TaskCreated && m.event.actor == t.createdBy
  }

  lemma FaultPutsAside(t: Task, reason: string, now: Time)
    requires Fresh(t)
    ensures FaultTask(t, reason, now).Ok? && PutAside(FaultTask(t, reason, now).value, now)
  {
  }

  lemma ActivatePutsTo(t: Task, actor: string, now: Time)
    requires Fresh(t)
    ensures Activate(t, t.createdBy, actor, now).Ok? && PutTo(Activate(t, t.createdBy, actor, now).value, actor, t)
  {
  }

  /** Where a new task goes: to the chosen actor of its pool, to the pool itself, or to ERROR. */
  lemma PlacedExactly(directory: Option<Directory>, choice: Choice, t: Task, now: Time)
    requires Fresh(t)
    ensures Assign(directory, choice, t, now).Ok?
    ensures var m := Assign(directory, choice, t, now).value;
            if Unplaceable(directory, choice, t) then PutAside(m, now) else PutTo(m, choice.actor, t)
  {
    AnyoneInPool(directory, t.candidates);
    if !Resolvable(directory, t.candidates) {
      FaultPutsAside(t, "candidate resolution failed", now);
    } else if !Anyone(directory, t.candidates) {
      FaultPutsAside(t, "no actor is eligible for this task", now);
    } else if choice.Refuses? {
      FaultPutsAside(t, "assignment strategy failed", now);
    } else if choice.actor != "" && !InPool(directory, t.candidates, choice.actor) {
      FaultPutsAside(t, "assignment strategy chose an ineligible actor", now);
    } else {
      ActivatePutsTo(t, choice.actor, now);
    }
  }

  // ---------------------------------------------------------------- every recorded event

  /** The event was caused by someone who was entitled to cause it. */
  predicate Authorized(e: Event) {
    match e.kind
    case TaskClaimed => e.actor == e.assignee != "" && e.previousAssignee == ""
    case TaskStarted => e.actor == e.assignee != ""
    case TaskCompleted => e.actor == e.assignee != ""
    case TaskFailed => e.actor == e.assignee != ""
    case TaskReleased => e.assignee == "" && e.actor == e.previousAssignee != ""
    case TaskDelegated => e.assignee != "" && e.actor == (if e.previousAssignee == "" then e.assignee else e.previousAssignee)
    case TaskSuspended => e.actor != "" && (e.assignee != "" ==> e.actor == e.assignee)
    case TaskResumed => e.actor != "" && (e.assignee != "" ==> e.actor == e.assignee)
    case _ => true
  }

  /** The event names the operation that took the task from where it was to where it is. */
  predicate Fitting(e: Event) {
    && e.kind == EventTypeOf(e.transition.operation)
    && OperationFits(e.transition.operation, e.transition.from, e.status)
    && e.transition.actor == e.actor
  }

  lemma {:induction false} RequestAuthorized(ports: Ports, t: Task, req: Request, now: Time)
    requires Good(t) && Step(ports, t, req, now).Ok? && Step(ports, t, req, now).value.event.Some?
    ensures Authorized(Step(ports, t, req, now).value.event.value) && Fitting(Step(ports, t, req, now).value.event.value)
  {
    Accepted(ports, t, req, now);
    StepGood(ports, t, req, now);
    StepFrame(ports, t, req, now);
    StepLeaves(ports, t, req, now);
    Entitled(ports, t, req, now, Step(ports, t, req, now).value);
  }

  lemma {:induction false} Entitled(ports: Ports, t: Task, req: Request, now: Time, c: Change)
    requires Good(t) && c.event.Some? && InTime(ports, t, req.command) && MayAct(t, req.actor, req.command) && Payload(ports, t, req)
    requires Described(t, c) && TouchesOnly(t, c.next, req) && Leaves(ports, t, req, now, c)
    ensures Authorized(c.event.value) && Fitting(c.event.value)
  {
  }

  lemma {:induction false} PlacementAuthorized(directory: Option<Directory>, choice: Choice, t: Task, now: Time)
    requires Fresh(t)
    ensures Assign(directory, choice, t, now).Ok?
    ensures Authorized(Assign(directory, choice, t, now).value.event) && Fitting(Assign(directory, choice, t, now).value.event)
  {
    AssignGood(directory, choice, t, now);
    PlacedExactly(directory, choice, t, now);
    CreationActor(directory, choice, t, now);
  }

  lemma {:induction false} CreationActor(directory: Option<Directory>, choice: Choice, t: Task, now: Time)
    requires Assign(directory, choice, t, now).Ok?
    ensures var e := Assign(directory, choice, t, now).value.event; e.transition.actor == e.actor
  {
  }

  ghost predicate AllAuthorized(outbox: seq<O.OutboxRow>) {
    forall k :: 0 <= k < |outbox| ==> Authorized(outbox[k].event) && Fitting(outbox[k].event)
  }

  /** Committing a change adds its event, if it has one, and no other. */
  lemma {:induction false} CommitAuthorized(db: Db, c: Change, eventId: string)
    requires AllAuthorized(db.outbox) && (c.event.Some? ==> Authorized(c.event.value) && Fitting(c.event.value))
    ensures AllAuthorized(Persisted(db, c, eventId).outbox)
  {
  }

  lemma {:induction false} MutatingAuthorized(w: World, ports: Ports, req: Request, now: Time, eventId: string)
    requires Inv(w) && AllAuthorized(w.db.outbox)
    ensures AllAuthorized(Applied(w, Attempt(ports, w.db, req, now), eventId).db.outbox)
  {
    var attempt := Attempt(ports, w.db, req, now);
    if attempt.Ok? {
      var c := attempt.value;
      assert Agrees(w, req.taskId);
      if c.event.Some? {
        RequestAuthorized(ports, w.db.tasks[req.taskId], req, now);
      }
      CommitAuthorized(w.db.(tasks := w.db.tasks[c.next.id := c.next]), c, eventId);
    }
  }

  lemma {:induction false} CreatingAuthorized(w: World, ports: Ports, draft: Task, choice: Choice, now: Time, eventId: string)
    requires Fresh(draft) && AllAuthorized(w.db.outbox)
    ensures AllAuthorized(Applied(w, Placement(ports, w.db, draft, choice, now), eventId).db.outbox)
  {
    PlacementAuthorized(ports.directory, choice, draft, now);
    var attempt := Placement(ports, w.db, draft, choice, now);
    if attempt.Ok? {
      var c := attempt.value;
      CommitAuthorized(w.db.(tasks := w.db.tasks[c.next.id := c.next]), c, eventId);
    }
  }

  lemma {:induction false} StepAuthorized(w: World, s: DbStep)
    requires Inv(w) && Allowed(w, s) && AllAuthorized(w.db.outbox)
    ensures AllAuthorized(Next(w, s).db.outbox)
  {
    match s
    case Mutating(ports, req, now, eventId) => MutatingAuthorized(w, ports, req, now, eventId);
    case Creating(ports, draft, choice, now, eventId) => CreatingAuthorized(w, ports, draft, choice, now, eventId);
    case Leasing(_) =>
    case Relaying(_) =>
  }

  /**
   * In every committed state each recorded event was caused by someone entitled to it: work was started,
   * completed, failed, released and delegated by its holder, whoever held it at the time.
   */
  lemma {:induction false} RunAuthorized(states: seq<World>, steps: seq<DbStep>, i: nat)
    requires IsRun(states, steps) && i <= |steps|
    ensures AllAuthorized(states[i].db.outbox)
  {
    if i > 0 {
      RunAuthorized(states, steps, i - 1);
      RunAgrees(states, steps, i - 1);
      assert Allowed(states[i - 1], steps[i - 1]) && states[i - 1 + 1] == Next(states[i - 1], steps[i - 1]);
      StepAuthorized(states[i - 1], steps[i - 1]);
    }
  }

  /** In every committed state a closed task's last record is of the operation that closes that way. */
  lemma {:induction false} RunEnds(states: seq<World>, steps: seq<DbStep>, i: nat, id: TaskId)
    requires IsRun(states, steps) && i <= |steps| && id in states[i].db.tasks && Terminal(states[i].db.tasks[id].status)
    ensures var t, hs := states[i].db.tasks[id], HistoryOf(states[i].db, id);
            hs != [] && hs[|hs| - 1].operation == EndsBy(t.status)
  {
    RunAgrees(states, steps, i);
    assert Agrees(states[i], id);
    EndingFits(HistoryOf(states[i].db, id)[|HistoryOf(states[i].db, id)| - 1]);
  }

  /** The operation that closes a task this way. */
  function EndsBy(status: Status): Operation
    requires Terminal(status)
  {
    match status
    case Completed => OpComplete
    case Failed => OpFail
    case Exited => OpCancel
    case Obsolete => OpObsolete
    case Error => OpFault
  }

  lemma EndingFits(r: TransitionRecord)
    requires LegalRecord(r) && Terminal(r.to)
    ensures r.operation == EndsBy(r.to)
  {
  }
}
