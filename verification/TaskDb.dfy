/**
 * The task service over a store of tasks, histories and an outbox, as values (service.go,
 * memstore/memstore.go): what each request changes, and what every committed state keeps.
 */
module TaskDb {
  import opened Basics
  import opened Lifecycle
  import opened Eligibility
  import O = Outbox

  datatype Db = Db(tasks: map<TaskId, Task>, history: map<TaskId, seq<TransitionRecord>>, outbox: seq<O.OutboxRow>)

  const EMPTY := Db(map[], map[], [])

  function HistoryOf(db: Db, id: TaskId): seq<TransitionRecord> {
    if id in db.history then db.history[id] else []
  }

  /** A lifecycle request, with what the schema registry and the patch library answer about its payload. */
  datatype Command =
    | Claiming
    | Releasing
    | Starting
    | Completing(output: string, valid: bool)
    | Failing
    | Delegating(target: string)
    | Suspending
    | Resuming
    | Escalating
    | Cancelling
    | Saving(merged: Option<string>)

  datatype Request = Request(taskId: TaskId, actor: string, version: Option<int>, comment: string, command: Command)

  /** The ports a request consults: the directory and each type's default escalation policy. */
  datatype Ports = Ports(directory: Option<Directory>, policyOf: string -> Option<Policy>)

  function PolicyFor(ports: Ports, t: Task): Option<Policy> {
    if t.escalation.Some? then t.escalation else ports.policyOf(t.taskType)
  }

  /** What a step of the pipeline produced: the next task, and the event and record to persist. */
  datatype Change = Change(next: Task, event: Option<Event>, record: Option<TransitionRecord>)

  /** An ordinary transition persists its event and the record the event carries. */
  function Whole(move: Result<Move, Refusal>): Result<Change, Refusal> {
    match move
    case Err(e) => Err(e)
    case Ok(m) => Ok(Change(m.next, Some(m.event), Some(m.event.transition)))
  }

  /** `AuthorizeDelegate` after the transition has been accepted. */
  function DelegateTo(ports: Ports, t: Task, actor: string, target: string, comment: string, now: Time): Result<Move, Refusal> {
    var move := Delegate(t, actor, target, comment, now);
    if move.Err? then move
    else match IsEligible(ports.directory, t.candidates, target)
      case Err(e) => Err(e)
      case Ok(eligible) => if eligible then move else Err(Unauthorized)
  }

  /** A progress save persists no event, and a record only when it started the task. */
  function Save(t: Task, actor: string, merged: Option<string>, comment: string, now: Time): Result<Change, Refusal> {
    match SaveProgress(t, actor, if merged.Some? then merged.value else "", comment, now)
    case Err(e) => Err(e)
    case Ok(m) =>
      if merged.None? then Err(Invalid)
      else Ok(Change(m.next, None, if t.status == Reserved then Some(m.event.transition) else None))
  }

  /** The pure step of `mutate` for each request. */
  function Step(ports: Ports, t: Task, req: Request, now: Time): Result<Change, Refusal> {
    match req.command
    case Claiming => Whole(ClaimBy(ports.directory, t, req.actor, now))
    case Releasing => Whole(Release(t, req.actor, req.comment, now))
    case Starting => Whole(Start(t, req.actor, now))
    case Completing(output, valid) =>
      var move := Complete(t, req.actor, output, req.comment, now);
      if move.Ok? && !valid then Err(Invalid) else Whole(move)
    case Failing => Whole(Fail(t, req.actor, req.comment, now))
    case Delegating(target) => Whole(DelegateTo(ports, t, req.actor, target, req.comment, now))
    case Suspending => Whole(Suspend(t, req.actor, req.comment, now))
    case Resuming => Whole(Resume(t, req.actor, req.comment, now))
    case Escalating => Whole(Escalate(t, req.actor, PolicyFor(ports, t), req.comment, now))
    case Cancelling => Whole(Cancel(t, req.actor, req.comment, now))
    case Saving(merged) => Save(t, req.actor, merged, req.comment, now)
  }

  /** `persistOutcome`: the history record and the stamped event, each if there is one. */
  function Persisted(db: Db, c: Change, eventId: string): Db {
    var history := if c.record.None? then db.history
                   else db.history[c.record.value.taskId := HistoryOf(db, c.record.value.taskId) + [c.record.value]];
    var outbox := if c.event.None? then db.outbox else db.outbox + [O.Appended(c.event.value.(id := eventId))];
    db.(history := history, outbox := outbox)
  }

  /** The first half of `mutate`: read, check the caller's version, step. */
  function Attempt(ports: Ports, db: Db, req: Request, now: Time): Result<Change, Refusal> {
    if req.taskId == "" then Err(Invalid)
    else if req.taskId !in db.tasks then Err(NotFound)
    else
      var current := db.tasks[req.taskId];
      if req.version.Some? && req.version.value != current.version then Err(Conflict(req.version.value, current.version))
      else Step(ports, current, req, now)
  }

  /** The second half: write the task, its record and its event; a refusal writes nothing. */
  function Committed(db: Db, attempt: Result<Change, Refusal>, eventId: string): Result<Db, Refusal> {
    match attempt
    case Err(e) => Err(e)
    case Ok(c) => Ok(Persisted(db.(tasks := db.tasks[c.next.id := c.next]), c, eventId))
  }

  function Mutate(ports: Ports, db: Db, req: Request, now: Time, eventId: string): Result<Db, Refusal> {
    Committed(db, Attempt(ports, db, req, now), eventId)
  }

  /** What the host's assignment strategy answers. */
  datatype Choice = Picks(actor: string) | Refuses

  /** `Assign`: reserve for the chosen actor, pool, or fault the task nobody can do. */
  function Assign(directory: Option<Directory>, choice: Choice, t: Task, now: Time): Result<Move, Refusal> {
    if !Resolvable(directory, t.candidates) then FaultTask(t, "candidate resolution failed", now)
    else if !Anyone(directory, t.candidates) then FaultTask(t, "no actor is eligible for this task", now)
    else if choice.Refuses? then FaultTask(t, "assignment strategy failed", now)
    else if choice.actor != "" && !InPool(directory, t.candidates, choice.actor) then
      FaultTask(t, "assignment strategy chose an ineligible actor", now)
    else Activate(t, t.createdBy, choice.actor, now)
  }

  predicate Anyone(directory: Option<Directory>, pool: Pool) {
    || (exists a :: a in pool.users && InPool(directory, pool, a))
    || (exists g :: g in pool.groups && exists a :: a in Eligibility.Members(directory, g) && InPool(directory, pool, a))
  }

  /** A task as `NewTask` builds it, under the identifier given or minted for it. */
  predicate Fresh(t: Task) {
    && t.id != "" && t.version == 0 && t.status == Created && t.assignee == "" && t.suspendedFrom.None?
    && t.startedAt.None? && t.closedAt.None? && t.escalationCount == 0 && t.escalatedAt.None?
    && t.lockedBy == "" && t.lockedUntil.None?
  }

  /** `Service.Create`: an identifier already taken is a conflict. */
  function Placement(ports: Ports, db: Db, draft: Task, choice: Choice, now: Time): Result<Change, Refusal> {
    match Assign(ports.directory, choice, draft, now)
    case Err(e) => Err(e)
    case Ok(m) =>
      if draft.id in db.tasks then Err(Conflict(0, 0))
      else Ok(Change(m.next, Some(m.event), Some(m.event.transition)))
  }

  function Create(ports: Ports, db: Db, draft: Task, choice: Choice, now: Time, eventId: string): Result<Db, Refusal> {
    Committed(db, Placement(ports, db, draft, choice, now), eventId)
  }
}
