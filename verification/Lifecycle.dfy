/**
 * The task state machine: the transition table and the lifecycle operations as functions from a
 * task to its next value and the event it produced (transition_table.go, transitions.go).
 */
module Lifecycle {
  import opened Basics

  datatype Status =
    | Created | Ready | Reserved | InProgress | Suspended
    | Completed | Failed | Error | Exited | Obsolete

  predicate Terminal(s: Status) {
    s == Completed || s == Failed || s == Error || s == Exited || s == Obsolete
  }

  predicate Suspendable(s: Status) {
    s == Ready || s == Reserved || s == InProgress
  }

  /** The state machine as data. */
  const LEGAL_TRANSITIONS: seq<(Status, Status)> := FROM_START + FROM_WORK

  const FROM_START: seq<(Status, Status)> := [
    (Created, Ready), (Created, Reserved), (Created, Error),
    (Ready, Reserved), (Ready, Suspended), (Ready, Obsolete), (Ready, Exited),
    (Reserved, Ready), (Reserved, InProgress), (Reserved, Reserved),
    (Reserved, Suspended), (Reserved, Obsolete), (Reserved, Exited)]

  const FROM_WORK: seq<(Status, Status)> := [
    (InProgress, Reserved), (InProgress, Completed), (InProgress, Failed),
    (InProgress, Error), (InProgress, Suspended), (InProgress, Exited),
    (Suspended, Ready), (Suspended, Reserved), (Suspended, InProgress), (Suspended, Exited)]

  /** The index over it: where each status leads. */
  predicate CanTransition(from: Status, to: Status) {
    match from
    case Created => to == Ready || to == Reserved || to == Error
    case Ready => to == Reserved || to == Suspended || to == Obsolete || to == Exited
    case Reserved => to == Ready || to == InProgress || to == Reserved || to == Suspended || to == Obsolete || to == Exited
    case InProgress => to == Reserved || to == Completed || to == Failed || to == Error || to == Suspended || to == Exited
    case Suspended => to == Ready || to == Reserved || to == InProgress || to == Exited
    case _ => false
  }

  /** The index answers exactly what the table lists. */
  lemma IndexIsTable(from: Status, to: Status)
    ensures CanTransition(from, to) <==> (from, to) in LEGAL_TRANSITIONS
  {
    FromStart(from, to);
    FromWork(from, to);
  }

  lemma FromStart(from: Status, to: Status)
    ensures (from, to) in FROM_START <==> CanTransition(from, to) && (from == Created || from == Ready || from == Reserved)
  {
  }

  lemma FromWork(from: Status, to: Status)
    ensures (from, to) in FROM_WORK <==> CanTransition(from, to) && (from == InProgress || from == Suspended)
  {
  }

  datatype Operation =
    | OpCreate | OpClaim | OpRelease | OpStart | OpSaveProgress | OpComplete | OpFail
    | OpDelegate | OpSuspend | OpResume | OpEscalate | OpCancel | OpObsolete | OpFault

  /** The closed event catalogue; a progress save has no member. */
  datatype EventType =
    | TaskCreated | TaskClaimed | TaskReleased | TaskStarted | TaskDelegated | TaskCompleted | TaskFailed
    | TaskSuspended | TaskResumed | TaskEscalated | TaskCancelled | TaskObsoleted | TaskErrored | NoEvent

  function EventTypeOf(op: Operation): EventType {
    match op
    case OpCreate => TaskCreated
    case OpClaim => TaskClaimed
    case OpRelease => TaskReleased
    case OpStart => TaskStarted
    case OpSaveProgress => NoEvent
    case OpComplete => TaskCompleted
    case OpFail => TaskFailed
    case OpDelegate => TaskDelegated
    case OpSuspend => TaskSuspended
    case OpResume => TaskResumed
    case OpEscalate => TaskEscalated
    case OpCancel => TaskCancelled
    case OpObsolete => TaskObsoleted
    case OpFault => TaskErrored
  }

  datatype Pool = Pool(users: seq<string>, groups: seq<string>, excluded: seq<string>)

  datatype EscalationAction = Notify | Widen | Supersede

  datatype Policy = Policy(
    action: EscalationAction,
    addUsers: seq<string>,
    addGroups: seq<string>,
    exemptInProgress: bool,
    maxEscalations: int)

  type TaskId = string

  /** Payloads, correlation and callback are opaque to the engine; `fixed` stands for the ones no operation sets. */
  datatype Task = Task(
    id: TaskId,
    taskType: string,
    version: int,
    status: Status,
    suspendedFrom: Option<Status>,
    priority: int,
    assignee: string,
    candidates: Pool,
    fixed: string,
    escalation: Option<Policy>,
    progress: string,
    output: string,
    reason: string,
    createdBy: string,
    escalationCount: nat,
    createdAt: Time,
    updatedAt: Time,
    dueAt: Option<Time>,
    startedAt: Option<Time>,
    closedAt: Option<Time>,
    escalatedAt: Option<Time>,
    lockedBy: string,
    lockedUntil: Option<Time>)

  datatype TransitionRecord = TransitionRecord(
    taskId: TaskId, version: int, operation: Operation, from: Status, to: Status,
    actor: string, comment: string, at: Time)

  datatype Event = Event(
    id: string,
    kind: EventType,
    taskId: TaskId,
    status: Status,
    version: int,
    actor: string,
    assignee: string,
    candidates: Pool,
    previousAssignee: string,
    occurredAt: Time,
    transition: TransitionRecord,
    output: string)

  datatype Refusal =
    | Illegal(from: Status, to: Status)
    | Unauthorized
    | Invalid
    | Conflict(expected: int, current: int)
    | NotFound
    | Fault

  /** A transition's outcome: the next task and its event, not yet stamped with an identifier. */
  datatype Move = Move(next: Task, event: Event)

  predicate RequireFrom(t: Task, to: Status, from: set<Status>) {
    t.status in from && CanTransition(t.status, to)
  }

  /** No one may act for the assignee; a pooled task has none. */
  predicate IsAssignee(t: Task, actor: string) {
    actor != "" && t.assignee != "" && t.assignee == actor
  }

  predicate IsAssigneeIfHeld(t: Task, actor: string) {
    if t.assignee == "" then actor != "" else IsAssignee(t, actor)
  }

  /** A task reaching a terminal state is closed and loses its lease. */
  function Sealed(t: Task, at: Time): Task {
    if !Terminal(t.status) then t
    else t.(closedAt := if t.closedAt.None? then Some(at) else t.closedAt, lockedBy := "", lockedUntil := None)
  }

  /** `record`: `changed` is the task with the operation's own changes, its status included. */
  function Record(t: Task, op: Operation, changed: Task, actor: string, comment: string, now: Time): Move {
    var next := Sealed(changed.(version := t.version + 1, updatedAt := now), now);
    var transition := TransitionRecord(t.id, next.version, op, t.status, next.status, actor, comment, now);
    Move(next,
         Event("", EventTypeOf(op), next.id, next.status, next.version, actor, next.assignee, next.candidates,
               if t.assignee != "" && t.assignee != next.assignee then t.assignee else "",
               now, transition, if op == OpComplete then next.output else ""))
  }

  function Activate(t: Task, actor: string, assignee: string, now: Time): Result<Move, Refusal> {
    var to := if assignee == "" then Ready else Reserved;
    if !RequireFrom(t, to, {Created}) then Err(Illegal(t.status, to))
    else Ok(Record(t, OpCreate, t.(status := to, assignee := assignee), actor, "", now))
  }

  function FaultTask(t: Task, reason: string, now: Time): Result<Move, Refusal> {
    if !RequireFrom(t, Error, {Created, InProgress}) then Err(Illegal(t.status, Error))
    else Ok(Record(t, OpFault, t.(status := Error, reason := reason), "", reason, now))
  }

  function Claim(t: Task, actor: string, now: Time): Result<Move, Refusal> {
    if !RequireFrom(t, Reserved, {Ready}) then Err(Illegal(t.status, Reserved))
    else if actor == "" then Err(Unauthorized)
    else Ok(Record(t, OpClaim, t.(status := Reserved, assignee := actor), actor, "", now))
  }

  function Release(t: Task, actor: string, comment: string, now: Time): Result<Move, Refusal> {
    if !RequireFrom(t, Ready, {Reserved}) then Err(Illegal(t.status, Ready))
    else if !IsAssignee(t, actor) then Err(Unauthorized)
    else Ok(Record(t, OpRelease, t.(status := Ready, assignee := ""), actor, comment, now))
  }

  function Start(t: Task, actor: string, now: Time): Result<Move, Refusal> {
    if !RequireFrom(t, InProgress, {Reserved}) then Err(Illegal(t.status, InProgress))
    else if !IsAssignee(t, actor) then Err(Unauthorized)
    else Ok(Record(t, OpStart,
                   t.(status := InProgress, startedAt := if t.startedAt.None? then Some(now) else t.startedAt),
                   actor, "", now))
  }

  function Complete(t: Task, actor: string, output: string, comment: string, now: Time): Result<Move, Refusal> {
    if !RequireFrom(t, Completed, {InProgress}) then Err(Illegal(t.status, Completed))
    else if !IsAssignee(t, actor) then Err(Unauthorized)
    else Ok(Record(t, OpComplete, t.(status := Completed, output := output), actor, comment, now))
  }

  function Fail(t: Task, actor: string, reason: string, now: Time): Result<Move, Refusal> {
    if !RequireFrom(t, Failed, {InProgress}) then Err(Illegal(t.status, Failed))
    else if !IsAssignee(t, actor) then Err(Unauthorized)
    else Ok(Record(t, OpFail, t.(status := Failed, reason := reason), actor, reason, now))
  }

  function Delegate(t: Task, actor: string, target: string, comment: string, now: Time): Result<Move, Refusal> {
    if !RequireFrom(t, Reserved, {Reserved, InProgress}) then Err(Illegal(t.status, Reserved))
    else if !IsAssignee(t, actor) then Err(Unauthorized)
    else if target == "" then Err(Invalid)
    else Ok(Record(t, OpDelegate, t.(status := Reserved, assignee := target), actor, comment, now))
  }

  function Suspend(t: Task, actor: string, comment: string, now: Time): Result<Move, Refusal> {
    if !RequireFrom(t, Suspended, {Ready, Reserved, InProgress}) then Err(Illegal(t.status, Suspended))
    else if !IsAssigneeIfHeld(t, actor) then Err(Unauthorized)
    else Ok(Record(t, OpSuspend, t.(status := Suspended, suspendedFrom := Some(t.status)), actor, comment, now))
  }

  function Resume(t: Task, actor: string, comment: string, now: Time): Result<Move, Refusal> {
    if t.suspendedFrom.None? || !Suspendable(t.suspendedFrom.value) then Err(Illegal(t.status, t.status))
    else
      var to := t.suspendedFrom.value;
      if !RequireFrom(t, to, {Suspended}) then Err(Illegal(t.status, to))
      else if !IsAssigneeIfHeld(t, actor) then Err(Unauthorized)
      else Ok(Record(t, OpResume, t.(status := to, suspendedFrom := None), actor, comment, now))
  }

  /** `appendMissing`: the entries of `extra` that `base` lacks, after it. */
  function AppendMissing(base: seq<string>, extra: seq<string>): seq<string>
    decreases |extra|
  {
    if extra == [] then base
    else
      var out, last := AppendMissing(base, extra[..|extra| - 1]), extra[|extra| - 1];
      if last in out then out else out + [last]
  }

  function Widened(pool: Pool, policy: Policy): Pool {
    pool.(users := AppendMissing(pool.users, policy.addUsers), groups := AppendMissing(pool.groups, policy.addGroups))
  }

  function Escalate(t: Task, actor: string, policy: Option<Policy>, comment: string, now: Time): Result<Move, Refusal> {
    if policy.Some? && policy.value.action == Supersede then MakeObsolete(t, actor, comment, now)
    else if !Suspendable(t.status) then Err(Illegal(t.status, t.status))
    else
      var pool := if policy.Some? && policy.value.action == Widen then Widened(t.candidates, policy.value) else t.candidates;
      Ok(Record(t, OpEscalate,
                t.(escalationCount := t.escalationCount + 1, escalatedAt := Some(now), candidates := pool),
                actor, comment, now))
  }

  function MakeObsolete(t: Task, actor: string, reason: string, now: Time): Result<Move, Refusal> {
    if !RequireFrom(t, Obsolete, {Ready, Reserved}) then Err(Illegal(t.status, Obsolete))
    else Ok(Record(t, OpObsolete, t.(status := Obsolete, reason := reason), actor, reason, now))
  }

  function Cancel(t: Task, actor: string, reason: string, now: Time): Result<Move, Refusal> {
    if !RequireFrom(t, Exited, {Ready, Reserved, InProgress, Suspended}) then Err(Illegal(t.status, Exited))
    else Ok(Record(t, OpCancel, t.(status := Exited, reason := reason), actor, reason, now))
  }

  /** The move a progress save makes: the first one starts the task, later ones stay where they are. */
  function SaveProgress(t: Task, actor: string, merged: string, comment: string, now: Time): Result<Move, Refusal> {
    if t.status == Reserved && !RequireFrom(t, InProgress, {Reserved}) then Err(Illegal(t.status, InProgress))
    else if t.status != Reserved && t.status != InProgress then Err(Illegal(t.status, InProgress))
    else if !IsAssignee(t, actor) then Err(Unauthorized)
    else
      var started := if t.status == Reserved && t.startedAt.None? then Some(now) else t.startedAt;
      Ok(Record(t, OpSaveProgress, t.(status := InProgress, progress := merged, startedAt := started), actor, comment, now))
  }
}
