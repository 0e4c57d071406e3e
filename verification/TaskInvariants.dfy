/**
 * What holds of every task in every committed state, and of every change to one
 * (transitions.go, transition_table.go, service.go).
 */
module TaskInvariants {
  import opened Basics
  import opened Lifecycle
  import opened Eligibility
  import opened TaskDb

  /** Someone holds the task, and is not excluded from it. */
  predicate Held(t: Task) {
    t.assignee != "" && t.assignee !in t.candidates.excluded
  }

  /** What a live status demands of the rest of the task. */
  predicate Fits(t: Task, s: Status) {
    && (s == Ready ==> t.assignee == "")
    && (s == Reserved || s == InProgress ==> Held(t))
    && (s == InProgress ==> t.startedAt.Some?)
  }

  /** The invariant of stored tasks. A cancelled task may still name the state it was suspended from. */
  predicate Good(t: Task) {
    && t.id != ""
    && t.status != Created
    && Fits(t, t.status)
    && (t.status == Suspended ==> t.suspendedFrom.Some? && Suspendable(t.suspendedFrom.value) && Fits(t, t.suspendedFrom.value))
    && (Suspendable(t.status) ==> t.suspendedFrom.None?)
    && (Terminal(t.status) ==> t.closedAt.Some? && t.lockedBy == "" && t.lockedUntil.None?)
  }

  /** What no operation changes. */
  predicate Constant(a: Task, b: Task) {
    && a.id == b.id && a.taskType == b.taskType && a.priority == b.priority && a.dueAt == b.dueAt
    && a.fixed == b.fixed && a.escalation == b.escalation && a.createdBy == b.createdBy && a.createdAt == b.createdAt
    && a.candidates.excluded == b.candidates.excluded
    && (a.startedAt.Some? ==> b.startedAt == a.startedAt)
    && a.escalationCount <= b.escalationCount
  }

  /** A recorded pair is in the table, or is an escalation that stays where it is; and it is its operation's own. */
  predicate LegalRecord(r: TransitionRecord) {
    && (CanTransition(r.from, r.to) || (r.operation == OpEscalate && r.from == r.to && Suspendable(r.from)))
    && OperationFits(r.operation, r.from, r.to)
  }

  /** From where to where each operation takes a task. */
  predicate OperationFits(op: Operation, from: Status, to: Status) {
    match op
    case OpCreate => from == Created && (to == Ready || to == Reserved)
    case OpFault => from == Created && to == Error
    case OpClaim => from == Ready && to == Reserved
    case OpRelease => from == Reserved && to == Ready
    case OpStart => from == Reserved && to == InProgress
    case OpSaveProgress => from == Reserved && to == InProgress
    case OpComplete => from == InProgress && to == Completed
    case OpFail => from == InProgress && to == Failed
    case OpDelegate => (from == Reserved || from == InProgress) && to == Reserved
    case OpSuspend => Suspendable(from) && to == Suspended
    case OpResume => from == Suspended && Suspendable(to)
    case OpEscalate => Suspendable(from) && to == from
    case OpCancel => (Suspendable(from) || from == Suspended) && to == Exited
    case OpObsolete => (from == Ready || from == Reserved) && to == Obsolete
  }

  /**
   * A change describes itself truthfully: one version on, record and event say from where to where, only
   * an escalation counts as one, and a lease ends only with the task. The task remembers where it was
   * suspended from exactly while it is, and when it is cancelled from there.
   */
  predicate Described(t: Task, c: Change) {
    && c.next.version == t.version + 1
    && (c.next.escalationCount == t.escalationCount ||
        (c.next.escalationCount == t.escalationCount + 1 && c.record.Some? && c.record.value.operation == OpEscalate))
    && (Terminal(c.next.status) || c.next.lockedUntil == t.lockedUntil)
    && (c.next.suspendedFrom.Some? <==>
          c.next.status == Suspended || (t.status == Suspended && c.next.status == Exited))
    && (c.record.Some? ==>
          var r := c.record.value;
          r.taskId == t.id && r.version == c.next.version && r.from == t.status && r.to == c.next.status && LegalRecord(r))
    && (c.event.Some? ==>
          var e := c.event.value;
          c.record == Some(e.transition) && e.taskId == t.id && e.version == c.next.version &&
          e.status == c.next.status && e.assignee == c.next.assignee && e.candidates == c.next.candidates &&
          e.previousAssignee == (if t.assignee == c.next.assignee then "" else t.assignee) &&
          e.kind == EventTypeOf(e.transition.operation) && e.transition.operation != OpSaveProgress)
    && (c.event.None? ==>
          c.next.status == InProgress && (c.record.None? <==> t.status == InProgress) &&
          (c.record.Some? ==> c.record.value.operation == OpSaveProgress))
  }

  lemma ReservingGood(ports: Ports, t: Task, req: Request, now: Time)
    requires Good(t) && (req.command.Claiming? || req.command.Delegating?) && Step(ports, t, req, now).Ok?
    ensures var c := Step(ports, t, req, now).value; Good(c.next) && Constant(t, c.next) && Described(t, c)
  {
  }

  lemma SavingGood(ports: Ports, t: Task, req: Request, now: Time)
    requires Good(t) && req.command.Saving? && Step(ports, t, req, now).Ok?
    ensures var c := Step(ports, t, req, now).value; Good(c.next) && Constant(t, c.next) && Described(t, c)
  {
  }

  lemma MovingGood(ports: Ports, t: Task, req: Request, now: Time)
    requires Good(t) && (req.command.Releasing? || req.command.Starting?) && Step(ports, t, req, now).Ok?
    ensures var c := Step(ports, t, req, now).value; Good(c.next) && Constant(t, c.next) && Described(t, c)
  {
  }

  lemma SuspendingGood(ports: Ports, t: Task, req: Request, now: Time)
    requires Good(t) && req.command.Suspending? && Step(ports, t, req, now).Ok?
    ensures var c := Step(ports, t, req, now).value; Good(c.next) && Constant(t, c.next) && Described(t, c)
  {
  }

  lemma ResumingGood(ports: Ports, t: Task, req: Request, now: Time)
    requires Good(t) && req.command.Resuming? && Step(ports, t, req, now).Ok?
    ensures var c := Step(ports, t, req, now).value; Good(c.next) && Constant(t, c.next) && Described(t, c)
  {
  }

  lemma CancellingGood(ports: Ports, t: Task, req: Request, now: Time)
    requires Good(t) && req.command.Cancelling? && Step(ports, t, req, now).Ok?
    ensures var c := Step(ports, t, req, now).value; Good(c.next) && Constant(t, c.next) && Described(t, c)
  {
  }

  lemma EndingGood(ports: Ports, t: Task, req: Request, now: Time)
    requires Good(t) && (req.command.Completing? || req.command.Failing?) && Step(ports, t, req, now).Ok?
    ensures var c := Step(ports, t, req, now).value; Good(c.next) && Constant(t, c.next) && Described(t, c)
  {
  }

  lemma EscalatingGood(ports: Ports, t: Task, req: Request, now: Time)
    requires Good(t) && req.command.Escalating? && Step(ports, t, req, now).Ok?
    ensures var c := Step(ports, t, req, now).value; Good(c.next) && Constant(t, c.next) && Described(t, c)
  {
    var policy := PolicyFor(ports, t);
    if policy.Some? && policy.value.action == Supersede {
      assert MakeObsolete(t, req.actor, req.comment, now).Ok?;
    }
  }

  /** Every accepted request keeps the invariant, the constants and a truthful account of itself. */
  lemma StepGood(ports: Ports, t: Task, req: Request, now: Time)
    requires Good(t) && Step(ports, t, req, now).Ok?
    ensures var c := Step(ports, t, req, now).value; Good(c.next) && Constant(t, c.next) && Described(t, c)
  {
    match req.command
    case Claiming => ReservingGood(ports, t, req, now);
    case Delegating(_) => ReservingGood(ports, t, req, now);
    case Releasing => MovingGood(ports, t, req, now);
    case Starting => MovingGood(ports, t, req, now);
    case Saving(_) => SavingGood(ports, t, req, now);
    case Suspending => SuspendingGood(ports, t, req, now);
    case Resuming => ResumingGood(ports, t, req, now);
    case Escalating => EscalatingGood(ports, t, req, now);
    case Cancelling => CancellingGood(ports, t, req, now);
    case _ => EndingGood(ports, t, req, now);
  }

  /** Who holds the task after a request: only a claim, a delegation and a release change it. */
  function HolderAfter(t: Task, req: Request): string {
    match req.command
    case Claiming => req.actor
    case Delegating(target) => target
    case Releasing => ""
    case _ => t.assignee
  }

  /** What else a request may touch: the pool by escalating, the draft by saving, the output by completing. */
  predicate TouchesOnly(t: Task, next: Task, req: Request) {
    && next.assignee == HolderAfter(t, req)
    && (!req.command.Escalating? ==> next.candidates == t.candidates && next.escalatedAt == t.escalatedAt)
    && (!req.command.Saving? ==> next.progress == t.progress)
    && (!req.command.Completing? ==> next.output == t.output)
    && (req.command.Saving? ==> req.command.merged == Some(next.progress))
    && (req.command.Completing? ==> next.output == req.command.output)
  }

  lemma HoldingFrame(ports: Ports, t: Task, req: Request, now: Time)
    requires req.command.Claiming? || req.command.Delegating? || req.command.Releasing? || req.command.Starting?
    requires Step(ports, t, req, now).Ok?
    ensures TouchesOnly(t, Step(ports, t, req, now).value.next, req) && Step(ports, t, req, now).value.next.updatedAt == now
  {
  }

  lemma PausingFrame(ports: Ports, t: Task, req: Request, now: Time)
    requires req.command.Suspending? || req.command.Resuming? || req.command.Saving?
    requires Step(ports, t, req, now).Ok?
    ensures TouchesOnly(t, Step(ports, t, req, now).value.next, req) && Step(ports, t, req, now).value.next.updatedAt == now
  {
  }

  lemma EscalatingFrame(ports: Ports, t: Task, req: Request, now: Time)
    requires req.command.Escalating? && Step(ports, t, req, now).Ok?
    ensures TouchesOnly(t, Step(ports, t, req, now).value.next, req) && Step(ports, t, req, now).value.next.updatedAt == now
  {
  }

  lemma EndingFrame(ports: Ports, t: Task, req: Request, now: Time)
    requires req.command.Completing? || req.command.Failing? || req.command.Cancelling?
    requires Step(ports, t, req, now).Ok?
    ensures TouchesOnly(t, Step(ports, t, req, now).value.next, req) && Step(ports, t, req, now).value.next.updatedAt == now
  {
  }

  /** Each accepted request changes its own part of the task and leaves the others'. */
  lemma StepFrame(ports: Ports, t: Task, req: Request, now: Time)
    requires Step(ports, t, req, now).Ok?
    ensures TouchesOnly(t, Step(ports, t, req, now).value.next, req) && Step(ports, t, req, now).value.next.updatedAt == now
  {
    match req.command
    case Claiming => HoldingFrame(ports, t, req, now);
    case Delegating(_) => HoldingFrame(ports, t, req, now);
    case Releasing => HoldingFrame(ports, t, req, now);
    case Starting => HoldingFrame(ports, t, req, now);
    case Suspending => PausingFrame(ports, t, req, now);
    case Resuming => PausingFrame(ports, t, req, now);
    case Saving(_) => PausingFrame(ports, t, req, now);
    case Escalating => EscalatingFrame(ports, t, req, now);
    case _ => EndingFrame(ports, t, req, now);
  }

  /** A new task was stored soundly. */
  predicate Placed(t: Task, m: Move) {
    && Good(m.next) && Constant(t, m.next) && m.next.status in {Ready, Reserved, Error}
    && Described(t, Change(m.next, Some(m.event), Some(m.event.transition)))
  }

  lemma ActivateGood(t: Task, actor: string, assignee: string, now: Time)
    requires Fresh(t) && (assignee != "" ==> assignee !in t.candidates.excluded)
    ensures Activate(t, actor, assignee, now).Ok? && Placed(t, Activate(t, actor, assignee, now).value)
  {
  }

  lemma FaultGood(t: Task, reason: string, now: Time)
    requires Fresh(t)
    ensures FaultTask(t, reason, now).Ok? && Placed(t, FaultTask(t, reason, now).value)
  {
  }

  /** A new task is always stored: RESERVED for someone in its pool, READY, or ERROR. */
  lemma AssignGood(directory: Option<Directory>, choice: Choice, t: Task, now: Time)
    requires Fresh(t)
    ensures Assign(directory, choice, t, now).Ok? && Placed(t, Assign(directory, choice, t, now).value)
  {
    if !Resolvable(directory, t.candidates) {
      FaultGood(t, "candidate resolution failed", now);
    } else if !Anyone(directory, t.candidates) {
      FaultGood(t, "no actor is eligible for this task", now);
    } else if choice.Refuses? {
      FaultGood(t, "assignment strategy failed", now);
    } else if choice.actor != "" && !InPool(directory, t.candidates, choice.actor) {
      FaultGood(t, "assignment strategy chose an ineligible actor", now);
    } else {
      ActivateGood(t, t.createdBy, choice.actor, now);
    }
  }

  /** A closed task accepts nothing. */
  lemma TerminalAcceptsNothing(ports: Ports, t: Task, req: Request, now: Time)
    requires Terminal(t.status)
    ensures Step(ports, t, req, now).Err?
  {
    NothingFromTerminal(t.status);
  }

  lemma NothingFromTerminal(s: Status)
    requires Terminal(s)
    ensures forall to :: !CanTransition(s, to)
  {
  }

  /** Resuming undoes suspending, up to the version and the update time. */
  lemma ResumeUndoesSuspend(t: Task, actor: string, again: string, comment: string, now: Time, later: Time)
    requires Good(t) && Suspend(t, actor, comment, now).Ok?
    requires IsAssigneeIfHeld(t, again)
    ensures var suspended := Suspend(t, actor, comment, now).value.next;
            Resume(suspended, again, comment, later).Ok? &&
            Resume(suspended, again, comment, later).value.next == t.(version := t.version + 2, updatedAt := later)
  {
  }

  /**
   * Which accepted requests leave a task with the state it was suspended from: those that leave it
   * SUSPENDED, and the cancellation of a suspended task.
   */
  lemma SuspendedFromExact(ports: Ports, t: Task, req: Request, now: Time)
    requires Good(t) && Step(ports, t, req, now).Ok?
    ensures var c := Step(ports, t, req, now).value;
            (c.next.suspendedFrom.Some? <==>
               c.next.status == Suspended || (t.status == Suspended && req.command.Cancelling?)) &&
            (t.status == Suspended && req.command.Cancelling? ==> c.next.suspendedFrom == t.suspendedFrom)
  {
    StepGood(ports, t, req, now);
    if t.status == Suspended {
      OnlyCancelExits(ports, t, req, now);
    }
  }

  lemma OnlyCancelExits(ports: Ports, t: Task, req: Request, now: Time)
    requires Good(t) && t.status == Suspended && Step(ports, t, req, now).Ok?
    ensures Step(ports, t, req, now).value.next.status == Exited <==> req.command.Cancelling?
    ensures req.command.Cancelling? ==> Step(ports, t, req, now).value.next.suspendedFrom == t.suspendedFrom
  {
    match req.command
    case Saving(merged) =>
    case Delegating(target) =>
    case Escalating =>
    case _ =>
  }
}
