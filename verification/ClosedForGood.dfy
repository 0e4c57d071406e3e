/**
 * Once a task's final event has been projected, its notifications stay closed, in whatever order and
 * however often the task's events are delivered, for as long as the task's watermark is kept.
 */
module ClosedForGood {
  import opened Basics
  import opened Notifications
  import opened NotificationStore
  import opened NotificationRuns
  import V = NotificationView
  import P = Projection
  import R = Redelivery
  import L = Lifecycle

  /** No notification on the subject is newer than `last`. */
  ghost predicate Bounded(s: Store, subject: string, last: int) {
    forall id :: id in s.notifications && s.notifications[id].subject == subject ==> s.notifications[id].version <= last
  }

  /** Every notification on the subject is closed, and nothing older than `last` is admitted. */
  ghost predicate Shut(s: Store, subject: string, last: int) {
    && (subject, ALL_KINDS) in s.watermarks && last <= s.watermarks[(subject, ALL_KINDS)].version
    && forall id :: id in s.notifications && s.notifications[id].subject == subject ==> s.notifications[id].state == Closed
  }

  /** An operation that publishes on the subject only below `last`. */
  ghost predicate Under(op: Op, subject: string, last: int) {
    match op
    case Inserting(on, ins) => on == subject ==> forall i :: 0 <= i < |ins| ==> ins[i].notification.version < last
    case Closing(req, _, _) => req.subject == subject && req.successor.Some? ==> req.successor.value.version < last
    case _ => true
  }

  /** The close a closing status plans. */
  predicate Final(op: Op, subject: string, last: int) {
    op.Closing? && op.req.subject == subject && op.req.kinds == [] && op.req.version == last &&
    op.req.except == "" && op.req.successor.None?
  }

  lemma {:induction false} InsertStays(s: Store, subject: string, last: int, on: string, ins: seq<Insertion>)
    requires Under(Inserting(on, ins), subject, last)
    ensures Bounded(s, subject, last) ==> Bounded(Insert(s, on, ins), subject, last)
    ensures Shut(s, subject, last) ==> Shut(Insert(s, on, ins), subject, last)
    decreases |ins|
  {
    if ins != [] {
      InsertStays(s, subject, last, on, ins[..|ins| - 1]);
    }
  }

  lemma CloseStays(s: Store, used: set<Id>, subject: string, last: int, op: Op)
    requires op.Closing? && s.notifications.Keys <= used && Proper(s, used, op) && Under(op, subject, last)
    ensures Bounded(s, subject, last) ==> Bounded(Apply(s, op), subject, last)
    ensures Shut(s, subject, last) ==> Shut(Apply(s, op), subject, last)
    ensures Bounded(s, subject, last) && Final(op, subject, last) ==> Shut(Apply(s, op), subject, last)
  {
    var req, t := op.req, Apply(s, op);
    assert MarkVersion(s.watermarks, (subject, ALL_KINDS)) <= MarkVersion(t.watermarks, (subject, ALL_KINDS));
    forall id | id in t.notifications && t.notifications[id].subject == subject
      ensures Bounded(s, subject, last) ==> t.notifications[id].version <= last
      ensures Shut(s, subject, last) || (Bounded(s, subject, last) && Final(op, subject, last)) ==> t.notifications[id].state == Closed
    {
      CloseAt(s, used, req, op.at, op.ids, id);
    }
  }

  lemma OtherStays(s: Store, subject: string, last: int, op: Op)
    requires !op.Inserting? && !op.Closing?
    ensures Bounded(s, subject, last) ==> Bounded(Apply(s, op), subject, last)
    ensures Shut(s, subject, last) && (subject, ALL_KINDS) in Apply(s, op).watermarks ==> Shut(Apply(s, op), subject, last)
  {
  }

  lemma StepStays(s: Store, used: set<Id>, subject: string, last: int, op: Op, t: Store)
    requires s.notifications.Keys <= used && Proper(s, used, op) && Under(op, subject, last) && t == Apply(s, op)
    ensures Bounded(s, subject, last) ==> Bounded(t, subject, last)
    ensures Bounded(s, subject, last) && Final(op, subject, last) ==> Shut(t, subject, last)
    ensures Shut(s, subject, last) && (subject, ALL_KINDS) in t.watermarks ==> Shut(t, subject, last)
  {
    match op
    case Inserting(on, ins) => InsertStays(s, subject, last, on, ins);
    case Closing(_, _, _) => CloseStays(s, used, subject, last, op);
    case _ => OtherStays(s, subject, last, op);
  }

  /** A run in which the subject is published on only below `last`. */
  ghost predicate UnderRun(states: seq<Store>, used: seq<set<Id>>, ops: seq<Op>, subject: string, last: int) {
    IsRun(states, used, ops) && forall i :: 0 <= i < |ops| ==> Under(ops[i], subject, last)
  }

  lemma RunStep(states: seq<Store>, used: seq<set<Id>>, ops: seq<Op>, subject: string, last: int, i: nat)
    requires UnderRun(states, used, ops, subject, last) && i < |ops|
    ensures Bounded(states[i], subject, last) ==> Bounded(states[i + 1], subject, last)
    ensures Bounded(states[i], subject, last) && Final(ops[i], subject, last) ==> Shut(states[i + 1], subject, last)
    ensures Shut(states[i], subject, last) && (subject, ALL_KINDS) in states[i + 1].watermarks ==>
              Shut(states[i + 1], subject, last)
  {
    RunDated(states, used, ops, i);
    assert Follows(states[i], used[i], ops[i], states[i + 1], used[i + 1]);
    StepStays(states[i], used[i], subject, last, ops[i], states[i + 1]);
  }

  lemma {:induction false} RunBounded(states: seq<Store>, used: seq<set<Id>>, ops: seq<Op>, subject: string, last: int, i: nat)
    requires UnderRun(states, used, ops, subject, last) && i <= |ops|
    ensures Bounded(states[i], subject, last)
  {
    if i > 0 {
      RunBounded(states, used, ops, subject, last, i - 1);
      RunStep(states, used, ops, subject, last, i - 1);
    }
  }

  /** After the final close, at every later moment at which the watermark has been kept, all are closed. */
  lemma {:induction false} StaysShut(
      states: seq<Store>, used: seq<set<Id>>, ops: seq<Op>, subject: string, last: int, k: nat, j: nat)
    requires UnderRun(states, used, ops, subject, last) && k < j <= |ops| && Final(ops[k], subject, last)
    requires forall i :: k < i <= j ==> (subject, ALL_KINDS) in states[i].watermarks
    ensures Shut(states[j], subject, last)
  {
    if j == k + 1 {
      RunBounded(states, used, ops, subject, last, k);
      RunStep(states, used, ops, subject, last, k);
    } else {
      StaysShut(states, used, ops, subject, last, k, j - 1);
      RunStep(states, used, ops, subject, last, j - 1);
    }
  }

  // ---------------------------------------------------------------- the projection's steps

  /** The store operation a planned step calls. */
  ghost function OpOf(a: V.Step, m: R.Mint): Op
    requires a.PublishStep? ==> |m.ids| == |a.drafts|
  {
    match a
    case PublishStep(ds) => Inserting(R.SubjectOf(ds), V.Stamped(ds, m.ids, m.at))
    case CloseStep(req) => Closing(req, m.at, m.names)
  }

  /** The final event: its status closes the task, at the task's last version. */
  predicate Closes(input: P.Input, closing: set<L.Status>, subject: string, last: int) {
    input.event.taskId == subject && input.event.version == last && input.event.status in closing
  }

  /** An event of another task, an earlier event of this one, or its final event. */
  predicate Known(input: P.Input, closing: set<L.Status>, subject: string, last: int) {
    input.event.taskId != subject || input.event.version < last || Closes(input, closing, subject, last)
  }

  lemma PlannedUnder(input: P.Input, closing: set<L.Status>, size: nat, subject: string, last: int, a: V.Step, m: R.Mint)
    requires size > 0 && Known(input, closing, subject, last) && a in P.PlanOf(input, closing, size)
    requires a.PublishStep? ==> |m.ids| == |a.drafts|
    ensures Under(OpOf(a, m), subject, last)
    ensures Closes(input, closing, subject, last) ==> Final(OpOf(a, m), subject, last)
  {
    P.DefaultPlanCoherent(input, closing);
    P.CallsKeep(P.DefaultPlan(input, closing), size, input.event.taskId, input.event.version);
    assert P.Plain(a, input.event.taskId, input.event.version);
    if Closes(input, closing, subject, last) {
      var b :| b in P.DefaultPlan(input, closing) && P.Narrows(a, b);
      assert a == b;
    } else {
      assert a.PublishStep? && a.drafts != [] ==> a.drafts[0] in a.drafts;
    }
  }

  /** The operation runs a step planned for the event. */
  ghost predicate Runs(op: Op, input: P.Input, a: V.Step, m: R.Mint, closing: set<L.Status>, size: nat)
    requires size > 0
  {
    a in P.PlanOf(input, closing, size) && (a.PublishStep? ==> |m.ids| == |a.drafts|) && op == OpOf(a, m)
  }

  /** What an operation of a projecting store is: a step planned for a known event, a read or a prune. */
  ghost predicate Projected(op: Op, closing: set<L.Status>, size: nat, subject: string, last: int)
    requires size > 0
  {
    || op.Marking? || op.MarkingAll? || op.Pruning?
    || exists input, a, m :: Known(input, closing, subject, last) && Runs(op, input, a, m, closing, size)
  }

  /** Running the final event's plan. */
  ghost predicate Terminates(op: Op, closing: set<L.Status>, size: nat, subject: string, last: int)
    requires size > 0
  {
    exists input, a, m :: Closes(input, closing, subject, last) && Runs(op, input, a, m, closing, size)
  }

  /**
   * Closed stays closed: events of a task and of others, in any order, any number of times and cut short
   * anywhere, with reads and prunes in between.
   */
  lemma ClosedStaysClosed(
      states: seq<Store>, used: seq<set<Id>>, ops: seq<Op>, closing: set<L.Status>, size: nat,
      subject: string, last: int, k: nat, j: nat, id: Id)
    requires size > 0 && IsRun(states, used, ops) && k < j <= |ops|
    requires forall i :: 0 <= i < |ops| ==> Projected(ops[i], closing, size, subject, last)
    requires Terminates(ops[k], closing, size, subject, last)
    requires forall i :: k < i <= j ==> (subject, ALL_KINDS) in states[i].watermarks
    requires id in states[j].notifications && states[j].notifications[id].subject == subject
    ensures states[j].notifications[id].state == Closed
  {
    forall i | 0 <= i < |ops| ensures Under(ops[i], subject, last) {
      if !(ops[i].Marking? || ops[i].MarkingAll? || ops[i].Pruning?) {
        var input, a, m :| Known(input, closing, subject, last) && Runs(ops[i], input, a, m, closing, size);
        PlannedUnder(input, closing, size, subject, last, a, m);
      }
    }
    var input, a, m :| Closes(input, closing, subject, last) && Runs(ops[k], input, a, m, closing, size);
    PlannedUnder(input, closing, size, subject, last, a, m);
    StaysShut(states, used, ops, subject, last, k, j);
  }
}
