/**
 * What a watermark remembers (notify/memory.go): over every run the floor of a kind is the highest version
 * at which that kind was closed, and an insertion is refused for coming too late exactly when it is below.
 */
module Watermarks {
  import opened Basics
  import opened Notifications
  import opened NotificationStore
  import opened NotificationRuns

  /** The operation closes this kind of the subject, by naming it or by naming none. */
  predicate Covers(op: Op, subject: string, kind: string) {
    op.Closing? && op.req.subject == subject && (op.req.kinds == [] || kind in op.req.kinds || ALL_KINDS in op.req.kinds)
  }

  /** The highest version at which the kind was closed, or -1. */
  function HighestClose(ops: seq<Op>, subject: string, kind: string): int {
    if ops == [] then -1
    else
      var before, last := HighestClose(ops[..|ops| - 1], subject, kind), ops[|ops| - 1];
      if Covers(last, subject, kind) && last.req.version > before then last.req.version else before
  }

  lemma {:induction false} InsertLeavesFloor(s: Store, on: string, ins: seq<Insertion>, subject: string, kind: string)
    ensures Floor(Insert(s, on, ins).watermarks, subject, kind) == Floor(s.watermarks, subject, kind)
    decreases |ins|
  {
    if ins != [] {
      InsertLeavesFloor(s, on, ins[..|ins| - 1], subject, kind);
    }
  }

  lemma {:induction false} CloseRaisesFloor(s: Store, req: CloseRequest, at: Time, subject: string, kind: string)
    ensures Floor(CloseMarks(s.watermarks, req, at), subject, kind) ==
            if req.subject == subject && (req.kinds == [] || kind in req.kinds || ALL_KINDS in req.kinds)
            then Max(Floor(s.watermarks, subject, kind), req.version) else Floor(s.watermarks, subject, kind)
  {
    MarkAfterClose(s, req, at, (subject, kind));
    MarkAfterClose(s, req, at, (subject, ALL_KINDS));
  }

  lemma {:induction false} MarkAfterClose(s: Store, req: CloseRequest, at: Time, key: Key)
    ensures Max(-1, MarkVersion(CloseMarks(s.watermarks, req, at), key)) ==
            if key in ClosedKeys(req) then Max(Max(-1, MarkVersion(s.watermarks, key)), req.version)
            else Max(-1, MarkVersion(s.watermarks, key))
  {
  }

  /** In every run that prunes nothing, a kind's floor is the highest version at which it was closed. */
  lemma {:induction false} FloorIsHighestClose(
      states: seq<Store>, used: seq<set<Id>>, ops: seq<Op>, i: nat, subject: string, kind: string)
    requires IsRun(states, used, ops) && i <= |ops| && forall k :: 0 <= k < |ops| ==> !ops[k].Pruning?
    ensures Floor(states[i].watermarks, subject, kind) == HighestClose(ops[..i], subject, kind)
  {
    if i > 0 {
      FloorIsHighestClose(states, used, ops, i - 1, subject, kind);
      assert Follows(states[i - 1], used[i - 1], ops[i - 1], states[i], used[i]);
      assert ops[..i][..i - 1] == ops[..i - 1];
      match ops[i - 1]
      case Inserting(on, ins) => InsertLeavesFloor(states[i - 1], on, ins, subject, kind);
      case Closing(req, at, ids) => CloseRaisesFloor(states[i - 1], req, at, subject, kind);
      case Marking(_, _, _) =>
      case MarkingAll(_, _, _) =>
      case Pruning(_) =>
    }
  }

  /**
   * A notification published alone comes to exist if and only if its kind has not been closed at a later
   * version, its source has not notified the recipient before, and, when it coalesces, the recipient has
   * none of its kind open; and nothing else changes.
   */
  lemma {:induction false} InsertedExactly(
      states: seq<Store>, used: seq<set<Id>>, ops: seq<Op>, i: nat, n: Notification, coalesce: bool)
    requires IsRun(states, used, ops) && i <= |ops| && n.id !in states[i].notifications
    requires forall k :: 0 <= k < |ops| ==> !ops[k].Pruning?
    ensures var s := states[i];
            var t := Insert(s, n.subject, [Insertion(n, coalesce)]);
            && (n.id in t.notifications <==>
                  && HighestClose(ops[..i], n.subject, n.kind) <= n.version
                  && (forall id :: id in s.notifications ==>
                        !(s.notifications[id].sourceId == n.sourceId && s.notifications[id].recipient == n.recipient))
                  && (coalesce ==> forall id :: id in s.notifications ==>
                        !(s.notifications[id].recipient == n.recipient && s.notifications[id].subject == n.subject &&
                          s.notifications[id].kind == n.kind && s.notifications[id].state != Closed)))
            && t.notifications == if n.id in t.notifications then s.notifications[n.id := n] else s.notifications
  {
    FloorIsHighestClose(states, used, ops, i, n.subject, n.kind);
    var s := states[i];
    assert [Insertion(n, coalesce)][..0] == [];
    assert Insert(s, n.subject, []) == s;
    assert n.(subject := n.subject) == n;
  }
}
