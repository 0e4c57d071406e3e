/**
 * What every run of the notification store keeps: a notification only moves forward, open
 * notifications stay at or above their watermark floor, and floors fall only by expiry.
 */
module NotificationRuns {
  import opened Basics
  import opened Notifications
  import opened NotificationStore

  datatype Op =
    | Inserting(subject: string, insertions: seq<Insertion>)
    | Closing(req: CloseRequest, at: Time, ids: string -> Id)
    | Marking(recipient: string, marked: seq<Id>, at: Time)
    | MarkingAll(recipient: string, through: Time, at: Time)
    | Pruning(bounds: PruneRequest)

  ghost function Apply(s: Store, op: Op): Store {
    match op
    case Inserting(subject, ins) => Insert(s, subject, ins)
    case Closing(req, at, ids) => Close(s, req, at, ids)
    case Marking(recipient, ids, at) => s.(notifications := MarkRead(s.notifications, recipient, ids, at))
    case MarkingAll(recipient, through, at) => s.(notifications := MarkAllRead(s.notifications, recipient, through, at))
    case Pruning(bounds) => Prune(s, bounds)
  }

  /** A notification as `Publish` stamps it. */
  predicate New(n: Notification) {
    n.state == Active && n.version >= 0 && n.readAt.None? && n.closedAt.None? && n.inactiveAt.None?
  }

  /** Requests reach the store validated and stamped, and identifiers are never minted twice. */
  ghost predicate Proper(s: Store, used: set<Id>, op: Op) {
    match op
    case Inserting(subject, ins) =>
      && (forall i :: 0 <= i < |ins| ==> New(ins[i].notification) && ins[i].notification.id !in used)
      && (forall i, j :: 0 <= i < j < |ins| ==> ins[i].notification.id != ins[j].notification.id)
    case Closing(req, at, ids) =>
      var rs := Succeeded(s.notifications, CloseMarks(s.watermarks, req, at), req);
      && req.version >= 0 && (req.successor.Some? ==> req.successor.value.version >= 0)
      && (forall r :: r in rs ==> ids(r) !in used)
      && (forall r, q :: r in rs && q in rs && ids(r) == ids(q) ==> r == q)
    case _ => true
  }

  /** The identifiers drawn so far. */
  ghost function Used(s: Store, used: set<Id>, op: Op): set<Id> {
    used + Apply(s, op).notifications.Keys
  }

  // ---------------------------------------------------------------- one-way state

  function Rank(s: State): nat {
    match s case Active => 0 case Read => 1 case Closed => 2
  }

  predicate Stays<T(==)>(a: Option<T>, b: Option<T>) {
    a.Some? ==> b == a
  }

  /** How one notification may change: forward only, and each instant is written once. */
  predicate Evolves(a: Notification, b: Notification) {
    && a == b.(state := a.state, closedReason := a.closedReason, readAt := a.readAt, closedAt := a.closedAt, inactiveAt := a.inactiveAt)
    && Rank(a.state) <= Rank(b.state)
    && Stays(a.readAt, b.readAt) && Stays(a.closedAt, b.closedAt) && Stays(a.inactiveAt, b.inactiveAt)
    && (a.state == Closed ==> b.closedReason == a.closedReason)
  }

  /** InactiveAt is set exactly when inactive, ClosedAt exactly when closed, and READ has its instant. */
  predicate Dated(n: Notification) {
    && (n.inactiveAt.Some? <==> n.state != Active)
    && (n.closedAt.Some? <==> n.state == Closed)
    && (n.state == Active ==> n.readAt.None?)
    && (n.state == Read ==> n.readAt.Some?)
  }

  ghost predicate DatedInv(s: Store, used: set<Id>) {
    && s.notifications.Keys <= used
    && (forall id :: id in s.notifications ==> Dated(s.notifications[id]) && s.notifications[id].id == id)
  }

  /** Surviving notifications evolved; the others are new. */
  ghost predicate Forward(s: Store, t: Store, used: set<Id>) {
    forall id :: id in t.notifications ==>
      if id in s.notifications then Evolves(s.notifications[id], t.notifications[id]) else id !in used
  }

  lemma {:induction false} InsertForward(s: Store, used: set<Id>, subject: string, ins: seq<Insertion>)
    requires DatedInv(s, used) && Proper(s, used, Inserting(subject, ins))
    ensures Forward(s, Insert(s, subject, ins), used)
    ensures forall id :: id in Insert(s, subject, ins).notifications ==>
              Dated(Insert(s, subject, ins).notifications[id]) && Insert(s, subject, ins).notifications[id].id == id
    decreases |ins|
  {
    if ins != [] {
      InsertForward(s, used, subject, ins[..|ins| - 1]);
    }
  }

  /** What a close leaves under one identifier. */
  lemma CloseAt(s: Store, used: set<Id>, req: CloseRequest, at: Time, ids: string -> Id, id: Id)
    requires s.notifications.Keys <= used && Proper(s, used, Closing(req, at, ids))
    ensures id in s.notifications ==>
              id in Close(s, req, at, ids).notifications &&
              Close(s, req, at, ids).notifications[id] ==
                if Reached(s.notifications[id], req) then CloseOne(s.notifications[id], req, at) else s.notifications[id]
    ensures id in Close(s, req, at, ids).notifications && id !in s.notifications ==>
              req.successor.Some? && id !in used &&
              exists r :: r in Succeeded(s.notifications, CloseMarks(s.watermarks, req, at), req) &&
                          Close(s, req, at, ids).notifications[id] == Stamp(req, req.successor.value, r, id, at)
  {
  }

  lemma CloseForward(s: Store, used: set<Id>, req: CloseRequest, at: Time, ids: string -> Id)
    requires DatedInv(s, used) && Proper(s, used, Closing(req, at, ids))
    ensures Forward(s, Close(s, req, at, ids), used)
    ensures forall id :: id in Close(s, req, at, ids).notifications ==>
              Dated(Close(s, req, at, ids).notifications[id]) && Close(s, req, at, ids).notifications[id].id == id
  {
    var t := Close(s, req, at, ids);
    forall id | id in t.notifications
      ensures Dated(t.notifications[id]) && t.notifications[id].id == id
      ensures if id in s.notifications then Evolves(s.notifications[id], t.notifications[id]) else id !in used
    {
      CloseAt(s, used, req, at, ids, id);
    }
  }

  lemma MarkForward(s: Store, used: set<Id>, recipient: string, ids: seq<Id>, at: Time)
    requires DatedInv(s, used)
    ensures Forward(s, s.(notifications := MarkRead(s.notifications, recipient, ids, at)), used)
    ensures DatedInv(s.(notifications := MarkRead(s.notifications, recipient, ids, at)), used)
  {
  }

  lemma MarkAllForward(s: Store, used: set<Id>, recipient: string, through: Time, at: Time)
    requires DatedInv(s, used)
    ensures Forward(s, s.(notifications := MarkAllRead(s.notifications, recipient, through, at)), used)
    ensures DatedInv(s.(notifications := MarkAllRead(s.notifications, recipient, through, at)), used)
  {
  }

  lemma PruneForward(s: Store, used: set<Id>, bounds: PruneRequest)
    requires DatedInv(s, used)
    ensures Forward(s, Prune(s, bounds), used) && DatedInv(Prune(s, bounds), used)
    ensures forall id :: id in Prune(s, bounds).notifications ==>
              id in s.notifications && Prune(s, bounds).notifications[id] == s.notifications[id]
  {
  }

  /** Every operation moves notifications forward only. */
  lemma StepForward(s: Store, used: set<Id>, op: Op)
    requires DatedInv(s, used) && Proper(s, used, op)
    ensures Forward(s, Apply(s, op), used) && DatedInv(Apply(s, op), Used(s, used, op))
  {
    match op
    case Inserting(subject, ins) => InsertForward(s, used, subject, ins);
    case Closing(req, at, ids) => CloseForward(s, used, req, at, ids);
    case Marking(recipient, ids, at) => MarkForward(s, used, recipient, ids, at);
    case MarkingAll(recipient, through, at) => MarkAllForward(s, used, recipient, through, at);
    case Pruning(bounds) => PruneForward(s, used, bounds);
  }

  // ---------------------------------------------------------------- watermark floors

  /** Recipients that some close spared, by subject. */
  type Spared = set<(string, string)>

  function SparedBy(spared: Spared, op: Op): Spared {
    if op.Closing? && op.req.except != "" then spared + {(op.req.subject, op.req.except)} else spared
  }

  predicate Floored(s: Store, spared: Spared, n: Notification) {
    Open(n) && (n.subject, n.recipient) !in spared ==> n.version >= Floor(s.watermarks, n.subject, n.kind)
  }

  ghost predicate FloorInv(s: Store, spared: Spared) {
    forall id :: id in s.notifications ==> Floored(s, spared, s.notifications[id])
  }

  /**
   * "*" names both the close of every kind and a legal kind. A close that lists it as a kind raises the
   * floor of every kind but closes only the kinds listed; that is harmless exactly when no open
   * notification of another kind is below it.
   */
  ghost predicate FloorSafe(s: Store, spared: Spared, op: Op) {
    op.Closing? && ALL_KINDS in op.req.kinds ==>
      forall id :: id in s.notifications ==> Clear(s.notifications[id], spared, op.req)
  }

  predicate Clear(n: Notification, spared: Spared, req: CloseRequest) {
    n.subject == req.subject && Open(n) && n.kind !in req.kinds && (n.subject, n.recipient) !in spared ==>
      req.version <= n.version
  }

  lemma {:induction false} InsertFloor(s: Store, spared: Spared, subject: string, ins: seq<Insertion>)
    requires FloorInv(s, spared)
    ensures FloorInv(Insert(s, subject, ins), spared)
    ensures forall sub, kind :: Floor(Insert(s, subject, ins).watermarks, sub, kind) == Floor(s.watermarks, sub, kind)
    decreases |ins|
  {
    if ins != [] {
      InsertFloor(s, spared, subject, ins[..|ins| - 1]);
    }
  }

  /** How a close moves a floor. */
  lemma CloseFloor(s: Store, req: CloseRequest, at: Time, subject: string, kind: string)
    requires req.version >= 0
    ensures Floor(CloseMarks(s.watermarks, req, at), subject, kind) ==
            if subject == req.subject && (req.kinds == [] || kind in req.kinds || ALL_KINDS in req.kinds)
            then Max(Floor(s.watermarks, subject, kind), req.version) else Floor(s.watermarks, subject, kind)
  {
  }

  /** A close keeps the floors exactly when it is safe. */
  lemma CloseKeepsFloor(s: Store, used: set<Id>, spared: Spared, req: CloseRequest, at: Time, ids: string -> Id)
    requires FloorInv(s, spared) && s.notifications.Keys <= used && Proper(s, used, Closing(req, at, ids))
    ensures FloorInv(Close(s, req, at, ids), SparedBy(spared, Closing(req, at, ids))) <==>
            FloorSafe(s, SparedBy(spared, Closing(req, at, ids)), Closing(req, at, ids))
  {
    var op := Closing(req, at, ids);
    var t, after := Close(s, req, at, ids), SparedBy(spared, op);
    if FloorSafe(s, after, op) {
      forall id | id in t.notifications ensures Floored(t, after, t.notifications[id]) {
        CloseAt(s, used, req, at, ids, id);
        if id in s.notifications && !Reached(s.notifications[id], req) {
          SafeFloored(s, spared, req, at, ids, s.notifications[id]);
        }
      }
    }
    if FloorInv(t, after) && ALL_KINDS in req.kinds {
      forall id | id in s.notifications ensures Clear(s.notifications[id], after, req) {
        CloseAt(s, used, req, at, ids, id);
        CloseFloor(s, req, at, req.subject, s.notifications[id].kind);
        assert Floored(t, after, t.notifications[id]);
      }
    }
  }

  lemma SafeFloored(s: Store, spared: Spared, req: CloseRequest, at: Time, ids: string -> Id, n: Notification)
    requires req.version >= 0 && Floored(s, spared, n) && !Reached(n, req)
    requires ALL_KINDS in req.kinds ==> Clear(n, SparedBy(spared, Closing(req, at, ids)), req)
    ensures Floored(Close(s, req, at, ids), SparedBy(spared, Closing(req, at, ids)), n)
  {
    CloseFloor(s, req, at, n.subject, n.kind);
  }

  /** Floors fall only when a prune finds the subject without notifications. */
  lemma FloorFalls(s: Store, used: set<Id>, op: Op, subject: string, kind: string)
    requires Proper(s, used, op)
    ensures Floor(s.watermarks, subject, kind) <= Floor(Apply(s, op).watermarks, subject, kind) ||
            (op.Pruning? && !Occupied(Apply(s, op).notifications, subject))
  {
    match op
    case Inserting(sub, ins) => InsertSameFloor(s, sub, ins, subject, kind);
    case Closing(req, at, ids) => CloseFloor(s, req, at, subject, kind);
    case _ =>
  }

  lemma {:induction false} InsertSameFloor(s: Store, subject: string, ins: seq<Insertion>, sub: string, kind: string)
    ensures Floor(Insert(s, subject, ins).watermarks, sub, kind) == Floor(s.watermarks, sub, kind)
    decreases |ins|
  {
    if ins != [] {
      InsertSameFloor(s, subject, ins[..|ins| - 1], sub, kind);
    }
  }

  lemma PruneFloored(s: Store, spared: Spared, bounds: PruneRequest, id: Id)
    requires FloorInv(s, spared) && id in Prune(s, bounds).notifications
    ensures Floored(Prune(s, bounds), spared, Prune(s, bounds).notifications[id])
  {
    var t := Prune(s, bounds);
    assert id in s.notifications && t.notifications[id] == s.notifications[id];
    assert Floored(s, spared, s.notifications[id]);
    FloorFalls(s, {}, Pruning(bounds), s.notifications[id].subject, s.notifications[id].kind);
    assert Occupied(t.notifications, s.notifications[id].subject);
    assert Floor(t.watermarks, s.notifications[id].subject, s.notifications[id].kind) <=
           Floor(s.watermarks, s.notifications[id].subject, s.notifications[id].kind);
  }

  lemma StepKeepsFloor(s: Store, used: set<Id>, spared: Spared, op: Op)
    requires FloorInv(s, spared) && s.notifications.Keys <= used && Proper(s, used, op)
    requires FloorSafe(s, SparedBy(spared, op), op)
    ensures FloorInv(Apply(s, op), SparedBy(spared, op))
  {
    var t := Apply(s, op);
    match op
    case Inserting(subject, ins) => InsertFloor(s, spared, subject, ins);
    case Closing(req, at, ids) => CloseKeepsFloor(s, used, spared, req, at, ids);
    case Marking(_, _, _) =>
      forall id | id in t.notifications ensures Floored(t, spared, t.notifications[id]) {
        assert Floored(s, spared, s.notifications[id]);
      }
    case MarkingAll(_, _, _) =>
      forall id | id in t.notifications ensures Floored(t, spared, t.notifications[id]) {
        assert Floored(s, spared, s.notifications[id]);
      }
    case Pruning(bounds) =>
      forall id | id in t.notifications ensures Floored(t, spared, t.notifications[id]) {
        PruneFloored(s, spared, bounds, id);
      }
  }

  /** One offer in an empty store, and a close that lists "*" as a kind at a later version. */
  const OFFER := Notification("n", "ann", "e1", "task", 1, "offer", Active, "", "", 0, None, None, None)
  const OFFERED := Store(map["n" := OFFER], map[("task", ALL_KINDS) := Mark(-1, 0)])
  const NAMES_STAR := CloseRequest("task", [ALL_KINDS], 2, "", "", None, [])

  /** Such a close leaves the open offer below its floor. */
  lemma NamedStarBreaksFloor(ids: string -> Id)
    ensures OFFERED == Insert(Store(map[], map[]), "task", [Insertion(OFFER, false)])
    ensures FloorInv(OFFERED, {}) && !FloorInv(Close(OFFERED, NAMES_STAR, 0, ids), {})
  {
    var n := OFFERED.notifications["n"];
    assert Floored(OFFERED, {}, n);
    assert !Clear(n, {}, NAMES_STAR);
    assert Proper(OFFERED, {"n"}, Closing(NAMES_STAR, 0, ids));
    CloseKeepsFloor(OFFERED, {"n"}, {}, NAMES_STAR, 0, ids);
  }

  // ---------------------------------------------------------------- whole runs

  ghost predicate IsRun(states: seq<Store>, used: seq<set<Id>>, ops: seq<Op>) {
    && |states| == |used| == |ops| + 1
    && states[0] == Store(map[], map[]) && used[0] == {}
    && forall i :: 0 <= i < |ops| ==> Follows(states[i], used[i], ops[i], states[i + 1], used[i + 1])
  }

  ghost predicate Follows(s: Store, used: set<Id>, op: Op, t: Store, usedAfter: set<Id>) {
    Proper(s, used, op) && t == Apply(s, op) && usedAfter == Used(s, used, op)
  }

  lemma {:induction false} RunDated(states: seq<Store>, used: seq<set<Id>>, ops: seq<Op>, i: nat)
    requires IsRun(states, used, ops) && i <= |ops|
    ensures DatedInv(states[i], used[i])
  {
    if i > 0 {
      RunDated(states, used, ops, i - 1);
      assert Follows(states[i - 1], used[i - 1], ops[i - 1], states[i], used[i]);
      StepForward(states[i - 1], used[i - 1], ops[i - 1]);
    }
  }

  lemma EvolvesTransitive(a: Notification, b: Notification, c: Notification)
    requires Evolves(a, b) && Evolves(b, c)
    ensures Evolves(a, c)
  {
  }

  /** What one step of a run gives, without its operation. */
  ghost predicate Linked(s: Store, used: set<Id>, t: Store, usedAfter: set<Id>) {
    Forward(s, t, used) && s.notifications.Keys <= used && used <= usedAfter
  }

  lemma RunLinked(states: seq<Store>, used: seq<set<Id>>, ops: seq<Op>, i: nat)
    requires IsRun(states, used, ops) && i < |ops|
    ensures Linked(states[i], used[i], states[i + 1], used[i + 1])
  {
    RunDated(states, used, ops, i);
    assert Follows(states[i], used[i], ops[i], states[i + 1], used[i + 1]);
    StepForward(states[i], used[i], ops[i]);
  }

  lemma {:induction false} ChainForward(states: seq<Store>, used: seq<set<Id>>, i: nat, j: nat, id: Id)
    requires i <= j < |states| == |used| && id in states[i].notifications
    requires forall k :: i <= k < j ==> Linked(states[k], used[k], states[k + 1], used[k + 1])
    ensures id in states[j].notifications ==> Evolves(states[i].notifications[id], states[j].notifications[id])
    ensures i < j ==> id in used[j]
  {
    if i < j {
      ChainForward(states, used, i, j - 1, id);
      assert Linked(states[j - 1], used[j - 1], states[j - 1 + 1], used[j - 1 + 1]);
      if id in states[j].notifications {
        EvolvesTransitive(states[i].notifications[id], states[j - 1].notifications[id], states[j].notifications[id]);
      }
    }
  }

  /** Between any two moments of a run a notification only moved forward; nothing returns to ACTIVE. */
  lemma RunForward(states: seq<Store>, used: seq<set<Id>>, ops: seq<Op>, i: nat, j: nat, id: Id)
    requires IsRun(states, used, ops) && i <= j <= |ops|
    requires id in states[i].notifications && id in states[j].notifications
    ensures Evolves(states[i].notifications[id], states[j].notifications[id])
  {
    forall k | i <= k < j ensures Linked(states[k], used[k], states[k + 1], used[k + 1]) {
      RunLinked(states, used, ops, k);
    }
    ChainForward(states, used, i, j, id);
  }

  function SparedAfter(ops: seq<Op>): Spared {
    if ops == [] then {} else SparedBy(SparedAfter(ops[..|ops| - 1]), ops[|ops| - 1])
  }

  /**
   * In every reachable store, an open notification is at or above its floor unless a close spared its
   * recipient, as long as no close lists "*" as a kind while another kind is open below it.
   */
  lemma {:induction false} RunFloored(states: seq<Store>, used: seq<set<Id>>, ops: seq<Op>, i: nat)
    requires IsRun(states, used, ops) && i <= |ops|
    requires forall k :: 0 <= k < |ops| ==> FloorSafe(states[k], SparedAfter(ops[..k + 1]), ops[k])
    ensures FloorInv(states[i], SparedAfter(ops[..i]))
  {
    if i > 0 {
      RunFloored(states, used, ops, i - 1);
      RunDated(states, used, ops, i - 1);
      assert Follows(states[i - 1], used[i - 1], ops[i - 1], states[i], used[i]);
      assert ops[..i][..i - 1] == ops[..i - 1];
      assert FloorSafe(states[i - 1], SparedAfter(ops[..i - 1 + 1]), ops[i - 1]);
      StepKeepsFloor(states[i - 1], used[i - 1], SparedAfter(ops[..i - 1]), ops[i - 1]);
    } else {
      assert ops[..0] == [];
    }
  }
}
