/**
 * What each task event does to the notifications (tasknotify/rules.go), told by the rows before and after
 * it and not by the steps of its plan: whom it notifies of what, which notifications it ends, and what it
 * leaves alone.
 */
module ProjectionEffects {
  import opened Basics
  import opened Notifications
  import opened NotificationStore
  import opened NotificationView
  import opened Replay
  import opened Projection
  import L = Lifecycle

  /** The view after an event has been projected in full, publishing in batches. */
  ghost function After(v: View, input: Input, closing: set<L.Status>, size: nat): View
    requires size > 0
  {
    ExecAll(v, PlanOf(input, closing, size))
  }

  // ---------------------------------------------------------------- batches do not show

  lemma {:induction false} ExecAppend(v: View, a: seq<Step>, b: seq<Step>)
    ensures ExecAll(v, a + b) == ExecAll(ExecAll(v, a), b)
    decreases |a|
  {
    if a == [] {
      assert a + b == b;
    } else {
      assert (a + b)[0] == a[0] && (a + b)[1..] == a[1..] + b;
      ExecAppend(Exec(v, a[0]), a[1..], b);
    }
  }

  lemma {:induction false} ExecBatches(v: View, batches: seq<seq<Draft>>)
    ensures ExecAll(v, seq(|batches|, i requires 0 <= i < |batches| => PublishStep(batches[i]))) == PublishBatches(v, batches)
    decreases |batches|
  {
    if batches != [] {
      var steps := seq(|batches|, i requires 0 <= i < |batches| => PublishStep(batches[i]));
      var rest := batches[1..];
      assert steps[1..] == seq(|rest|, i requires 0 <= i < |rest| => PublishStep(rest[i]));
      ExecBatches(Publish(v, batches[0]), rest);
    }
  }

  lemma {:induction false} ExecCalls(v: View, a: Step, size: nat)
    requires size > 0
    ensures ExecAll(v, CallsOf(a, size)) == Exec(v, a)
  {
    if a.PublishStep? {
      ExecBatches(v, Chunks(a.drafts, size));
      BatchingInvisible(v, a.drafts, size);
    } else {
      assert [a][1..] == [];
      assert ExecAll(Exec(v, a), []) == Exec(v, a);
    }
  }

  /** Running a plan batch by batch is running its steps. */
  lemma {:induction false} ExecPlan(v: View, steps: seq<Step>, size: nat)
    requires size > 0
    ensures ExecAll(v, Calls(steps, size)) == ExecAll(v, steps)
    decreases |steps|
  {
    if steps != [] {
      ExecCalls(v, steps[0], size);
      ExecAppend(v, CallsOf(steps[0], size), Calls(steps[1..], size));
      ExecPlan(Exec(v, steps[0]), steps[1..], size);
    }
  }

  // ---------------------------------------------------------------- publishing

  /** What publishing leaves: old rows and floors as they were, new rows only where they are due, and every draft seen to. */
  ghost predicate Published(v: View, w: View, ds: seq<Draft>) {
    && (forall k :: k in v.rows ==> k in w.rows && w.rows[k] == v.rows[k])
    && (forall s, k :: ViewFloor(w.marks, s, k) == ViewFloor(v.marks, s, k))
    && (forall k :: k in w.rows && k !in v.rows ==> exists d :: d in ds && Due(v, w, d, k))
    && (forall d :: d in ds ==> SeenTo(v, w, d))
  }

  /** The row a draft asks for is there, the draft not being suppressed. */
  ghost predicate Due(v: View, w: View, d: Draft, k: (string, string)) {
    && k == (d.sourceId, d.recipient) && k in w.rows && w.rows[k] == Row(d.subject, d.kind, d.version, Active, "")
    && ViewFloor(v.marks, d.subject, d.kind) <= d.version
  }

  ghost predicate SeenTo(v: View, w: View, d: Draft) {
    || d.version < ViewFloor(v.marks, d.subject, d.kind)
    || (d.sourceId, d.recipient) in w.rows
    || (d.coalesce && ViewOpen(w, d.recipient, d.subject, d.kind))
  }

  lemma PublishOneEffect(u: View, d: Draft)
    ensures Published(u, PublishOne(u, d), [d])
  {
    var w := PublishOne(u, d);
    forall s, k ensures ViewFloor(w.marks, s, k) == ViewFloor(u.marks, s, k) {
    }
    if !DraftDone(u, d) {
      assert Due(u, w, d, (d.sourceId, d.recipient));
    }
  }

  lemma StillOpen(u: View, w: View, recipient: string, subject: string, kind: string)
    requires ViewOpen(u, recipient, subject, kind) && forall k :: k in u.rows ==> k in w.rows && w.rows[k] == u.rows[k]
    ensures ViewOpen(w, recipient, subject, kind)
  {
    var source :| Holds(u, source, recipient, subject, kind);
    assert Holds(w, source, recipient, subject, kind);
  }

  lemma {:induction false} PublishedMore(v: View, u: View, w: View, ds: seq<Draft>, d: Draft)
    requires Published(v, u, ds) && Published(u, w, [d])
    ensures Published(v, w, ds + [d])
  {
    forall k | k in w.rows && k !in v.rows ensures exists e :: e in ds + [d] && Due(v, w, e, k) {
      if k in u.rows {
        var e :| e in ds && Due(v, u, e, k);
        assert e in ds + [d] && Due(v, w, e, k);
      } else {
        var e :| e in [d] && Due(u, w, e, k);
        assert e in ds + [d] && Due(v, w, e, k);
      }
    }
    forall e | e in ds + [d] ensures SeenTo(v, w, e) {
      if e in ds {
        assert SeenTo(v, u, e);
        if e.coalesce && ViewOpen(u, e.recipient, e.subject, e.kind) {
          StillOpen(u, w, e.recipient, e.subject, e.kind);
        }
      } else {
        assert e in [d] && SeenTo(u, w, e);
      }
    }
  }

  lemma {:induction false} PublishEffect(v: View, ds: seq<Draft>)
    ensures Published(v, Publish(v, ds), ds)
    decreases |ds|
  {
    if ds != [] {
      var k := |ds| - 1;
      PublishEffect(v, ds[..k]);
      PublishOneEffect(Publish(v, ds[..k]), ds[k]);
      PublishedMore(v, Publish(v, ds[..k]), Publish(v, ds), ds[..k], ds[k]);
      assert ds == ds[..k] + [ds[k]];
    }
  }

  // ---------------------------------------------------------------- the vocabulary of the effects

  /** A notification of this kind at the event's version would come too late. */
  predicate Suppressed(v: View, e: L.Event, kind: string) {
    e.version < ViewFloor(v.marks, e.taskId, kind)
  }

  /** A row of the event's task, of this kind, the event is not older than. */
  predicate Outdated(r: Row, e: L.Event, kind: string) {
    r.subject == e.taskId && r.kind == kind && r.version <= e.version
  }

  /** The rows an event brings into being. */
  predicate Added(v: View, w: View, k: (string, string)) {
    k in w.rows && k !in v.rows
  }

  function News(e: L.Event, kind: string): Row {
    Row(e.taskId, kind, e.version, Active, "")
  }

  /** A row that was there is still there, as it was. */
  predicate Same(v: View, w: View, k: (string, string)) {
    k in v.rows && k in w.rows && w.rows[k] == v.rows[k]
  }

  /**
   * The event offers the task: every resolved actor but its own gets an offer unless that comes too late or
   * is there already, and nobody else gets anything.
   */
  ghost predicate Offered(v: View, w: View, input: Input, coalesce: bool) {
    var e := input.event;
    && (forall a :: a in input.resolved && a != e.actor && !Suppressed(v, e, OFFER) ==>
          (e.id, a) in w.rows || (coalesce && ViewOpen(w, a, e.taskId, OFFER)))
    && (forall k :: Added(v, w, k) ==>
          k.0 == e.id && k.1 in input.resolved && k.1 != e.actor && w.rows[k] == News(e, OFFER) && !Suppressed(v, e, OFFER))
  }

  /** The event assigns the task: its holder, unless they did it themselves, is told, and nobody else is. */
  ghost predicate Assigned(v: View, w: View, e: L.Event) {
    && (e.assignee != "" && e.assignee != e.actor && !Suppressed(v, e, ASSIGNED) ==> (e.id, e.assignee) in w.rows)
    && (forall k :: Added(v, w, k) ==>
          k == (e.id, e.assignee) && e.assignee != "" && e.assignee != e.actor && w.rows[k] == News(e, ASSIGNED) &&
          !Suppressed(v, e, ASSIGNED))
  }

  lemma {:induction false} OffersEffect(v: View, input: Input, coalesce: bool)
    ensures var w := ExecAll(v, Offers(input, coalesce));
            Offered(v, w, input, coalesce) && forall k :: k in v.rows ==> Same(v, w, k)
  {
    var e, w := input.event, ExecAll(v, Offers(input, coalesce));
    var eligible := Eligible(input.resolved, e.actor);
    EligibleSpares(input.resolved, e.actor);
    if eligible != [] {
      var ds := Offers(input, coalesce)[0].drafts;
      assert Offers(input, coalesce) == [PublishStep(ds)];
      ExecOne(v, PublishStep(ds));
      PublishEffect(v, ds);
      OffersSeenTo(v, w, input, coalesce, eligible, ds);
    }
  }

  lemma ExecOne(v: View, a: Step)
    ensures ExecAll(v, [a]) == Exec(v, a)
  {
    assert [a][1..] == [];
    assert ExecAll(Exec(v, a), []) == Exec(v, a);
  }

  lemma {:induction false} OffersSeenTo(v: View, w: View, input: Input, coalesce: bool, eligible: seq<string>, ds: seq<Draft>)
    requires Published(v, w, ds) && |ds| == |eligible|
    requires forall i :: 0 <= i < |ds| ==> ds[i] == DraftFor(input, eligible[i], OFFER, coalesce)
    requires forall a :: a in eligible <==> a in input.resolved && a != input.event.actor
    ensures Offered(v, w, input, coalesce)
  {
    var e := input.event;
    forall a | a in input.resolved && a != e.actor && !Suppressed(v, e, OFFER)
      ensures (e.id, a) in w.rows || (coalesce && ViewOpen(w, a, e.taskId, OFFER))
    {
      var i :| 0 <= i < |eligible| && eligible[i] == a;
      assert ds[i] in ds && SeenTo(v, w, ds[i]);
    }
    forall k | Added(v, w, k)
      ensures k.0 == e.id && k.1 in input.resolved && k.1 != e.actor && w.rows[k] == News(e, OFFER) && !Suppressed(v, e, OFFER)
    {
      var d :| d in ds && Due(v, w, d, k);
      var i :| 0 <= i < |ds| && ds[i] == d;
      assert eligible[i] in eligible;
    }
  }

  lemma {:induction false} AssignmentEffect(v: View, input: Input)
    ensures var w := ExecAll(v, Assignment(input));
            Assigned(v, w, input.event) && forall k :: k in v.rows ==> Same(v, w, k)
  {
    var e, w := input.event, ExecAll(v, Assignment(input));
    if e.assignee != "" && e.assignee != e.actor {
      var d := DraftFor(input, e.assignee, ASSIGNED, false);
      ExecOne(v, PublishStep([d]));
      PublishEffect(v, [d]);
      assert d in [d] && SeenTo(v, w, d);
    }
  }

  // ---------------------------------------------------------------- closing

  /** What a close without a successor leaves of a row, and of the floors of kinds it does not name. */
  lemma {:induction false} CloseEffect(v: View, req: CloseRequest)
    requires req.successor.None?
    ensures var w := CloseView(v, req);
            && w.rows.Keys == v.rows.Keys
            && (forall k :: k in v.rows ==>
                  w.rows[k] == if RowReached(k.1, v.rows[k], req) then v.rows[k].(state := Closed, reason := req.reason) else v.rows[k])
  {
  }

  /** A close of other kinds leaves a kind's floor; one of this kind raises it no further than its version. */
  lemma {:induction false} FloorAfterClose(v: View, req: CloseRequest, kind: string, version: int)
    requires req.kinds != [] && ALL_KINDS !in req.kinds && (kind in req.kinds ==> req.version == version)
    ensures version < ViewFloor(CloseView(v, req).marks, req.subject, kind) <==> version < ViewFloor(v.marks, req.subject, kind)
  {
  }

  // ---------------------------------------------------------------- event by event

  /** A pooled creation offers the task, a reserved one assigns it, and nothing that was there changes. */
  lemma {:induction false} CreationEffect(v: View, input: Input, closing: set<L.Status>, size: nat)
    requires size > 0 && input.event.status !in closing && input.event.kind == L.TaskCreated
    ensures var w := After(v, input, closing, size);
            && (forall k :: k in v.rows ==> Same(v, w, k))
            && (input.event.status == L.Ready ==> Offered(v, w, input, false))
            && (input.event.status == L.Reserved ==> Assigned(v, w, input.event))
            && (input.event.status != L.Ready && input.event.status != L.Reserved ==> w == v)
  {
    ExecPlan(v, DefaultPlan(input, closing), size);
    OffersEffect(v, input, false);
    AssignmentEffect(v, input);
  }

  /** The recipients whose offer of the task the event outdates. */
  ghost predicate HadOffer(v: View, e: L.Event, r: string) {
    exists source :: (source, r) in v.rows && Outdated(v.rows[(source, r)], e, OFFER) && v.rows[(source, r)].state != Closed
  }

  /** Whom a claim tells that the task was taken. */
  ghost predicate ToldTaken(v: View, e: L.Event, r: string) {
    HadOffer(v, e, r) && r != e.actor && (e.id, r) !in v.rows && !Suppressed(v, e, TAKEN)
  }

  function TakenClose(input: Input): CloseRequest {
    var e := input.event;
    CloseRequest(e.taskId, [OFFER], e.version, "taken", "", Some(Successor(e.id, TAKEN, e.version, input.render("", TAKEN))), [e.actor])
  }

  lemma {:induction false} TakenSucceeded(v: View, input: Input, r: string)
    ensures r in ViewSucceeded(v, TakenClose(input)) <==> ToldTaken(v, input.event, r)
  {
    var e, req := input.event, TakenClose(input);
    FloorAfterClose(v, req, TAKEN, e.version);
    assert forall k :: k in v.rows ==> (RowReached(k.1, v.rows[k], req) <==> Outdated(v.rows[k], e, OFFER) && v.rows[k].state != Closed);
    if HadOffer(v, e, r) {
      var source :| (source, r) in v.rows && Outdated(v.rows[(source, r)], e, OFFER) && v.rows[(source, r)].state != Closed;
      assert RowReached((source, r).1, v.rows[(source, r)], req);
    }
  }

  /**
   * A claim ends every offer of the task, and tells exactly those whose offer it ended, but the claimant,
   * that the task was taken.
   */
  lemma {:induction false} ClaimEffect(v: View, input: Input, closing: set<L.Status>, size: nat)
    requires size > 0 && input.event.status !in closing && input.event.kind == L.TaskClaimed
    ensures var e, w := input.event, After(v, input, closing, size);
            && (forall k :: k in v.rows && Outdated(v.rows[k], e, OFFER) ==> k in w.rows && w.rows[k].state == Closed)
            && (forall k :: k in v.rows && !Outdated(v.rows[k], e, OFFER) ==> Same(v, w, k))
            && (forall k :: Added(v, w, k) <==> k.0 == e.id && ToldTaken(v, e, k.1))
            && (forall k :: Added(v, w, k) ==> w.rows[k] == News(e, TAKEN))
  {
    var e, req := input.event, TakenClose(input);
    ExecPlan(v, DefaultPlan(input, closing), size);
    ExecOne(v, CloseStep(req));
    forall r ensures r in ViewSucceeded(v, req) <==> ToldTaken(v, e, r) { TakenSucceeded(v, input, r); }
    assert DefaultPlan(input, closing) == [CloseStep(req)];
    SuccessorEffect(v, req);
  }

  /** What a close with a successor leaves. */
  lemma {:induction false} SuccessorEffect(v: View, req: CloseRequest)
    requires req.successor.Some?
    ensures var w, s := CloseView(v, req), req.successor.value;
            && (forall k :: k in v.rows ==>
                  k in w.rows &&
                  w.rows[k] == if RowReached(k.1, v.rows[k], req) then v.rows[k].(state := Closed, reason := req.reason) else v.rows[k])
            && (forall k :: Added(v, w, k) <==> k.0 == s.sourceId && k.1 in ViewSucceeded(v, req))
            && (forall k :: Added(v, w, k) ==> w.rows[k] == Row(req.subject, s.kind, s.version, Active, ""))
  {
    var rs, s := ViewSucceeded(v, req), req.successor.value;
    forall k ensures k in SuccessorRows(req, rs) <==> k.0 == s.sourceId && k.1 in rs {
      if k.0 == s.sourceId && k.1 in rs {
        assert k == (s.sourceId, k.1);
      }
    }
  }

  lemma {:induction false} CloseThen(v: View, input: Input, closing: set<L.Status>, size: nat, req: CloseRequest, rest: seq<Step>)
    requires size > 0 && DefaultPlan(input, closing) == [CloseStep(req)] + rest
    ensures After(v, input, closing, size) == ExecAll(CloseView(v, req), rest)
  {
    ExecPlan(v, DefaultPlan(input, closing), size);
    ExecAppend(v, [CloseStep(req)], rest);
    ExecOne(v, CloseStep(req));
  }

  function ReleasedClose(e: L.Event): CloseRequest {
    CloseRequest(e.taskId, [TAKEN, ASSIGNED], e.version, "released", "", None, [])
  }

  predicate EndedByRelease(r: Row, e: L.Event) {
    Outdated(r, e, TAKEN) || Outdated(r, e, ASSIGNED)
  }

  /** The first half of a release. */
  lemma {:induction false} ReleaseCloses(v: View, e: L.Event)
    ensures var u := CloseView(v, ReleasedClose(e));
            && u.rows.Keys == v.rows.Keys && (Suppressed(u, e, OFFER) <==> Suppressed(v, e, OFFER))
            && (forall k :: k in u.rows && EndedByRelease(u.rows[k], e) ==> u.rows[k].state == Closed)
            && (forall k :: k in v.rows && !EndedByRelease(v.rows[k], e) ==> Same(v, u, k))
  {
    var req := ReleasedClose(e);
    CloseEffect(v, req);
    FloorAfterClose(v, req, OFFER, e.version);
    assert forall k :: k in v.rows && EndedByRelease(v.rows[k], e) && v.rows[k].state != Closed ==> RowReached(k.1, v.rows[k], req);
  }

  /** A release ends every taken and assigned notification of the task, then offers it again. */
  lemma {:induction false} ReleaseEffect(v: View, input: Input, closing: set<L.Status>, size: nat)
    requires size > 0 && input.event.status !in closing && input.event.kind == L.TaskReleased
    ensures var e, w := input.event, After(v, input, closing, size);
            && Offered(v, w, input, false)
            && (forall k :: k in w.rows && EndedByRelease(w.rows[k], e) ==> w.rows[k].state == Closed)
            && (forall k :: k in v.rows && !EndedByRelease(v.rows[k], e) ==> Same(v, w, k))
  {
    var e := input.event;
    assert DefaultPlan(input, closing) == [CloseStep(ReleasedClose(e))] + Offers(input, false);
    CloseThen(v, input, closing, size, ReleasedClose(e), Offers(input, false));
    ReleaseCloses(v, e);
    OffersEffect(CloseView(v, ReleasedClose(e)), input, false);
  }

  function ReassignedClose(e: L.Event): CloseRequest {
    CloseRequest(e.taskId, [ASSIGNED], e.version, "reassigned", e.assignee, None, [])
  }

  /** The notification is the new holder's. */
  predicate Heirs(e: L.Event, recipient: string) {
    recipient == e.assignee != ""
  }

  /** The first half of a delegation. */
  lemma {:induction false} DelegationCloses(v: View, e: L.Event)
    ensures var u := CloseView(v, ReassignedClose(e));
            && u.rows.Keys == v.rows.Keys && (Suppressed(u, e, ASSIGNED) <==> Suppressed(v, e, ASSIGNED))
            && (forall k :: k in u.rows && Outdated(u.rows[k], e, ASSIGNED) && u.rows[k].state != Closed ==> Heirs(e, k.1))
            && (forall k :: k in v.rows && (!Outdated(v.rows[k], e, ASSIGNED) || Heirs(e, k.1)) ==> Same(v, u, k))
  {
    var req := ReassignedClose(e);
    CloseEffect(v, req);
    FloorAfterClose(v, req, ASSIGNED, e.version);
    assert forall k :: k in v.rows && Outdated(v.rows[k], e, ASSIGNED) && v.rows[k].state != Closed && !Heirs(e, k.1) ==>
             RowReached(k.1, v.rows[k], req);
  }

  /** A delegation ends every assignment of the task but the new holder's, who is told of it. */
  lemma {:induction false} DelegationEffect(v: View, input: Input, closing: set<L.Status>, size: nat)
    requires size > 0 && input.event.status !in closing && input.event.kind == L.TaskDelegated
    ensures var e, w := input.event, After(v, input, closing, size);
            && Assigned(v, w, e)
            && (forall k :: k in w.rows && Outdated(w.rows[k], e, ASSIGNED) && w.rows[k].state != Closed ==> Heirs(e, k.1))
            && (forall k :: k in v.rows && (!Outdated(v.rows[k], e, ASSIGNED) || Heirs(e, k.1)) ==> Same(v, w, k))
  {
    var e := input.event;
    assert DefaultPlan(input, closing) == [CloseStep(ReassignedClose(e))] + Assignment(input);
    CloseThen(v, input, closing, size, ReassignedClose(e), Assignment(input));
    DelegationCloses(v, e);
    AssignmentEffect(CloseView(v, ReassignedClose(e)), input);
  }

  /** Widening a pooled task leaves every eligible actor but its own with an open offer, adding only missing ones. */
  lemma {:induction false} EscalationEffect(v: View, input: Input, closing: set<L.Status>, size: nat)
    requires size > 0 && input.event.status !in closing && input.event.kind == L.TaskEscalated
    ensures var e, w := input.event, After(v, input, closing, size);
            && (forall k :: k in v.rows ==> Same(v, w, k))
            && (e.status != L.Ready ==> w == v)
            && (e.status == L.Ready ==> Offered(v, w, input, true))
            && (e.status == L.Ready ==>
                  forall a :: a in input.resolved && a != e.actor && !Suppressed(v, e, OFFER) && (e.id, a) !in v.rows ==>
                    ViewOpen(w, a, e.taskId, OFFER))
  {
    var e, w := input.event, After(v, input, closing, size);
    ExecPlan(v, DefaultPlan(input, closing), size);
    OffersEffect(v, input, true);
    if e.status == L.Ready {
      forall a | a in input.resolved && a != e.actor && !Suppressed(v, e, OFFER) && (e.id, a) !in v.rows
        ensures ViewOpen(w, a, e.taskId, OFFER)
      {
        if (e.id, a) in w.rows {
          assert Added(v, w, (e.id, a));
          assert Holds(w, e.id, a, e.taskId, OFFER);
        }
      }
    }
  }

  /** A closing status ends every notification of the task, with its own reason, and adds none. */
  lemma {:induction false} ClosingEffect(v: View, input: Input, closing: set<L.Status>, size: nat)
    requires size > 0 && input.event.status in closing
    ensures var e, w := input.event, After(v, input, closing, size);
            && w.rows.Keys == v.rows.Keys
            && (forall k :: k in v.rows ==>
                  if v.rows[k].subject == e.taskId && v.rows[k].version <= e.version && v.rows[k].state != Closed
                  then w.rows[k] == v.rows[k].(state := Closed, reason := ClosingReason(e.status))
                  else Same(v, w, k))
  {
    var e := input.event;
    var req := CloseRequest(e.taskId, [], e.version, ClosingReason(e.status), "", None, []);
    ExecPlan(v, DefaultPlan(input, closing), size);
    ExecOne(v, CloseStep(req));
    CloseEffect(v, req);
  }

  /** Every other event changes nothing. */
  lemma {:induction false} OtherEffect(v: View, input: Input, closing: set<L.Status>, size: nat)
    requires size > 0 && input.event.status !in closing
    requires input.event.kind !in {L.TaskCreated, L.TaskClaimed, L.TaskReleased, L.TaskDelegated, L.TaskEscalated}
    ensures After(v, input, closing, size) == v
  {
    ExecPlan(v, DefaultPlan(input, closing), size);
  }
}
