/**
 * What the engine's own runs guarantee about the events a projection is fed: a task's recorded events have
 * strictly increasing versions, and one with a closed status is its last. The projection's claims then
 * hold of any events an engine ever recorded.
 */
module RecordedEvents {
  import opened Basics
  import opened Notifications
  import opened Lifecycle
  import opened TaskInvariants
  import opened TaskAgreement
  import TaskDb
  import O = Outbox
  import N = NotificationStore
  import R = NotificationRuns
  import V = NotificationView
  import C = ClosedForGood
  import P = Projection
  import Replay
  import Redelivery

  /** Later records have higher versions, and nothing follows the record of a closed status. */
  ghost predicate Ordered(rs: seq<TransitionRecord>) {
    forall p, q :: 0 <= p < q < |rs| ==> Precedes(rs[p], rs[q])
  }

  predicate Precedes(a: TransitionRecord, b: TransitionRecord) {
    a.version < b.version && !Terminal(a.to)
  }

  lemma {:induction false} NothingFollows(r: TransitionRecord)
    requires LegalRecord(r)
    ensures !Terminal(r.from)
  {
    if Terminal(r.from) {
      NothingFromTerminal(r.from);
    }
  }

  lemma {:induction false} ChainOrdered(hs: seq<TransitionRecord>, id: TaskId, p: nat, q: nat)
    requires Chain(hs, id) && p < q < |hs|
    ensures Precedes(hs[p], hs[q])
    decreases q
  {
    assert hs[q - 1].to == hs[q].from && hs[q - 1].version < hs[q].version;
    NothingFollows(hs[q]);
    if p < q - 1 {
      ChainOrdered(hs, id, p, q - 1);
    }
  }

  lemma {:induction false} AnnouncedOrdered(hs: seq<TransitionRecord>)
    requires Ordered(hs)
    ensures Ordered(Announced(hs)) && forall r :: r in Announced(hs) ==> r in hs
  {
    if hs != [] {
      var k := |hs| - 1;
      AnnouncedOrdered(hs[..k]);
      var init := Announced(hs[..k]);
      forall p | 0 <= p < |init| ensures Precedes(init[p], hs[k]) {
        assert init[p] in hs[..k];
        var i :| 0 <= i < k && hs[i] == init[p];
      }
    }
  }

  /** Events of one task in the outbox stand in the order of its records. */
  lemma {:induction false} EventsOrdered(outbox: seq<O.OutboxRow>, id: TaskId, a: nat, b: nat)
    requires Ordered(EventsOf(outbox, id)) && a < b < |outbox|
    requires outbox[a].event.taskId == id && outbox[b].event.taskId == id
    ensures Precedes(outbox[a].event.transition, outbox[b].event.transition)
    decreases |outbox|
  {
    var k := |outbox| - 1;
    var init := EventsOf(outbox[..k], id);
    assert forall p :: 0 <= p < |init| ==> EventsOf(outbox, id)[p] == init[p];
    if b < k {
      EventsOrdered(outbox[..k], id, a, b);
    } else {
      EventListed(outbox[..k], id, a);
      var p :| 0 <= p < |init| && init[p] == outbox[a].event.transition;
      assert EventsOf(outbox, id)[|init|] == outbox[k].event.transition;
    }
  }

  lemma {:induction false} EventListed(outbox: seq<O.OutboxRow>, id: TaskId, a: nat)
    requires a < |outbox| && outbox[a].event.taskId == id
    ensures outbox[a].event.transition in EventsOf(outbox, id)
  {
    var k := |outbox| - 1;
    if a < k {
      EventListed(outbox[..k], id, a);
    }
  }

  /** In every committed state, of two recorded events of one task the later has the higher version, and the earlier is not closing. */
  lemma {:induction false} RunEventsOrdered(states: seq<World>, steps: seq<DbStep>, i: nat, a: nat, b: nat)
    requires IsRun(states, steps) && i <= |steps| && a < b < |states[i].db.outbox|
    requires states[i].db.outbox[a].event.taskId == states[i].db.outbox[b].event.taskId
    ensures states[i].db.outbox[a].event.version < states[i].db.outbox[b].event.version
    ensures !Terminal(states[i].db.outbox[a].event.status)
  {
    var w := states[i];
    var id := w.db.outbox[a].event.taskId;
    RunAgrees(states, steps, i);
    assert Agrees(w, id);
    var hs := TaskDb.HistoryOf(w.db, id);
    forall p, q | 0 <= p < q < |hs| ensures Precedes(hs[p], hs[q]) { ChainOrdered(hs, id, p, q); }
    AnnouncedOrdered(hs);
    EventsOrdered(w.db.outbox, id, a, b);
    assert EventTrue(w.db.outbox[a].event) && EventTrue(w.db.outbox[b].event);
  }

  // ---------------------------------------------------------------- what the projection may assume

  /** The event stands in the outbox of a committed state. */
  ghost predicate Recorded(w: World, e: Event) {
    exists a :: 0 <= a < |w.db.outbox| && w.db.outbox[a].event == e
  }

  /** A task's recorded events in the order of the outbox are a chronicle. */
  lemma {:induction false} RecordedChronicle(
      states: seq<World>, steps: seq<DbStep>, i: nat, inputs: seq<P.Input>, at: seq<nat>, subject: TaskId)
    requires IsRun(states, steps) && i <= |steps| && |at| == |inputs|
    requires forall k :: 0 <= k < |at| ==>
               at[k] < |states[i].db.outbox| && states[i].db.outbox[at[k]].event == inputs[k].event && inputs[k].event.taskId == subject
    requires forall j, k :: 0 <= j < k < |at| ==> at[j] < at[k]
    ensures P.Chronicle(inputs, subject)
  {
    forall j, k | 0 <= j < k < |inputs| ensures inputs[j].event.version < inputs[k].event.version {
      assert at[j] < at[k];
      RunEventsOrdered(states, steps, i, at[j], at[k]);
    }
  }

  /** Beside a task's recorded closing event, every recorded event is another task's, an earlier one, or that one. */
  lemma {:induction false} RecordedKnown(
      states: seq<World>, steps: seq<DbStep>, i: nat, closing: set<Status>, final: Event, input: P.Input)
    requires IsRun(states, steps) && i <= |steps| && Recorded(states[i], final) && Recorded(states[i], input.event)
    requires Terminal(final.status) && final.status in closing
    ensures C.Known(input, closing, final.taskId, final.version)
  {
    var outbox := states[i].db.outbox;
    var a :| 0 <= a < |outbox| && outbox[a].event == final;
    var b :| 0 <= b < |outbox| && outbox[b].event == input.event;
    if input.event.taskId == final.taskId {
      if a < b {
        RunEventsOrdered(states, steps, i, a, b);
      } else if b < a {
        RunEventsOrdered(states, steps, i, b, a);
      }
    }
  }

  /** An operation of a store that projects what the engine recorded: a planned step, a read or a prune. */
  ghost predicate Projecting(w: World, op: R.Op, closing: set<Status>, size: nat)
    requires size > 0
  {
    || op.Marking? || op.MarkingAll? || op.Pruning?
    || exists input: P.Input, a: V.Step, m: Redelivery.Mint :: Recorded(w, input.event) && C.Runs(op, input, a, m, closing, size)
  }

  /** Running the plan of the closing event. */
  ghost predicate Closing(op: R.Op, final: Event, closing: set<Status>, size: nat)
    requires size > 0
  {
    exists input: P.Input, a: V.Step, m: Redelivery.Mint :: input.event == final && C.Runs(op, input, a, m, closing, size)
  }

  /**
   * Closed stays closed, of the engine's own events: in any run of a notification store that projects
   * events an engine recorded, in any order and any number of times, once a task's closing event has been
   * projected its notifications stay closed while its watermark is kept.
   */
  lemma {:induction false} EngineClosedStaysClosed(
      engine: seq<World>, engineSteps: seq<DbStep>, i: nat, closing: set<Status>, size: nat, final: Event,
      states: seq<N.Store>, used: seq<set<Id>>, ops: seq<R.Op>, k: nat, j: nat, id: Id)
    requires IsRun(engine, engineSteps) && i <= |engineSteps| && size > 0
    requires Recorded(engine[i], final) && Terminal(final.status) && final.status in closing
    requires R.IsRun(states, used, ops) && k < j <= |ops|
    requires forall n :: 0 <= n < |ops| ==> Projecting(engine[i], ops[n], closing, size)
    requires Closing(ops[k], final, closing, size)
    requires forall n :: k < n <= j ==> (final.taskId, N.ALL_KINDS) in states[n].watermarks
    requires id in states[j].notifications && states[j].notifications[id].subject == final.taskId
    ensures states[j].notifications[id].state == State.Closed
  {
    forall n | 0 <= n < |ops| ensures C.Projected(ops[n], closing, size, final.taskId, final.version) {
      KnownProjected(engine, engineSteps, i, closing, size, final, ops[n]);
    }
    var input: P.Input, a: V.Step, m: Redelivery.Mint :| input.event == final && C.Runs(ops[k], input, a, m, closing, size);
    assert C.Closes(input, closing, final.taskId, final.version);
    C.ClosedStaysClosed(states, used, ops, closing, size, final.taskId, final.version, k, j, id);
  }

  lemma {:induction false} KnownProjected(
      engine: seq<World>, engineSteps: seq<DbStep>, i: nat, closing: set<Status>, size: nat, final: Event, op: R.Op)
    requires IsRun(engine, engineSteps) && i <= |engineSteps| && size > 0
    requires Recorded(engine[i], final) && Terminal(final.status) && final.status in closing
    requires Projecting(engine[i], op, closing, size)
    ensures C.Projected(op, closing, size, final.taskId, final.version)
  {
    if !(op.Marking? || op.MarkingAll? || op.Pruning?) {
      var input: P.Input, a: V.Step, m: Redelivery.Mint :| Recorded(engine[i], input.event) && C.Runs(op, input, a, m, closing, size);
      RecordedKnown(engine, engineSteps, i, closing, final, input);
    }
  }

  /** Redelivering one task's recorded events, all of them at least once, leaves what delivering each once would. */
  lemma {:induction false} EngineReplay(
      engine: seq<World>, engineSteps: seq<DbStep>, i: nat, inputs: seq<P.Input>, at: seq<nat>, subject: TaskId,
      closing: set<Status>, size: nat, ds: seq<Replay.Delivery>,
      stores: seq<N.Store>, mints: seq<Redelivery.Mint>, onceStores: seq<N.Store>, onceMints: seq<Redelivery.Mint>, v: V.View)
    requires IsRun(engine, engineSteps) && i <= |engineSteps| && |at| == |inputs| && size > 0
    requires forall k :: 0 <= k < |at| ==>
               at[k] < |engine[i].db.outbox| && engine[i].db.outbox[at[k]].event == inputs[k].event && inputs[k].event.taskId == subject
    requires forall j, k :: 0 <= j < k < |at| ==> at[j] < at[k]
    requires Replay.Complete(P.PlansOf(inputs, closing, size), ds)
    requires Redelivery.StoreRun([Replay.Flat(P.PlansOf(inputs, closing, size))], stores,
                                 Replay.AllActs([P.PlansOf(inputs, closing, size)], ds), mints)
    requires Redelivery.StoreRun([Replay.Flat(P.PlansOf(inputs, closing, size))], onceStores,
                                 Replay.AllActs([P.PlansOf(inputs, closing, size)], Replay.EachFrom(P.PlansOf(inputs, closing, size), 0)),
                                 onceMints)
    requires V.Views(stores[0], v) && V.Views(onceStores[0], v)
    ensures Redelivery.Alike(stores[|stores| - 1], onceStores[|onceStores| - 1])
  {
    RecordedChronicle(engine, engineSteps, i, inputs, at, subject);
    Redelivery.SameAsEachOnce(inputs, subject, closing, size, ds, stores, mints, onceStores, onceMints, v);
  }
}
