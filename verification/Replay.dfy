/**
 * Why redelivery is harmless. A task's events become an ordered list of close and publish steps.
 * Relays run those steps in order but may run any of the earlier ones again, in whole or in part,
 * while other tasks' steps and recipients' reads happen in between.
 */
module Replay {
  import opened Basics
  import opened Notifications
  import opened NotificationStore
  import opened NotificationView

  /** A close that has nothing left to do. */
  ghost predicate CloseDone(v: View, req: CloseRequest) {
    && (forall k :: k in v.rows ==> !RowReached(k.1, v.rows[k], req))
    && (req.subject, ALL_KINDS) in v.marks
    && (forall key :: key in ClosedKeys(req) ==> key in v.marks && req.version <= v.marks[key])
  }

  /** A step that would change nothing. */
  ghost predicate Done(v: View, a: Step) {
    match a
    case PublishStep(ds) => forall d :: d in ds ==> DraftDone(v, d)
    case CloseStep(req) => CloseDone(v, req)
  }

  /** Whether a close would close a notification published as stated. */
  predicate Hits(req: CloseRequest, subject: string, recipient: string, kind: string, version: int) {
    RowReached(recipient, Row(subject, kind, version, Active, ""), req)
  }

  /** The close does not reach the successors it publishes itself. */
  predicate SelfOk(a: Step) {
    a.CloseStep? && a.req.successor.Some? ==> a.req.kinds != [] && a.req.successor.value.kind !in a.req.kinds
  }

  /** Running `b` after `a` leaves `a` nothing to redo. */
  ghost predicate Compatible(a: Step, b: Step) {
    match (a, b)
    case (PublishStep(ds), CloseStep(req)) =>
      forall d :: d in ds && d.coalesce && d.subject == req.subject ==> d.version < req.version
    case (CloseStep(req), PublishStep(ds)) =>
      forall d :: d in ds ==> !Hits(req, d.subject, d.recipient, d.kind, d.version)
    case (CloseStep(req), CloseStep(later)) =>
      later.successor.Some? ==>
        forall r :: !Hits(req, later.subject, r, later.successor.value.kind, later.successor.value.version)
    case _ => true
  }

  // ---------------------------------------------------------------- one step

  lemma {:induction false} DoneChangesNothing(v: View, a: Step)
    requires Done(v, a)
    ensures Exec(v, a) == v
  {
    match a
    case PublishStep(ds) => PublishDone(v, ds);
    case CloseStep(req) =>
      assert ClosedRows(v.rows, req) == v.rows;
      assert CloseLevels(v.marks, req) == v.marks;
      if req.successor.Some? {
        assert v.rows + SuccessorRows(req, ViewSucceeded(v, req)) == v.rows;
      }
  }

  lemma {:induction false} PublishDone(v: View, ds: seq<Draft>)
    requires forall d :: d in ds ==> DraftDone(v, d)
    ensures Publish(v, ds) == v
  {
    if ds != [] {
      PublishDone(v, ds[..|ds| - 1]);
    }
  }

  /** What publishing can only add to. */
  ghost predicate Grows(v: View, w: View) {
    && (forall k :: k in v.rows ==> k in w.rows && w.rows[k] == v.rows[k])
    && (forall key :: key in v.marks ==> key in w.marks && v.marks[key] <= w.marks[key])
  }

  lemma GrowsDraft(v: View, w: View, d: Draft)
    requires Grows(v, w) && DraftDone(v, d)
    ensures DraftDone(w, d)
  {
    if d.coalesce && ViewOpen(v, d.recipient, d.subject, d.kind) {
      var source :| Holds(v, source, d.recipient, d.subject, d.kind);
      assert Holds(w, source, d.recipient, d.subject, d.kind);
    }
  }

  lemma PublishOneGrows(v: View, d: Draft)
    ensures Grows(v, PublishOne(v, d)) && DraftDone(PublishOne(v, d), d)
  {
  }

  lemma {:induction false} PublishGrows(v: View, ds: seq<Draft>)
    ensures Grows(v, Publish(v, ds))
    ensures forall d :: d in ds ==> DraftDone(Publish(v, ds), d)
    ensures forall k :: k in Publish(v, ds).rows && k !in v.rows ==>
              exists d :: d in ds && k == (d.sourceId, d.recipient) &&
                          Publish(v, ds).rows[k] == Row(d.subject, d.kind, d.version, Active, "")
  {
    if ds != [] {
      var k := |ds| - 1;
      assert ds == ds[..k] + [ds[k]];
      PublishGrows(v, ds[..k]);
      PublishOneGrows(Publish(v, ds[..k]), ds[k]);
      forall d | d in ds[..k] ensures DraftDone(Publish(v, ds), d) {
        GrowsDraft(Publish(v, ds[..k]), Publish(v, ds), d);
      }
    }
  }

  /** A close leaves nothing it reaches, unless it publishes such a thing itself. */
  lemma CloseEstablishes(v: View, req: CloseRequest)
    requires SelfOk(CloseStep(req))
    ensures CloseDone(CloseView(v, req), req)
  {
  }

  lemma Establishes(v: View, a: Step)
    requires SelfOk(a)
    ensures Done(Exec(v, a), a)
  {
    match a
    case PublishStep(ds) => PublishGrows(v, ds);
    case CloseStep(req) => CloseEstablishes(v, req);
  }

  lemma DraftSurvivesClose(v: View, d: Draft, req: CloseRequest)
    requires DraftDone(v, d) && (d.coalesce && d.subject == req.subject ==> d.version < req.version)
    ensures DraftDone(CloseView(v, req), d)
  {
    var w := CloseView(v, req);
    if d.coalesce && ViewOpen(v, d.recipient, d.subject, d.kind) {
      var source :| Holds(v, source, d.recipient, d.subject, d.kind);
      if RowReached(d.recipient, v.rows[(source, d.recipient)], req) {
        assert (d.subject, if req.kinds == [] then ALL_KINDS else d.kind) in ClosedKeys(req);
        assert d.version < ViewFloor(w.marks, d.subject, d.kind);
      } else {
        assert Holds(w, source, d.recipient, d.subject, d.kind);
      }
    }
  }

  lemma CloseSurvivesPublish(v: View, req: CloseRequest, ds: seq<Draft>)
    requires CloseDone(v, req) && forall d :: d in ds ==> !Hits(req, d.subject, d.recipient, d.kind, d.version)
    ensures CloseDone(Publish(v, ds), req)
  {
    PublishGrows(v, ds);
  }

  lemma CloseSurvivesClose(v: View, req: CloseRequest, later: CloseRequest)
    requires CloseDone(v, req)
    requires later.successor.Some? ==>
               forall r :: !Hits(req, later.subject, r, later.successor.value.kind, later.successor.value.version)
    ensures CloseDone(CloseView(v, later), req)
  {
    var w := CloseView(v, later);
    forall k | k in w.rows ensures !RowReached(k.1, w.rows[k], req) {
      if later.successor.Some? && k in SuccessorRows(later, ViewSucceeded(v, later)) {
        assert !Hits(req, later.subject, k.1, later.successor.value.kind, later.successor.value.version);
      } else {
        assert !RowReached(k.1, v.rows[k], req);
      }
    }
  }

  lemma Survives(v: View, a: Step, b: Step)
    requires Done(v, a) && Compatible(a, b)
    ensures Done(Exec(v, b), a)
  {
    match (a, b)
    case (PublishStep(ds), PublishStep(es)) =>
      PublishGrows(v, es);
      forall d | d in ds ensures DraftDone(Publish(v, es), d) { GrowsDraft(v, Publish(v, es), d); }
    case (PublishStep(ds), CloseStep(req)) =>
      forall d | d in ds ensures DraftDone(CloseView(v, req), d) { DraftSurvivesClose(v, d, req); }
    case (CloseStep(req), PublishStep(ds)) => CloseSurvivesPublish(v, req, ds);
    case (CloseStep(req), CloseStep(later)) => CloseSurvivesClose(v, req, later);
  }

  /** A recipient reads notifications. */
  function ReadRows(rows: map<(string, string), Row>, keys: set<(string, string)>): map<(string, string), Row> {
    map k | k in rows :: if k in keys && rows[k].state == Active then rows[k].(state := Read) else rows[k]
  }

  lemma ReadSurvives(v: View, a: Step, keys: set<(string, string)>)
    requires Done(v, a)
    ensures Done(View(ReadRows(v.rows, keys), v.marks), a)
  {
    var w := View(ReadRows(v.rows, keys), v.marks);
    match a
    case PublishStep(ds) =>
      forall d | d in ds ensures DraftDone(w, d) {
        if d.coalesce && ViewOpen(v, d.recipient, d.subject, d.kind) {
          var source :| Holds(v, source, d.recipient, d.subject, d.kind);
          assert Holds(w, source, d.recipient, d.subject, d.kind);
        }
      }
    case CloseStep(req) =>
      forall k | k in w.rows ensures !RowReached(k.1, w.rows[k], req) {
        assert !RowReached(k.1, v.rows[k], req);
      }
  }

  // ---------------------------------------------------------------- schedules

  /** Each task's steps, in the order of its events and of each event's plan. */
  type Streams = seq<seq<Step>>

  /** Running the step at a position of a task's stream, or a read by a recipient. */
  datatype Act = Do(task: nat, pos: nat) | ReadBy(keys: set<(string, string)>)

  predicate Startable(streams: Streams, progress: seq<nat>, act: Act) {
    act.Do? ==> act.task < |streams| && act.task < |progress| && act.pos < |streams[act.task]| && act.pos <= progress[act.task]
  }

  function Progressed(progress: seq<nat>, act: Act): seq<nat> {
    if act.Do? && act.task < |progress| && act.pos == progress[act.task] then progress[act.task := act.pos + 1] else progress
  }

  /** No step runs before those ahead of it in its own task have run once; anything may run again. */
  predicate InOrder(streams: Streams, progress: seq<nat>, acts: seq<Act>)
    decreases |acts|
  {
    acts == [] || (Startable(streams, progress, acts[0]) && InOrder(streams, Progressed(progress, acts[0]), acts[1..]))
  }

  predicate Repeat(progress: seq<nat>, act: Act) {
    act.Do? && act.task < |progress| && act.pos < progress[act.task]
  }

  /** The schedule without the steps it runs again. */
  function Once(progress: seq<nat>, acts: seq<Act>): seq<Act>
    decreases |acts|
  {
    if acts == [] then []
    else if Repeat(progress, acts[0]) then Once(progress, acts[1..])
    else [acts[0]] + Once(Progressed(progress, acts[0]), acts[1..])
  }

  ghost function Perform(streams: Streams, v: View, act: Act): View {
    match act
    case ReadBy(keys) => View(ReadRows(v.rows, keys), v.marks)
    case Do(t, p) => if t < |streams| && p < |streams[t]| then Exec(v, streams[t][p]) else v
  }

  ghost function Run(streams: Streams, v: View, acts: seq<Act>): View
    decreases |acts|
  {
    if acts == [] then v else Run(streams, Perform(streams, v, acts[0]), acts[1..])
  }

  /** Each step is compatible with the later ones of its task and with every step of another task. */
  ghost predicate Coherent(streams: Streams) {
    && (forall t, p :: 0 <= t < |streams| && 0 <= p < |streams[t]| ==> SelfOk(streams[t][p]))
    && (forall t, p, u, q :: 0 <= t < |streams| && 0 <= p < |streams[t]| && 0 <= u < |streams| && 0 <= q < |streams[u]| ==>
          (t == u ==> p < q) ==> Compatible(streams[t][p], streams[u][q]))
  }

  /** Every step counted as run has nothing left to do. */
  ghost predicate Settled(streams: Streams, progress: seq<nat>, v: View) {
    && |progress| == |streams|
    && (forall t :: 0 <= t < |streams| ==> progress[t] <= |streams[t]|)
    && (forall t, p :: 0 <= t < |streams| && 0 <= p < progress[t] ==> Done(v, streams[t][p]))
  }

  lemma PerformKeepsSettled(streams: Streams, progress: seq<nat>, v: View, act: Act)
    requires Coherent(streams) && Settled(streams, progress, v) && Startable(streams, progress, act)
    ensures Repeat(progress, act) ==> Perform(streams, v, act) == v
    ensures Settled(streams, Progressed(progress, act), Perform(streams, v, act))
  {
    if Repeat(progress, act) {
      DoneChangesNothing(v, streams[act.task][act.pos]);
    } else {
      var w := Perform(streams, v, act);
      var after := Progressed(progress, act);
      forall t, p | 0 <= t < |streams| && 0 <= p < after[t] ensures Done(w, streams[t][p]) {
        match act
        case ReadBy(keys) => ReadSurvives(v, streams[t][p], keys);
        case Do(u, q) =>
          if t == u && p == q {
            Establishes(v, streams[u][q]);
          } else {
            Survives(v, streams[t][p], streams[u][q]);
          }
      }
    }
  }

  /** Dropping every repeated step from an in-order schedule changes nothing. */
  lemma {:induction false} RepeatsChangeNothing(streams: Streams, progress: seq<nat>, v: View, acts: seq<Act>)
    requires Coherent(streams) && Settled(streams, progress, v) && InOrder(streams, progress, acts)
    ensures Run(streams, v, acts) == Run(streams, v, Once(progress, acts))
    decreases |acts|
  {
    if acts != [] {
      PerformKeepsSettled(streams, progress, v, acts[0]);
      RepeatsChangeNothing(streams, Progressed(progress, acts[0]), Perform(streams, v, acts[0]), acts[1..]);
      if !Repeat(progress, acts[0]) {
        assert Once(progress, acts)[1..] == Once(Progressed(progress, acts[0]), acts[1..]);
      }
    }
  }

  // ---------------------------------------------------------------- deliveries of whole events

  /** The plans of a task's events, in version order. */
  type Plans = seq<seq<Step>>

  /** A delivery attempt that ran the first `ran` steps of an event's plan, or a read. */
  datatype Delivery = Attempt(task: nat, event: nat, ran: nat) | Reading(keys: set<(string, string)>)

  function Flat(plans: Plans): seq<Step> {
    if plans == [] then [] else Flat(plans[..|plans| - 1]) + plans[|plans| - 1]
  }

  /** How many steps come before an event's own. */
  function Offset(plans: Plans, event: nat): nat
    requires event <= |plans|
  {
    |Flat(plans[..event])|
  }

  function StreamsOf(tasks: seq<Plans>): Streams {
    seq(|tasks|, t requires 0 <= t < |tasks| => Flat(tasks[t]))
  }

  /** An event is attempted only once every earlier event of its task has been delivered in full. */
  predicate Deliverable(tasks: seq<Plans>, progress: seq<nat>, d: Delivery) {
    d.Attempt? ==>
      d.task < |tasks| && d.task < |progress| && d.event < |tasks[d.task]| && d.ran <= |tasks[d.task][d.event]| &&
      Offset(tasks[d.task], d.event) <= progress[d.task]
  }

  function ActsFrom(task: nat, start: nat, n: nat): seq<Act>
    decreases n
  {
    if n == 0 then [] else [Do(task, start)] + ActsFrom(task, start + 1, n - 1)
  }

  function ActsOf(tasks: seq<Plans>, d: Delivery): seq<Act> {
    match d
    case Reading(keys) => [ReadBy(keys)]
    case Attempt(t, e, ran) => if t < |tasks| && e < |tasks[t]| then ActsFrom(t, Offset(tasks[t], e), ran) else []
  }

  function ProgressAfter(progress: seq<nat>, acts: seq<Act>): seq<nat>
    decreases |acts|
  {
    if acts == [] then progress else ProgressAfter(Progressed(progress, acts[0]), acts[1..])
  }

  predicate Legal(tasks: seq<Plans>, progress: seq<nat>, ds: seq<Delivery>)
    decreases |ds|
  {
    ds == [] || (Deliverable(tasks, progress, ds[0]) && Legal(tasks, ProgressAfter(progress, ActsOf(tasks, ds[0])), ds[1..]))
  }

  function AllActs(tasks: seq<Plans>, ds: seq<Delivery>): seq<Act> {
    if ds == [] then [] else ActsOf(tasks, ds[0]) + AllActs(tasks, ds[1..])
  }

  lemma {:induction false} InOrderAppend(streams: Streams, progress: seq<nat>, a: seq<Act>, b: seq<Act>)
    requires InOrder(streams, progress, a) && InOrder(streams, ProgressAfter(progress, a), b)
    ensures InOrder(streams, progress, a + b)
    decreases |a|
  {
    if a == [] {
      assert a + b == b;
    } else {
      assert (a + b)[0] == a[0] && (a + b)[1..] == a[1..] + b;
      InOrderAppend(streams, Progressed(progress, a[0]), a[1..], b);
    }
  }

  lemma {:induction false} ActsInOrder(streams: Streams, progress: seq<nat>, task: nat, start: nat, n: nat)
    requires task < |streams| == |progress| && start <= progress[task] && start + n <= |streams[task]|
    ensures InOrder(streams, progress, ActsFrom(task, start, n))
    decreases n
  {
    if n > 0 {
      ActsInOrder(streams, Progressed(progress, Do(task, start)), task, start + 1, n - 1);
      assert ActsFrom(task, start, n)[1..] == ActsFrom(task, start + 1, n - 1);
    }
  }

  lemma {:induction false} ProgressLength(progress: seq<nat>, acts: seq<Act>)
    ensures |ProgressAfter(progress, acts)| == |progress|
    decreases |acts|
  {
    if acts != [] {
      ProgressLength(Progressed(progress, acts[0]), acts[1..]);
    }
  }

  /** A plan occupies the positions from its event's offset. */
  lemma {:induction false} OffsetFits(plans: Plans, event: nat)
    requires event < |plans|
    ensures Offset(plans, event) + |plans[event]| <= |Flat(plans)|
    decreases |plans|
  {
    var init := plans[..|plans| - 1];
    if event < |init| {
      OffsetFits(init, event);
      assert init[..event] == plans[..event];
    } else {
      assert plans[..event] == init;
    }
  }

  lemma {:induction false} LegalInOrder(tasks: seq<Plans>, progress: seq<nat>, ds: seq<Delivery>)
    requires |progress| == |tasks| && Legal(tasks, progress, ds)
    ensures InOrder(StreamsOf(tasks), progress, AllActs(tasks, ds))
    decreases |ds|
  {
    if ds != [] {
      var d := ds[0];
      if d.Attempt? {
        OffsetFits(tasks[d.task], d.event);
        ActsInOrder(StreamsOf(tasks), progress, d.task, Offset(tasks[d.task], d.event), d.ran);
      }
      var after := ProgressAfter(progress, ActsOf(tasks, d));
      ProgressLength(progress, ActsOf(tasks, d));
      LegalInOrder(tasks, after, ds[1..]);
      InOrderAppend(StreamsOf(tasks), progress, ActsOf(tasks, d), AllActs(tasks, ds[1..]));
    }
  }

  function Zeros(n: nat): seq<nat> {
    seq(n, _ => 0)
  }

  /**
   * Whatever is redelivered, in whole or in part, and whatever is read meanwhile, the notifications
   * are those of the same run in which each step of each event ran only the first time.
   */
  lemma RedeliveryHarmless(tasks: seq<Plans>, v: View, ds: seq<Delivery>)
    requires Coherent(StreamsOf(tasks)) && Legal(tasks, Zeros(|tasks|), ds)
    ensures Run(StreamsOf(tasks), v, AllActs(tasks, ds)) ==
            Run(StreamsOf(tasks), v, Once(Zeros(|tasks|), AllActs(tasks, ds)))
  {
    LegalInOrder(tasks, Zeros(|tasks|), ds);
    RepeatsChangeNothing(StreamsOf(tasks), Zeros(|tasks|), v, AllActs(tasks, ds));
  }

  // ---------------------------------------------------------------- one task delivered to the end

  ghost function ExecAll(v: View, steps: seq<Step>): View
    decreases |steps|
  {
    if steps == [] then v else ExecAll(Exec(v, steps[0]), steps[1..])
  }

  predicate NoReads(acts: seq<Act>) {
    forall i :: 0 <= i < |acts| ==> acts[i].Do?
  }

  lemma {:induction false} OnceIsEachInTurn(stream: seq<Step>, progress: nat, v: View, acts: seq<Act>)
    requires InOrder([stream], [progress], acts) && NoReads(acts) && progress <= |stream|
    ensures |ProgressAfter([progress], acts)| == 1
    ensures progress <= ProgressAfter([progress], acts)[0] <= |stream|
    ensures Run([stream], v, Once([progress], acts)) == ExecAll(v, stream[progress..ProgressAfter([progress], acts)[0]])
    decreases |acts|
  {
    if acts != [] {
      var act := acts[0];
      assert act.Do? && act.task == 0;
      assert NoReads(acts[1..]);
      if Repeat([progress], act) {
        OnceIsEachInTurn(stream, progress, v, acts[1..]);
      } else {
        assert Progressed([progress], act) == [progress + 1];
        OnceIsEachInTurn(stream, progress + 1, Exec(v, stream[progress]), acts[1..]);
        var rest := Once([progress + 1], acts[1..]);
        assert Once([progress], acts)[1..] == rest;
        var end := ProgressAfter([progress], acts)[0];
        assert stream[progress..end][1..] == stream[progress + 1..end];
      }
    }
  }

  /** A legal delivery of one task's events, each in full at least once. */
  ghost predicate Complete(plans: Plans, ds: seq<Delivery>) {
    && Legal([plans], [0], ds)
    && (forall i :: 0 <= i < |ds| ==> ds[i].Attempt?)
    && ProgressAfter([0], AllActs([plans], ds)) == [|Flat(plans)|]
  }

  /** Every complete delivery leaves what running each plan once leaves. */
  lemma OneTaskDelivered(plans: Plans, v: View, ds: seq<Delivery>)
    requires Coherent([Flat(plans)]) && Complete(plans, ds)
    ensures Run([Flat(plans)], v, AllActs([plans], ds)) == ExecAll(v, Flat(plans))
  {
    var stream, acts := Flat(plans), AllActs([plans], ds);
    assert StreamsOf([plans]) == [stream];
    assert Zeros(1) == [0];
    RedeliveryHarmless([plans], v, ds);
    LegalInOrder([plans], [0], ds);
    AttemptsOnly([plans], ds);
    OnceIsEachInTurn(stream, 0, v, acts);
    assert stream[0..|stream|] == stream;
  }

  /** Each event from one on, delivered once and in full. */
  function EachFrom(plans: Plans, event: nat): seq<Delivery>
    requires event <= |plans|
    decreases |plans| - event
  {
    if event == |plans| then [] else [Attempt(0, event, |plans[event]|)] + EachFrom(plans, event + 1)
  }

  lemma {:induction false} ProgressOver(start: nat, n: nat)
    ensures ProgressAfter([start], ActsFrom(0, start, n)) == [start + n]
    decreases n
  {
    if n > 0 {
      assert ActsFrom(0, start, n)[1..] == ActsFrom(0, start + 1, n - 1);
      assert Progressed([start], Do(0, start)) == [start + 1];
      ProgressOver(start + 1, n - 1);
    }
  }

  lemma {:induction false} ProgressAppend(progress: seq<nat>, a: seq<Act>, b: seq<Act>)
    ensures ProgressAfter(progress, a + b) == ProgressAfter(ProgressAfter(progress, a), b)
    decreases |a|
  {
    if a == [] {
      assert a + b == b;
    } else {
      assert (a + b)[0] == a[0] && (a + b)[1..] == a[1..] + b;
      ProgressAppend(Progressed(progress, a[0]), a[1..], b);
    }
  }

  lemma {:induction false} EachFromLegal(plans: Plans, event: nat)
    requires event <= |plans|
    ensures Legal([plans], [Offset(plans, event)], EachFrom(plans, event))
    ensures ProgressAfter([Offset(plans, event)], AllActs([plans], EachFrom(plans, event))) == [|Flat(plans)|]
    ensures forall d :: d in EachFrom(plans, event) ==> d.Attempt?
    decreases |plans| - event
  {
    if event == |plans| {
      assert plans[..event] == plans;
    } else {
      var start, d := Offset(plans, event), Attempt(0, event, |plans[event]|);
      assert plans[..event + 1][..event] == plans[..event];
      assert Offset(plans, event + 1) == start + |plans[event]|;
      ProgressOver(start, |plans[event]|);
      assert EachFrom(plans, event)[1..] == EachFrom(plans, event + 1);
      EachFromLegal(plans, event + 1);
      ProgressAppend([start], ActsOf([plans], d), AllActs([plans], EachFrom(plans, event + 1)));
    }
  }

  lemma EachOnceComplete(plans: Plans)
    ensures Complete(plans, EachFrom(plans, 0))
  {
    EachFromLegal(plans, 0);
    assert plans[..0] == [];
    forall i | 0 <= i < |EachFrom(plans, 0)| ensures EachFrom(plans, 0)[i].Attempt? {
      assert EachFrom(plans, 0)[i] in EachFrom(plans, 0);
    }
  }

  lemma {:induction false} AttemptsOnly(tasks: seq<Plans>, ds: seq<Delivery>)
    requires forall i :: 0 <= i < |ds| ==> ds[i].Attempt?
    ensures NoReads(AllActs(tasks, ds))
  {
    if ds != [] {
      AttemptsOnly(tasks, ds[1..]);
      if ds[0].task < |tasks| && ds[0].event < |tasks[ds[0].task]| {
        ActsAreDos(ds[0].task, Offset(tasks[ds[0].task], ds[0].event), ds[0].ran);
      }
    }
  }

  lemma {:induction false} ActsAreDos(task: nat, start: nat, n: nat)
    ensures NoReads(ActsFrom(task, start, n))
    decreases n
  {
    if n > 0 {
      ActsAreDos(task, start + 1, n - 1);
    }
  }
}
