/**
 * The projection run against stores: identifiers and instants are minted afresh by every call, and
 * the notifications still do not depend on what is redelivered.
 */
module Redelivery {
  import opened Basics
  import opened Notifications
  import opened NotificationStore
  import opened NotificationView
  import opened Replay
  import opened Projection
  import L = Lifecycle

  /** What one call draws from the clock and the identifier generator. */
  datatype Mint = Mint(at: Time, ids: seq<Id>, names: string -> Id)

  /** Recipients reading the ACTIVE notifications under some keys. */
  function ReadAll(ns: map<Id, Notification>, keys: set<(string, string)>, at: Time): map<Id, Notification> {
    map id | id in ns :: if KeyOf(ns[id]) in keys && ns[id].state == Active then Opened(ns[id], at) else ns[id]
  }

  function SubjectOf(ds: seq<Draft>): string {
    if ds == [] then "" else ds[0].subject
  }

  /** The drafts of one call name one subject, as `validatePlan` demands. */
  ghost predicate OneSubject(a: Step) {
    a.PublishStep? ==> forall d :: d in a.drafts ==> d.subject == SubjectOf(a.drafts)
  }

  ghost function StoreExec(s: Store, a: Step, m: Mint): Store
    requires a.PublishStep? ==> |m.ids| == |a.drafts|
  {
    match a
    case PublishStep(ds) => Insert(s, SubjectOf(ds), Stamped(ds, m.ids, m.at))
    case CloseStep(req) => Close(s, req, m.at, m.names)
  }

  /** The generator gives one new identifier per draft and per successor. */
  ghost predicate Fits(s: Store, a: Step, m: Mint) {
    match a
    case PublishStep(ds) => |m.ids| == |ds| && Unused(m.ids, s.notifications)
    case CloseStep(req) =>
      Mints(m.names, Succeeded(s.notifications, CloseMarks(s.watermarks, req, m.at), req), s.notifications)
  }

  /** One act on a store; the mint is whatever the generators gave. */
  ghost predicate StoreActs(streams: Streams, s: Store, act: Act, m: Mint, t: Store) {
    match act
    case ReadBy(keys) => t == Store(ReadAll(s.notifications, keys, m.at), s.watermarks)
    case Do(task, pos) =>
      task < |streams| && pos < |streams[task]| &&
      Fits(s, streams[task][pos], m) && t == StoreExec(s, streams[task][pos], m)
  }

  /** A run of a store through a schedule. */
  ghost predicate StoreRun(streams: Streams, stores: seq<Store>, acts: seq<Act>, mints: seq<Mint>) {
    && |stores| == |acts| + 1 && |mints| == |acts|
    && forall i :: 0 <= i < |acts| ==> StoreActs(streams, stores[i], acts[i], mints[i], stores[i + 1])
  }

  lemma ReadShows(s: Store, v: View, keys: set<(string, string)>, at: Time)
    requires Views(s, v)
    ensures Views(Store(ReadAll(s.notifications, keys, at), s.watermarks), View(ReadRows(v.rows, keys), v.marks))
  {
    var ns, rows := ReadAll(s.notifications, keys, at), ReadRows(v.rows, keys);
    forall k | k in rows ensures Shown(ns, k) {
      assert Shown(s.notifications, k);
      var id :| id in s.notifications && KeyOf(s.notifications[id]) == k;
      assert KeyOf(ns[id]) == k;
    }
  }

  lemma ActShows(streams: Streams, s: Store, v: View, act: Act, m: Mint, t: Store)
    requires Views(s, v) && StoreActs(streams, s, act, m, t)
    requires act.Do? ==> OneSubject(streams[act.task][act.pos])
    ensures Views(t, Perform(streams, v, act))
  {
    match act
    case ReadBy(keys) => ReadShows(s, v, keys, m.at);
    case Do(task, pos) =>
      match streams[task][pos]
      case PublishStep(ds) => PublishShows(s, v, SubjectOf(ds), ds, m.ids, m.at);
      case CloseStep(req) =>
        SameSucceeded(s, v, req, m.at);
        CloseShows(s, v, req, m.at, m.names);
  }

  /** Whatever identifiers and instants a run draws, its last store shows the run of the views. */
  lemma {:induction false} RunShows(streams: Streams, stores: seq<Store>, v: View, acts: seq<Act>, mints: seq<Mint>)
    requires StoreRun(streams, stores, acts, mints) && Views(stores[0], v)
    requires forall t, p :: 0 <= t < |streams| && 0 <= p < |streams[t]| ==> OneSubject(streams[t][p])
    ensures Views(stores[|acts|], Run(streams, v, acts))
    decreases |acts|
  {
    if acts != [] {
      assert StoreActs(streams, stores[0], acts[0], mints[0], stores[1]);
      ActShows(streams, stores[0], v, acts[0], mints[0], stores[1]);
      assert StoreRun(streams, stores[1..], acts[1..], mints[1..]);
      RunShows(streams, stores[1..], Perform(streams, v, acts[0]), acts[1..], mints[1..]);
    }
  }

  /** Two stores that agree on recipients, kinds, versions, states, reasons and watermark versions. */
  ghost predicate Alike(s: Store, t: Store) {
    exists v :: Views(s, v) && Views(t, v)
  }

  /**
   * Replay insensitivity. Events of any number of tasks are delivered in version order per task, each
   * perhaps several times, perhaps stopping midway, with earlier events redelivered at any moment and
   * recipients reading in between. The store ends alike to one that ran each step the first time only.
   */
  lemma ReplayInsensitive(
      tasks: seq<seq<Input>>, subjects: seq<string>, closing: set<L.Status>, size: nat, ds: seq<Delivery>,
      stores: seq<Store>, mints: seq<Mint>, onceStores: seq<Store>, onceMints: seq<Mint>, v: View)
    requires size > 0 && Chronicles(tasks, subjects)
    requires Legal(AllPlans(tasks, closing, size), Zeros(|tasks|), ds)
    requires StoreRun(StreamsOf(AllPlans(tasks, closing, size)), stores, AllActs(AllPlans(tasks, closing, size), ds), mints)
    requires StoreRun(StreamsOf(AllPlans(tasks, closing, size)), onceStores,
                      Once(Zeros(|tasks|), AllActs(AllPlans(tasks, closing, size), ds)), onceMints)
    requires Views(stores[0], v) && Views(onceStores[0], v)
    ensures Alike(stores[|stores| - 1], onceStores[|onceStores| - 1])
  {
    var plans := AllPlans(tasks, closing, size);
    var streams := StreamsOf(plans);
    ChroniclesCoherent(tasks, subjects, closing, size);
    forall t, p | 0 <= t < |streams| && 0 <= p < |streams[t]| ensures OneSubject(streams[t][p]) {
      var i :| 0 <= i < |tasks[t]| && Plain(streams[t][p], subjects[t], tasks[t][i].event.version);
    }
    RedeliveryHarmless(plans, v, ds);
    RunShows(streams, stores, v, AllActs(plans, ds), mints);
    RunShows(streams, onceStores, v, Once(Zeros(|tasks|), AllActs(plans, ds)), onceMints);
  }

  lemma OneChronicle(inputs: seq<Input>, subject: string, closing: set<L.Status>, size: nat)
    requires size > 0 && Chronicle(inputs, subject)
    ensures Coherent([Flat(PlansOf(inputs, closing, size))])
    ensures forall t, p :: 0 <= t < 1 && 0 <= p < |[Flat(PlansOf(inputs, closing, size))][t]| ==>
              OneSubject([Flat(PlansOf(inputs, closing, size))][t][p])
  {
    var plans := PlansOf(inputs, closing, size);
    var streams := [Flat(plans)];
    assert AllPlans([inputs], closing, size) == [plans] && StreamsOf([plans]) == streams;
    ChroniclesCoherent([inputs], [subject], closing, size);
    forall t, p | 0 <= t < 1 && 0 <= p < |streams[t]| ensures OneSubject(streams[t][p]) {
      var i :| 0 <= i < |inputs| && Plain(streams[t][p], subject, inputs[i].event.version);
    }
  }

  /**
   * One task, every event delivered in full at least once: however its deliveries are repeated and cut
   * short, the store ends alike to one to which each event was delivered exactly once.
   */
  lemma SameAsEachOnce(
      inputs: seq<Input>, subject: string, closing: set<L.Status>, size: nat, ds: seq<Delivery>,
      stores: seq<Store>, mints: seq<Mint>, onceStores: seq<Store>, onceMints: seq<Mint>, v: View)
    requires size > 0 && Chronicle(inputs, subject)
    requires Complete(PlansOf(inputs, closing, size), ds)
    requires StoreRun([Flat(PlansOf(inputs, closing, size))], stores, AllActs([PlansOf(inputs, closing, size)], ds), mints)
    requires StoreRun([Flat(PlansOf(inputs, closing, size))], onceStores,
                      AllActs([PlansOf(inputs, closing, size)], EachFrom(PlansOf(inputs, closing, size), 0)), onceMints)
    requires Views(stores[0], v) && Views(onceStores[0], v)
    ensures Alike(stores[|stores| - 1], onceStores[|onceStores| - 1])
  {
    var plans := PlansOf(inputs, closing, size);
    var streams := [Flat(plans)];
    OneChronicle(inputs, subject, closing, size);
    EachOnceComplete(plans);
    OneTaskDelivered(plans, v, ds);
    OneTaskDelivered(plans, v, EachFrom(plans, 0));
    RunShows(streams, stores, v, AllActs([plans], ds), mints);
    RunShows(streams, onceStores, v, AllActs([plans], EachFrom(plans, 0)), onceMints);
  }
}
