/**
 * The default projection of task events onto notifications (tasknotify/rules.go, tasknotify/deliver.go):
 * which plan each event gets, and why the plans of a task's events are safe to redeliver.
 */
module Projection {
  import opened Basics
  import opened NotificationStore
  import opened NotificationView
  import opened Replay
  import L = Lifecycle

  const OFFER := "offer"
  const TAKEN := "taken"
  const ASSIGNED := "assigned"

  /** What the directory answered for an event's pool, and the host's title, links and data. */
  datatype Input = Input(event: L.Event, resolved: seq<string>, render: (string, string) -> string)

  function ClosingReason(s: L.Status): string {
    match s
    case Completed => "completed"
    case Failed => "failed"
    case Error => "errored"
    case Exited => "cancelled"
    case Obsolete => "obsoleted"
    case _ => ""
  }

  function DraftFor(input: Input, recipient: string, kind: string, coalesce: bool): Draft {
    Draft(recipient, input.event.id, input.event.taskId, kind, input.event.version, input.render(recipient, kind), coalesce)
  }

  /** The eligible actors without the one who acted. */
  function Eligible(resolved: seq<string>, actor: string): seq<string> {
    if resolved == [] then []
    else if resolved[0] == actor then Eligible(resolved[1..], actor)
    else [resolved[0]] + Eligible(resolved[1..], actor)
  }

  function Offers(input: Input, coalesce: bool): seq<Step> {
    var eligible := Eligible(input.resolved, input.event.actor);
    if eligible == [] then []
    else [PublishStep(seq(|eligible|, i requires 0 <= i < |eligible| => DraftFor(input, eligible[i], OFFER, coalesce)))]
  }

  function Assignment(input: Input): seq<Step> {
    var holder := input.event.assignee;
    if holder == "" || holder == input.event.actor then []
    else [PublishStep([DraftFor(input, holder, ASSIGNED, false)])]
  }

  function CloseOf(e: L.Event, kinds: seq<string>, reason: string): CloseRequest {
    CloseRequest(e.taskId, kinds, e.version, reason, "", None, [])
  }

  /** `defaultPlan`. */
  function DefaultPlan(input: Input, closing: set<L.Status>): seq<Step> {
    var e := input.event;
    if e.status in closing then [CloseStep(CloseOf(e, [], ClosingReason(e.status)))]
    else match e.kind
      case TaskCreated =>
        if e.status == L.Ready then Offers(input, false)
        else if e.status == L.Reserved then Assignment(input)
        else []
      case TaskClaimed =>
        [CloseStep(CloseOf(e, [OFFER], "taken").(
           successor := Some(Successor(e.id, TAKEN, e.version, input.render("", TAKEN))),
           successorSkip := [e.actor]))]
      case TaskReleased =>
        [CloseStep(CloseOf(e, [TAKEN, ASSIGNED], "released"))] + Offers(input, false)
      case TaskDelegated =>
        [CloseStep(CloseOf(e, [ASSIGNED], "reassigned").(except := e.assignee))] + Assignment(input)
      case TaskEscalated =>
        if e.status == L.Ready then Offers(input, true) else []
      case _ => []
  }

  /** `chunks`: drafts in batches of at most `size`, in order. */
  function Chunks(ds: seq<Draft>, size: nat): seq<seq<Draft>>
    requires size > 0
  {
    if |ds| <= size then (if ds == [] then [] else [ds]) else [ds[..size]] + Chunks(ds[size..], size)
  }

  /** The calls a plan makes: its closes, and each publish batch by batch. */
  function Calls(steps: seq<Step>, size: nat): seq<Step>
    requires size > 0
  {
    if steps == [] then [] else CallsOf(steps[0], size) + Calls(steps[1..], size)
  }

  function PlanOf(input: Input, closing: set<L.Status>, size: nat): seq<Step>
    requires size > 0
  {
    Calls(DefaultPlan(input, closing), size)
  }

  // ---------------------------------------------------------------- running a plan

  /** `validatePlan`: every publish has drafts, and every close and draft names the event's task. */
  predicate ValidPlan(subject: string, plan: seq<Step>) {
    forall i :: 0 <= i < |plan| ==> ValidStep(subject, plan[i])
  }

  predicate ValidStep(subject: string, a: Step) {
    match a
    case CloseStep(req) => req.subject == subject
    case PublishStep(ds) => ds != [] && forall i :: 0 <= i < |ds| ==> ds[i].subject == subject
  }

  function CallsOf(a: Step, size: nat): seq<Step>
    requires size > 0
  {
    if a.CloseStep? then [a]
    else
      var chunks := Chunks(a.drafts, size);
      seq(|chunks|, i requires 0 <= i < |chunks| => PublishStep(chunks[i]))
  }

  /**
   * `project`: an attempt makes the plan's calls in order and stops at the first that fails, so it makes a
   * prefix of them, and all of them exactly when it succeeds. An invalid plan makes none.
   */
  method Project(subject: string, plan: seq<Step>, size: nat, succeeds: nat -> bool) returns (made: seq<Step>, ok: bool)
    requires size > 0
    ensures !ValidPlan(subject, plan) ==> made == [] && !ok
    ensures |made| <= |Calls(plan, size)| && made == Calls(plan, size)[..|made|]
    ensures ok ==> made == Calls(plan, size) && AllSucceed(succeeds, 0, |made|)
    ensures !ok && ValidPlan(subject, plan) ==> made != [] && !succeeds(|made| - 1)
  {
    made, ok := [], ValidPlan(subject, plan);
    if !ok {
      return;
    }
    ghost var all := Calls(plan, size);
    assert plan[0..] == plan;
    for i := 0 to |plan|
      invariant made + Calls(plan[i..], size) == all && AllSucceed(succeeds, 0, |made|)
    {
      assert plan[i..][0] == plan[i] && plan[i..][1..] == plan[i + 1..];
      var calls := CallsOf(plan[i], size);
      var more, failed := MakeCalls(calls, |made|, succeeds);
      PrefixOf(made, calls, more, Calls(plan[i + 1..], size), all);
      made := made + more;
      if failed {
        return made, false;
      }
    }
    assert plan[|plan|..] == [] && made + [] == made;
  }

  /** The calls numbered from `from` up to `to` succeed. */
  ghost predicate AllSucceed(succeeds: nat -> bool, from: nat, to: nat) {
    forall k :: from <= k < to ==> succeeds(k)
  }

  /** The calls of one step, until one fails. */
  method MakeCalls(calls: seq<Step>, before: nat, succeeds: nat -> bool) returns (made: seq<Step>, failed: bool)
    ensures |made| <= |calls| && made == calls[..|made|]
    ensures !failed ==> made == calls && AllSucceed(succeeds, before, before + |made|)
    ensures failed ==> made != [] && !succeeds(before + |made| - 1)
  {
    made := [];
    for j := 0 to |calls|
      invariant made == calls[..j] && AllSucceed(succeeds, before, before + j)
    {
      made := made + [calls[j]];
      if !succeeds(before + j) {
        return made, true;
      }
    }
    return made, false;
  }

  lemma {:induction false} PrefixOf(made: seq<Step>, calls: seq<Step>, more: seq<Step>, rest: seq<Step>, all: seq<Step>)
    requires |more| <= |calls| && more == calls[..|more|] && made + (calls + rest) == all
    ensures |made + more| <= |all| && made + more == all[..|made + more|]
    ensures more == calls ==> (made + more) + rest == all
  {
    assert all == (made + more) + (calls[|more|..] + rest);
  }

  // ---------------------------------------------------------------- batching is invisible

  lemma {:induction false} PublishAppend(v: View, a: seq<Draft>, b: seq<Draft>)
    ensures Publish(v, a + b) == Publish(Publish(v, a), b)
    decreases |b|
  {
    if b == [] {
      assert a + b == a;
    } else {
      var k := |b| - 1;
      assert (a + b)[..|a + b| - 1] == a + b[..k];
      PublishAppend(v, a, b[..k]);
    }
  }

  ghost function PublishBatches(v: View, batches: seq<seq<Draft>>): View
    decreases |batches|
  {
    if batches == [] then v else PublishBatches(Publish(v, batches[0]), batches[1..])
  }

  /** Publishing batch by batch leaves what publishing everything at once would. */
  lemma {:induction false} BatchingInvisible(v: View, ds: seq<Draft>, size: nat)
    requires size > 0
    ensures PublishBatches(v, Chunks(ds, size)) == Publish(v, ds)
    ensures forall batch :: batch in Chunks(ds, size) ==> 0 < |batch| <= size && forall d :: d in batch ==> d in ds
    decreases |ds|
  {
    if |ds| > size {
      BatchingInvisible(Publish(v, ds[..size]), ds[size..], size);
      assert ds == ds[..size] + ds[size..];
      PublishAppend(v, ds[..size], ds[size..]);
      assert Chunks(ds, size)[1..] == Chunks(ds[size..], size);
    } else if ds != [] {
      assert Chunks(ds, size)[1..] == [];
    }
  }

  // ---------------------------------------------------------------- the default rules are coherent

  /** What every step planned for an event has in common. */
  ghost predicate Plain(a: Step, subject: string, version: int) {
    && SelfOk(a)
    && (match a
        case PublishStep(ds) => forall d :: d in ds ==> d.subject == subject && d.version == version
        case CloseStep(req) =>
          req.subject == subject && req.version == version &&
          (req.successor.Some? ==> req.successor.value.version == version))
  }

  ghost predicate Pairwise(steps: seq<Step>) {
    forall i, j :: 0 <= i < j < |steps| ==> Compatible(steps[i], steps[j])
  }

  ghost predicate AllPlain(steps: seq<Step>, subject: string, version: int) {
    forall a :: a in steps ==> Plain(a, subject, version)
  }

  lemma PlainAcrossVersions(a: Step, b: Step, subject: string, v: int, w: int)
    requires Plain(a, subject, v) && Plain(b, subject, w) && v < w
    ensures Compatible(a, b)
  {
  }

  lemma PlainAcrossTasks(a: Step, b: Step, s: string, t: string, v: int, w: int)
    requires Plain(a, s, v) && Plain(b, t, w) && s != t
    ensures Compatible(a, b)
  {
  }

  lemma PairwiseAppend(a: seq<Step>, b: seq<Step>)
    requires Pairwise(a) && Pairwise(b)
    requires forall x, y :: x in a && y in b ==> Compatible(x, y)
    ensures Pairwise(a + b)
  {
  }

  lemma {:induction false} CallsOfKeep(a: Step, size: nat, subject: string, version: int)
    requires size > 0 && Plain(a, subject, version)
    ensures AllPlain(CallsOf(a, size), subject, version) && Pairwise(CallsOf(a, size))
    ensures forall c :: c in CallsOf(a, size) ==> Narrows(c, a)
  {
    if a.PublishStep? {
      var calls := CallsOf(a, size);
      BatchingInvisible(View(map[], map[]), a.drafts, size);
      forall c | c in calls ensures c.PublishStep? && Narrows(c, a) && Plain(c, subject, version) {
        var i :| 0 <= i < |calls| && calls[i] == c;
        assert c.drafts in Chunks(a.drafts, size);
      }
      PublishesPairwise(calls);
    }
  }

  lemma {:induction false} PublishesPairwise(steps: seq<Step>)
    requires forall a :: a in steps ==> a.PublishStep?
    ensures Pairwise(steps)
  {
    forall i, j | 0 <= i < j < |steps| ensures Compatible(steps[i], steps[j]) {
      assert steps[i] in steps && steps[j] in steps;
    }
  }

  /** Batching keeps a plan's steps plain and pairwise compatible. */
  lemma {:induction false} CallsKeep(steps: seq<Step>, size: nat, subject: string, version: int)
    requires size > 0 && AllPlain(steps, subject, version) && Pairwise(steps)
    ensures AllPlain(Calls(steps, size), subject, version) && Pairwise(Calls(steps, size))
    ensures forall a :: a in Calls(steps, size) ==> exists b :: b in steps && Narrows(a, b)
    decreases |steps|
  {
    if steps != [] {
      var head, rest := steps[0], steps[1..];
      CallsKeep(rest, size, subject, version);
      CallsOfKeep(head, size, subject, version);
      var calls, later := CallsOf(head, size), Calls(rest, size);
      forall x, y | x in calls && y in later ensures Compatible(x, y) {
        var b :| b in rest && Narrows(y, b);
        NarrowsCompatible(x, head, y, b);
      }
      PairwiseAppend(calls, later);
    }
  }

  /** The same close, or some of the same drafts. */
  ghost predicate Narrows(a: Step, b: Step) {
    a == b || (a.PublishStep? && b.PublishStep? && forall d :: d in a.drafts ==> d in b.drafts)
  }

  lemma NarrowsCompatible(x: Step, a: Step, y: Step, b: Step)
    requires Narrows(x, a) && Narrows(y, b) && Compatible(a, b)
    ensures Compatible(x, y)
  {
  }

  lemma {:induction false} DefaultPlanCoherent(input: Input, closing: set<L.Status>)
    ensures AllPlain(DefaultPlan(input, closing), input.event.taskId, input.event.version)
    ensures Pairwise(DefaultPlan(input, closing))
  {
  }

  /** The default rules' plans pass the projector's own check. */
  lemma {:induction false} DefaultPlanValid(input: Input, closing: set<L.Status>)
    ensures ValidPlan(input.event.taskId, DefaultPlan(input, closing))
  {
  }

  /** Rows a step adds are never for this actor. */
  ghost predicate Spares(a: Step, actor: string) {
    match a
    case PublishStep(ds) => forall d :: d in ds ==> d.recipient != actor
    case CloseStep(req) => req.successor.Some? ==> actor in req.successorSkip
  }

  lemma {:induction false} EligibleSpares(resolved: seq<string>, actor: string)
    ensures forall x :: x in Eligible(resolved, actor) <==> x in resolved && x != actor
  {
    if resolved != [] {
      EligibleSpares(resolved[1..], actor);
      assert resolved == [resolved[0]] + resolved[1..];
    }
  }

  lemma {:induction false} OffersSpare(input: Input, coalesce: bool)
    ensures forall a :: a in Offers(input, coalesce) ==> Spares(a, input.event.actor)
  {
    var eligible := Eligible(input.resolved, input.event.actor);
    EligibleSpares(input.resolved, input.event.actor);
    if eligible != [] {
      var drafts := Offers(input, coalesce)[0].drafts;
      forall d | d in drafts ensures d.recipient != input.event.actor {
        var i :| 0 <= i < |drafts| && drafts[i] == d;
        assert eligible[i] in eligible;
      }
    }
  }

  /** No step the default rules plan addresses the actor of its event. */
  lemma {:induction false} PlanSpares(input: Input, closing: set<L.Status>)
    ensures forall a :: a in DefaultPlan(input, closing) ==> Spares(a, input.event.actor)
  {
    OffersSpare(input, false);
    OffersSpare(input, true);
  }

  lemma {:induction false} ExecSpares(v: View, a: Step, actor: string, k: (string, string))
    requires Spares(a, actor) && k in Exec(v, a).rows && k !in v.rows
    ensures k.1 != actor
  {
    if a.PublishStep? {
      PublishGrows(v, a.drafts);
    }
  }

  /** The actor of an event is never notified of their own action. */
  lemma {:induction false} ActorNotNotified(v: View, steps: seq<Step>, actor: string, k: (string, string))
    requires forall a :: a in steps ==> Spares(a, actor)
    requires k in ExecAll(v, steps).rows && k !in v.rows
    ensures k.1 != actor
    decreases |steps|
  {
    if k in Exec(v, steps[0]).rows {
      ExecSpares(v, steps[0], actor, k);
    } else {
      ActorNotNotified(Exec(v, steps[0]), steps[1..], actor, k);
    }
  }

  /** One task's events with their directory answers: one task, versions strictly increasing. */
  ghost predicate Chronicle(inputs: seq<Input>, subject: string) {
    && (forall i :: 0 <= i < |inputs| ==> inputs[i].event.taskId == subject)
    && (forall i, j :: 0 <= i < j < |inputs| ==> inputs[i].event.version < inputs[j].event.version)
  }

  function PlansOf(inputs: seq<Input>, closing: set<L.Status>, size: nat): Plans
    requires size > 0
  {
    seq(|inputs|, i requires 0 <= i < |inputs| => PlanOf(inputs[i], closing, size))
  }

  lemma {:induction false} ChronicleCoherent(inputs: seq<Input>, subject: string, closing: set<L.Status>, size: nat)
    requires size > 0 && Chronicle(inputs, subject)
    ensures Pairwise(Flat(PlansOf(inputs, closing, size)))
    ensures forall a :: a in Flat(PlansOf(inputs, closing, size)) ==>
              exists i :: 0 <= i < |inputs| && Plain(a, subject, inputs[i].event.version)
  {
    if inputs != [] {
      var k := |inputs| - 1;
      var init, last := inputs[..k], inputs[k];
      ChronicleCoherent(init, subject, closing, size);
      DefaultPlanCoherent(last, closing);
      CallsKeep(DefaultPlan(last, closing), size, subject, last.event.version);
      assert PlansOf(inputs, closing, size)[..k] == PlansOf(init, closing, size);
      var before, plan := Flat(PlansOf(init, closing, size)), PlanOf(last, closing, size);
      forall x, y | x in before && y in plan ensures Compatible(x, y) {
        var i :| 0 <= i < |init| && Plain(x, subject, init[i].event.version);
        assert init[i] == inputs[i];
        PlainAcrossVersions(x, y, subject, init[i].event.version, last.event.version);
      }
      PairwiseAppend(before, plan);
      forall a | a in before + plan ensures exists i :: 0 <= i < |inputs| && Plain(a, subject, inputs[i].event.version) {
        if a in before {
          var i :| 0 <= i < |init| && Plain(a, subject, init[i].event.version);
          assert init[i] == inputs[i];
        } else {
          assert Plain(a, subject, inputs[k].event.version);
        }
      }
    }
  }

  /** The histories of distinct tasks, interleaved in any way, are coherent. */
  ghost predicate Chronicles(tasks: seq<seq<Input>>, subjects: seq<string>) {
    && |subjects| == |tasks|
    && (forall t :: 0 <= t < |tasks| ==> Chronicle(tasks[t], subjects[t]))
    && (forall t, u :: 0 <= t < u < |tasks| ==> subjects[t] != subjects[u])
  }

  function AllPlans(tasks: seq<seq<Input>>, closing: set<L.Status>, size: nat): seq<Plans>
    requires size > 0
  {
    seq(|tasks|, t requires 0 <= t < |tasks| => PlansOf(tasks[t], closing, size))
  }

  lemma ChroniclesCoherent(tasks: seq<seq<Input>>, subjects: seq<string>, closing: set<L.Status>, size: nat)
    requires size > 0 && Chronicles(tasks, subjects)
    ensures Coherent(StreamsOf(AllPlans(tasks, closing, size)))
    ensures forall t, p :: 0 <= t < |tasks| && 0 <= p < |StreamsOf(AllPlans(tasks, closing, size))[t]| ==>
              exists i :: 0 <= i < |tasks[t]| &&
                Plain(StreamsOf(AllPlans(tasks, closing, size))[t][p], subjects[t], tasks[t][i].event.version)
  {
    var streams := StreamsOf(AllPlans(tasks, closing, size));
    forall t, p | 0 <= t < |tasks| && 0 <= p < |streams[t]|
      ensures exists i :: 0 <= i < |tasks[t]| && Plain(streams[t][p], subjects[t], tasks[t][i].event.version)
    {
      ChronicleCoherent(tasks[t], subjects[t], closing, size);
      assert streams[t][p] in streams[t];
    }
    forall t, p, u, q | 0 <= t < |streams| && 0 <= p < |streams[t]| && 0 <= u < |streams| && 0 <= q < |streams[u]| &&
                        (t == u ==> p < q)
      ensures Compatible(streams[t][p], streams[u][q])
    {
      if t == u {
        ChronicleCoherent(tasks[t], subjects[t], closing, size);
      } else {
        var i :| 0 <= i < |tasks[t]| && Plain(streams[t][p], subjects[t], tasks[t][i].event.version);
        var j :| 0 <= j < |tasks[u]| && Plain(streams[u][q], subjects[u], tasks[u][j].event.version);
        assert subjects[t] != subjects[u];
        PlainAcrossTasks(streams[t][p], streams[u][q], subjects[t], subjects[u],
                         tasks[t][i].event.version, tasks[u][j].event.version);
      }
    }
  }
}
