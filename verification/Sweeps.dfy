/**
 * Escalation sweeps (sweep.go): leases on overdue tasks, the exemption decided on the leased copy, and
 * the conditional write that makes the decision hold when it commits.
 */
module Sweeps {
  import opened Basics
  import opened Lifecycle
  import opened TaskDb
  import opened TaskInvariants
  import opened TaskAgreement
  import Eligibility
  import R = Requests

  /** `exemption`: why a task must not be escalated, as a verdict. */
  predicate Exempt(t: Task, policy: Option<Policy>) {
    || Terminal(t.status)
    || t.status == Suspended
    || (policy.Some? && policy.value.exemptInProgress && t.status == InProgress)
    || (policy.Some? && policy.value.maxEscalations > 0 && t.escalationCount >= policy.value.maxEscalations)
  }

  /** The request a sweeper makes about a leased copy: conditional on the version it was leased at. */
  function EscalationOf(t: Task, owner: string): Request {
    Request(t.id, owner, Some(t.version), "deadline passed", Escalating)
  }

  datatype SweepResult = SweepResult(claimed: nat, escalated: nat, exempted: nat)

  function Requests(claimed: seq<Task>, owner: string, ports: Ports): seq<Request> {
    if claimed == [] then []
    else
      var k := |claimed| - 1;
      Requests(claimed[..k], owner, ports) +
      if Exempt(claimed[k], PolicyFor(ports, claimed[k])) then [] else [EscalationOf(claimed[k], owner)]
  }

  /** The first `i` leased tasks have been dealt with. */
  ghost predicate SweptTo(
      claimed: seq<Task>, i: nat, owner: string, ports: Ports, accepted: Request -> bool, result: SweepResult, made: seq<Request>)
  {
    && i <= |claimed| && made == Requests(claimed[..i], owner, ports) && result.claimed == |claimed|
    && i == |made| + result.exempted && result.escalated == |Sieve(made, accepted)|
  }

  lemma {:induction false} ExemptNext(
      claimed: seq<Task>, i: nat, owner: string, ports: Ports, accepted: Request -> bool, result: SweepResult, made: seq<Request>)
    requires i < |claimed| && SweptTo(claimed, i, owner, ports, accepted, result, made)
    requires Exempt(claimed[i], PolicyFor(ports, claimed[i]))
    ensures SweptTo(claimed, i + 1, owner, ports, accepted, result.(exempted := result.exempted + 1), made)
  {
    assert claimed[..i + 1][..i] == claimed[..i] && claimed[..i + 1][i] == claimed[i];
  }

  lemma {:induction false} AskedNext(
      claimed: seq<Task>, i: nat, owner: string, ports: Ports, accepted: Request -> bool, result: SweepResult, made: seq<Request>)
    requires i < |claimed| && SweptTo(claimed, i, owner, ports, accepted, result, made)
    requires !Exempt(claimed[i], PolicyFor(ports, claimed[i]))
    ensures var req := EscalationOf(claimed[i], owner);
            SweptTo(claimed, i + 1, owner, ports, accepted,
                    if accepted(req) then result.(escalated := result.escalated + 1) else result, made + [req])
  {
    assert claimed[..i + 1][..i] == claimed[..i] && claimed[..i + 1][i] == claimed[i];
    assert (made + [EscalationOf(claimed[i], owner)])[..|made|] == made;
  }

  /** `Sweep` over a claimed batch: one conditional request per task that is not exempt, in order. */
  method SweepBatch(claimed: seq<Task>, owner: string, ports: Ports, accepted: Request -> bool)
    returns (result: SweepResult, made: seq<Request>)
    ensures made == Requests(claimed, owner, ports)
    ensures result.claimed == |claimed| == |made| + result.exempted
    ensures result.escalated == |Sieve(made, accepted)|
  {
    result, made := SweepResult(|claimed|, 0, 0), [];
    for i := 0 to |claimed|
      invariant SweptTo(claimed, i, owner, ports, accepted, result, made)
    {
      var task := claimed[i];
      if Exempt(task, PolicyFor(ports, task)) {
        ExemptNext(claimed, i, owner, ports, accepted, result, made);
        result := result.(exempted := result.exempted + 1);
        continue;
      }
      AskedNext(claimed, i, owner, ports, accepted, result, made);
      var request := EscalationOf(task, owner);
      made := made + [request];
      if !accepted(request) {
        continue;
      }
      result := result.(escalated := result.escalated + 1);
    }
    assert claimed[..|claimed|] == claimed;
  }

  // ---------------------------------------------------------------- a version names a task's value

  /** The same task up to its lease. */
  predicate SameButLease(a: Task, b: Task) {
    a == b.(lockedBy := a.lockedBy, lockedUntil := a.lockedUntil)
  }

  /** How one step may change a stored task: not at all, only its lease, or one version on. */
  predicate Advances(a: Task, b: Task) {
    && Constant(a, b) && a.version <= b.version
    && (a.version == b.version ==> SameButLease(a, b))
    && (Terminal(a.status) ==> b == a)
  }

  lemma {:induction false} StepAdvances(w: World, s: DbStep, id: TaskId)
    requires Inv(w) && Allowed(w, s) && id in w.db.tasks
    ensures id in Next(w, s).db.tasks && Advances(w.db.tasks[id], Next(w, s).db.tasks[id])
  {
    match s
    case Mutating(ports, req, now, eventId) => AttemptAdvances(w, ports, req, now, eventId, id);
    case Creating(ports, draft, choice, now, eventId) => PlacementAdvances(w, ports, draft, choice, now, eventId, id);
    case Leasing(_) =>
    case Relaying(_) =>
  }

  lemma {:induction false} AttemptAdvances(w: World, ports: Ports, req: Request, now: Time, eventId: string, id: TaskId)
    requires Inv(w) && id in w.db.tasks
    ensures id in Applied(w, Attempt(ports, w.db, req, now), eventId).db.tasks
    ensures Advances(w.db.tasks[id], Applied(w, Attempt(ports, w.db, req, now), eventId).db.tasks[id])
  {
    assert Agrees(w, id);
    var attempt := Attempt(ports, w.db, req, now);
    if attempt.Ok? {
      var t := w.db.tasks[req.taskId];
      assert Agrees(w, req.taskId);
      StepGood(ports, t, req, now);
      if Terminal(t.status) {
        TerminalAcceptsNothing(ports, t, req, now);
      }
    }
  }

  lemma {:induction false} PlacementAdvances(
      w: World, ports: Ports, draft: Task, choice: Choice, now: Time, eventId: string, id: TaskId)
    requires Fresh(draft) && id in w.db.tasks
    ensures id in Applied(w, Placement(ports, w.db, draft, choice, now), eventId).db.tasks
    ensures Advances(w.db.tasks[id], Applied(w, Placement(ports, w.db, draft, choice, now), eventId).db.tasks[id])
  {
    AssignGood(ports.directory, choice, draft, now);
  }

  lemma AdvancesTransitive(a: Task, b: Task, c: Task)
    requires Advances(a, b) && Advances(b, c)
    ensures Advances(a, c)
  {
  }

  /** One step's effect on one task. */
  ghost predicate Carried(w: World, w2: World, id: TaskId) {
    id in w.db.tasks ==> id in w2.db.tasks && Advances(w.db.tasks[id], w2.db.tasks[id])
  }

  lemma {:induction false} ChainAdvances(states: seq<World>, i: nat, j: nat, id: TaskId)
    requires i <= j < |states| && id in states[i].db.tasks
    requires forall k :: i <= k < j ==> Carried(states[k], states[k + 1], id)
    ensures id in states[j].db.tasks && Advances(states[i].db.tasks[id], states[j].db.tasks[id])
  {
    if i < j {
      ChainAdvances(states, i, j - 1, id);
      assert Carried(states[j - 1], states[j - 1 + 1], id);
      AdvancesTransitive(states[i].db.tasks[id], states[j - 1].db.tasks[id], states[j].db.tasks[id]);
    }
  }

  lemma {:induction false} RunCarries(states: seq<World>, steps: seq<DbStep>, k: nat, id: TaskId)
    requires IsRun(states, steps) && k < |steps|
    ensures Carried(states[k], states[k + 1], id)
  {
    RunAgrees(states, steps, k);
    assert Allowed(states[k], steps[k]) && states[k + 1] == Next(states[k], steps[k]);
    if id in states[k].db.tasks {
      StepAdvances(states[k], steps[k], id);
    }
  }

  /**
   * Over any stretch of any run a task's identifier, priority and due date stay what they were, a closed
   * task does not change, and as long as the version is the same nothing but the lease has changed.
   */
  lemma {:induction false} RunAdvances(states: seq<World>, steps: seq<DbStep>, i: nat, j: nat, id: TaskId)
    requires IsRun(states, steps) && i <= j <= |steps| && id in states[i].db.tasks
    ensures id in states[j].db.tasks && Advances(states[i].db.tasks[id], states[j].db.tasks[id])
  {
    forall k | i <= k < j ensures Carried(states[k], states[k + 1], id) {
      RunCarries(states, steps, k, id);
    }
    ChainAdvances(states, i, j, id);
  }

  // ---------------------------------------------------------------- the sweep's decision still holds

  /** A step that is a sweeper's escalation of a copy it leased at state `i` and judged not exempt. */
  predicate Swept(states: seq<World>, i: nat, s: DbStep) {
    && i < |states| && s.Mutating? && s.req.taskId in states[i].db.tasks
    && s.req == EscalationOf(states[i].db.tasks[s.req.taskId], s.req.actor)
    && !Exempt(states[i].db.tasks[s.req.taskId], PolicyFor(s.ports, states[i].db.tasks[s.req.taskId]))
  }

  /**
   * However late a sweeper's request arrives, when it is accepted the task it escalates is not exempt:
   * not started work its policy exempts, and with fewer escalations than its policy allows.
   */
  lemma {:induction false} SweepDecisionHolds(states: seq<World>, steps: seq<DbStep>, i: nat, j: nat)
    requires IsRun(states, steps) && i <= j < |steps| && Swept(states, i, steps[j])
    requires Attempt(steps[j].ports, states[j].db, steps[j].req, steps[j].now).Ok?
    ensures var t := states[j].db.tasks[steps[j].req.taskId]; !Exempt(t, PolicyFor(steps[j].ports, t))
  {
    RunAdvances(states, steps, i, j, steps[j].req.taskId);
  }

  /** The escalations a task's policy leaves room for; without a limit, any number. */
  predicate WithinLimit(ports: Ports, t: Task) {
    var policy := PolicyFor(ports, t);
    policy.Some? && policy.value.maxEscalations > 0 ==> t.escalationCount <= policy.value.maxEscalations
  }

  /** Escalations come from sweeps alone, and every request consults the same type defaults. */
  ghost predicate SweptRun(ports: Ports, states: seq<World>, steps: seq<DbStep>) {
    && IsRun(states, steps)
    && (forall j :: 0 <= j < |steps| && steps[j].Mutating? ==> steps[j].ports == ports)
    && (forall j :: 0 <= j < |steps| && steps[j].Mutating? && steps[j].req.command.Escalating? ==>
          exists i :: 0 <= i <= j && Swept(states, i, steps[j]))
  }

  /** A task's escalations are the same, or one more through an accepted escalation. */
  predicate Counts(t: Task, next: Task, req: Request) {
    next.escalationCount == t.escalationCount || (req.command.Escalating? && next.escalationCount == t.escalationCount + 1)
  }

  /** Only the escalation request records an escalation. */
  lemma {:induction false} RecordsEscalation(ports: Ports, t: Task, req: Request, now: Time)
    requires Step(ports, t, req, now).Ok? && !req.command.Escalating?
    ensures Step(ports, t, req, now).value.record.Some? ==> Step(ports, t, req, now).value.record.value.operation != OpEscalate
  {
  }

  /** What an accepted request does to the count of the task it names, and of every other. */
  lemma {:induction false} AttemptCounts(w: World, ports: Ports, req: Request, now: Time, eventId: string, id: TaskId)
    requires Inv(w) && Attempt(ports, w.db, req, now).Ok?
    requires id in Applied(w, Attempt(ports, w.db, req, now), eventId).db.tasks
    ensures id in w.db.tasks
    ensures id != req.taskId ==> Applied(w, Attempt(ports, w.db, req, now), eventId).db.tasks[id] == w.db.tasks[id]
    ensures id == req.taskId ==> Counts(w.db.tasks[id], Applied(w, Attempt(ports, w.db, req, now), eventId).db.tasks[id], req)
  {
    assert Agrees(w, req.taskId);
    StepGood(ports, w.db.tasks[req.taskId], req, now);
    if !req.command.Escalating? {
      RecordsEscalation(ports, w.db.tasks[req.taskId], req, now);
    }
  }

  lemma {:induction false} PlacementCounts(w: World, ports: Ports, draft: Task, choice: Choice, now: Time, eventId: string, id: TaskId)
    requires Fresh(draft) && id !in w.db.tasks
    requires id in Applied(w, Placement(ports, w.db, draft, choice, now), eventId).db.tasks
    ensures Applied(w, Placement(ports, w.db, draft, choice, now), eventId).db.tasks[id].escalationCount == 0
  {
    AssignGood(ports.directory, choice, draft, now);
    AssignCounts(ports.directory, choice, draft, now);
  }

  lemma {:induction false} AssignCounts(directory: Option<Eligibility.Directory>, choice: Choice, draft: Task, now: Time)
    requires Assign(directory, choice, draft, now).Ok?
    ensures Assign(directory, choice, draft, now).value.next.escalationCount == draft.escalationCount
  {
  }

  /** A step keeps one task within its limit. */
  ghost predicate LimitKept(ports: Ports, w: World, w2: World, id: TaskId) {
    id in w2.db.tasks && (id in w.db.tasks ==> WithinLimit(ports, w.db.tasks[id])) ==> WithinLimit(ports, w2.db.tasks[id])
  }

  lemma {:induction false} MutatingKept(ports: Ports, states: seq<World>, steps: seq<DbStep>, j: nat, id: TaskId)
    requires SweptRun(ports, states, steps) && j < |steps| && steps[j].Mutating? && id in states[j].db.tasks
    ensures LimitKept(ports, states[j], Applied(states[j], Attempt(ports, states[j].db, steps[j].req, steps[j].now), steps[j].eventId), id)
  {
    var w, s := states[j], steps[j];
    RunAgrees(states, steps, j);
    if Attempt(ports, w.db, s.req, s.now).Ok? {
      AttemptAdvances(w, ports, s.req, s.now, s.eventId, id);
      AttemptCounts(w, ports, s.req, s.now, s.eventId, id);
      if s.req.command.Escalating? && s.req.taskId == id {
        var i :| 0 <= i <= j && Swept(states, i, s);
        SweepDecisionHolds(states, steps, i, j);
      }
    }
  }

  lemma {:induction false} SweptStep(ports: Ports, states: seq<World>, steps: seq<DbStep>, j: nat, id: TaskId)
    requires SweptRun(ports, states, steps) && j < |steps|
    ensures LimitKept(ports, states[j], states[j + 1], id)
  {
    var w, s := states[j], steps[j];
    assert Allowed(w, s) && states[j + 1] == Next(w, s);
    RunAgrees(states, steps, j);
    if id in w.db.tasks {
      if s.Mutating? {
        MutatingKept(ports, states, steps, j, id);
      } else {
        StepAdvances(w, s, id);
        assert s.Creating? ==> states[j + 1].db.tasks[id] == w.db.tasks[id] by { CreateLeaves(w, s, id); }
      }
    } else if id in states[j + 1].db.tasks {
      if s.Mutating? {
        MutateAddsNothing(w, s, id);
      } else if s.Creating? {
        PlacementCounts(w, s.ports, s.draft, s.choice, s.now, s.eventId, id);
      }
    }
  }

  lemma {:induction false} CreateLeaves(w: World, s: DbStep, id: TaskId)
    requires Allowed(w, s) && id in w.db.tasks
    ensures s.Creating? ==> id in Next(w, s).db.tasks && Next(w, s).db.tasks[id] == w.db.tasks[id]
  {
    if s.Creating? {
      AssignGood(s.ports.directory, s.choice, s.draft, s.now);
    }
  }

  lemma {:induction false} MutateAddsNothing(w: World, s: DbStep, id: TaskId)
    requires Inv(w) && s.Mutating? && id !in w.db.tasks
    ensures id !in Next(w, s).db.tasks
  {
    if Attempt(s.ports, w.db, s.req, s.now).Ok? {
      assert Agrees(w, s.req.taskId);
      StepGood(s.ports, w.db.tasks[s.req.taskId], s.req, s.now);
    }
  }

  lemma {:induction false} ChainWithinLimit(ports: Ports, states: seq<World>, j: nat, id: TaskId)
    requires j < |states| && states[0].db.tasks == map[] && id in states[j].db.tasks
    requires forall k :: 0 <= k < |states| - 1 ==> LimitKept(ports, states[k], states[k + 1], id)
    ensures WithinLimit(ports, states[j].db.tasks[id])
  {
    if j > 0 {
      assert LimitKept(ports, states[j - 1], states[j - 1 + 1], id);
      if id in states[j - 1].db.tasks {
        ChainWithinLimit(ports, states, j - 1, id);
      }
    }
  }

  /** Sweeps alone never take a task beyond the escalations its policy allows. */
  lemma {:induction false} SweepsWithinLimit(ports: Ports, states: seq<World>, steps: seq<DbStep>, j: nat, id: TaskId)
    requires SweptRun(ports, states, steps) && j <= |steps| && id in states[j].db.tasks
    ensures WithinLimit(ports, states[j].db.tasks[id])
  {
    forall k | 0 <= k < |states| - 1 ensures LimitKept(ports, states[k], states[k + 1], id) {
      SweptStep(ports, states, steps, k, id);
    }
    ChainWithinLimit(ports, states, j, id);
  }

  // ---------------------------------------------------------------- lease spacing

  /** A lease, once taken, is outlived only by a later one or by the task's end. */
  predicate LeaseHolds(until: Time, t: Task) {
    Terminal(t.status) || (t.lockedUntil.Some? && until <= t.lockedUntil.value)
  }

  /** Leases last some time, as the service ensures before it asks the store. */
  predicate Lasting(s: DbStep) {
    s.Leasing? ==> s.lease.duration > 0
  }

  lemma {:induction false} LeaseKept(w: World, s: DbStep, until: Time, id: TaskId)
    requires Inv(w) && Allowed(w, s) && Lasting(s) && id in w.db.tasks && LeaseHolds(until, w.db.tasks[id])
    ensures id in Next(w, s).db.tasks && LeaseHolds(until, Next(w, s).db.tasks[id])
  {
    StepAdvances(w, s, id);
    match s
    case Mutating(ports, req, now, eventId) =>
      if Attempt(ports, w.db, req, now).Ok? {
        assert Agrees(w, req.taskId);
        StepGood(ports, w.db.tasks[req.taskId], req, now);
      }
    case Creating(_, _, _, _, _) => CreateLeaves(w, s, id);
    case Leasing(_) =>
    case Relaying(_) =>
  }

  /** One step's effect on a running lease. */
  ghost predicate LeaseCarried(w: World, w2: World, until: Time, id: TaskId) {
    id in w.db.tasks && LeaseHolds(until, w.db.tasks[id]) ==> id in w2.db.tasks && LeaseHolds(until, w2.db.tasks[id])
  }

  lemma {:induction false} ChainLease(states: seq<World>, i: nat, j: nat, until: Time, id: TaskId)
    requires i <= j < |states| && id in states[i].db.tasks && LeaseHolds(until, states[i].db.tasks[id])
    requires forall k :: i <= k < j ==> LeaseCarried(states[k], states[k + 1], until, id)
    ensures id in states[j].db.tasks && LeaseHolds(until, states[j].db.tasks[id])
  {
    if i < j {
      ChainLease(states, i, j - 1, until, id);
      assert LeaseCarried(states[j - 1], states[j - 1 + 1], until, id);
    }
  }

  lemma {:induction false} RunLease(states: seq<World>, steps: seq<DbStep>, k: nat, until: Time, id: TaskId)
    requires IsRun(states, steps) && k < |steps| && Lasting(steps[k])
    ensures LeaseCarried(states[k], states[k + 1], until, id)
  {
    RunAgrees(states, steps, k);
    assert Allowed(states[k], steps[k]) && states[k + 1] == Next(states[k], steps[k]);
    if id in states[k].db.tasks && LeaseHolds(until, states[k].db.tasks[id]) {
      LeaseKept(states[k], steps[k], until, id);
    }
  }

  /** Two leases on one task start at least the first one's duration apart. */
  lemma {:induction false} LeasesApart(states: seq<World>, steps: seq<DbStep>, i: nat, j: nat, id: TaskId)
    requires IsRun(states, steps) && i < j < |steps| && steps[i].Leasing? && steps[j].Leasing?
    requires forall k :: 0 <= k < |steps| ==> Lasting(steps[k])
    requires id in LeasedIds(states[i].db.tasks, steps[i].lease) && id in LeasedIds(states[j].db.tasks, steps[j].lease)
    ensures steps[i].lease.now + steps[i].lease.duration <= steps[j].lease.now
  {
    var until := steps[i].lease.now + steps[i].lease.duration;
    assert states[i + 1] == Next(states[i], steps[i]);
    assert LeaseHolds(until, states[i + 1].db.tasks[id]);
    forall k | i + 1 <= k < j ensures LeaseCarried(states[k], states[k + 1], until, id) {
      RunLease(states, steps, k, until, id);
    }
    ChainLease(states, i + 1, j, until, id);
  }

  // ---------------------------------------------------------------- what is swept, and what is leased

  /** The task may be escalated: it is live, its policy does not spare started work, and has escalations left. */
  predicate MayEscalate(t: Task, policy: Option<Policy>) {
    && (t.status == Ready || t.status == Reserved || t.status == InProgress)
    && (policy.Some? ==>
          && (t.status == InProgress ==> !policy.value.exemptInProgress)
          && (policy.value.maxEscalations <= 0 || t.escalationCount < policy.value.maxEscalations))
  }

  /** A sweep asks for exactly the escalations that may happen, each on the copy it leased. */
  lemma {:induction false} SweepsExactly(claimed: seq<Task>, owner: string, ports: Ports, req: Request)
    requires forall i :: 0 <= i < |claimed| ==> claimed[i].status != Created
    ensures req in Requests(claimed, owner, ports) <==>
            exists i :: 0 <= i < |claimed| && MayEscalate(claimed[i], PolicyFor(ports, claimed[i])) &&
                        req == Request(claimed[i].id, owner, Some(claimed[i].version), "deadline passed", Escalating)
  {
    if claimed != [] {
      var k := |claimed| - 1;
      SweepsExactly(claimed[..k], owner, ports, req);
      assert forall i :: 0 <= i < k ==> claimed[..k][i] == claimed[i];
    }
  }

  /** While the stored task is the leased copy, the request is accepted unless it would supersede work already started. */
  lemma {:induction false} SweepAccepted(ports: Ports, db: Db, t: Task, owner: string, now: Time)
    requires Good(t) && t.id in db.tasks && db.tasks[t.id] == t && MayEscalate(t, PolicyFor(ports, t))
    ensures Attempt(ports, db, EscalationOf(t, owner), now).Ok? <==> !(R.Supersedes(ports, t) && t.status == InProgress)
  {
    R.Accepted(ports, t, EscalationOf(t, owner), now);
  }

  /** What a lease takes is past its deadline, live, of the types asked for, and held by no running lease. */
  lemma {:induction false} LeaseTakes(tasks: map<TaskId, Task>, lease: LeaseRequest, id: TaskId)
    ensures id in Overdue(tasks, lease) <==>
            && id in tasks && tasks[id].dueAt.Some? && tasks[id].dueAt.value <= lease.now
            && tasks[id].status in {Created, Ready, Reserved, InProgress}
            && (tasks[id].lockedUntil.Some? ==> tasks[id].lockedUntil.value <= lease.now)
            && (lease.types == [] || tasks[id].taskType in lease.types)
  {
  }

  /** A lease takes the lowest identifiers, up to its limit and as many as there are. */
  lemma {:induction false} LeaseExact(tasks: map<TaskId, Task>, lease: LeaseRequest)
    ensures var due, taken := Overdue(tasks, lease), LeasedIds(tasks, lease);
            && taken <= due && |taken| == (if Limit(lease) < |due| then Limit(lease) else |due|)
            && (forall a, b :: a in taken && b in due && b !in taken ==> Less(a, b))
  {
    var due := Overdue(tasks, lease);
    assert StrictOrder(Less, due) by { StringsOrdered(due); }
    LowestCount(Less, due, Limit(lease));
    forall a, b | a in LeasedIds(tasks, lease) && b in due && b !in LeasedIds(tasks, lease) ensures Less(a, b) {
      LeasedBelow(due, Limit(lease), a, b);
    }
  }

  /** It changes nothing but who holds a task till when. */
  lemma {:induction false} LeaseChanges(db: Db, lease: LeaseRequest, id: TaskId)
    requires id in db.tasks
    ensures id in LeaseOverdue(db, lease).tasks
    ensures LeaseOverdue(db, lease).tasks[id] ==
            if id in LeasedIds(db.tasks, lease) then db.tasks[id].(lockedBy := lease.owner, lockedUntil := Some(lease.now + lease.duration))
            else db.tasks[id]
    ensures LeaseOverdue(db, lease) == db.(tasks := LeaseOverdue(db, lease).tasks)
  {
  }

  lemma {:induction false} LeasedBelow(due: set<TaskId>, n: nat, a: TaskId, b: TaskId)
    requires a in Lowest(Less, due, n) && b in due && b !in Lowest(Less, due, n)
    ensures Less(a, b)
  {
    LessConnected(a, b);
    if Less(b, a) {
      forall x | x in Below(Less, due, b) ensures x in Below(Less, due, a) { LessTransitive(x, b, a); }
      SubsetSize(Below(Less, due, b), Below(Less, due, a));
    }
  }
}
