/**
 * Any number of AtMostOnce dispatchers over one store, interleaved at every store call and mailer
 * call, with crashes anywhere, clocks that need not agree, and notifications published, read,
 * closed, deleted and purged meanwhile. Each notification is handed to the mailer at most once in
 * a way that may have sent it, and at most `maxAttempts` times in all.
 */
module EmailProtocol {
  import opened Basics
  import opened Notifications
  import opened EmailRecords
  import opened EmailAutomaton

  /** One `Mailer.Send` call that covered a notification. */
  datatype Entry = Flying | CutOff | Ended(outcome: Outcome)

  /** The shared store, every dispatcher's position, and a log of the mailer calls per notification. */
  datatype World = World(
    ns: map<Id, Notification>,
    ds: map<Id, Delivery>,
    locals: map<string, Local>,
    log: map<Id, seq<Entry>>,
    used: set<Id>)

  datatype Step =
    | Publish(n: Notification)
    | Deactivate(id: Id, state: State)
    | Delete(id: Id)
    | Purge(limit: int)
    | StartPass(claim: Claim)
    | Act(owner: string, action: Action)
    | FailedWrite(owner: string, record: Record, reached: set<Id>)
    | FinishPass(owner: string)
    | Crash(owner: string)

  function At(w: World, owner: string): Local {
    if owner in w.locals then w.locals[owner] else Idle
  }

  function Log(w: World, id: Id): seq<Entry> {
    if id in w.log then w.log[id] else []
  }

  /**
   * What a dispatcher may do next. Owners are not empty, and one owner's passes are serial. A write that
   * is reported whole wrote every row it names; one that reports less, or an error, may have written any
   * of the rows, and the pass goes on believing it was not whole.
   */
  ghost predicate Enabled(maxAttempts: nat, w: World, s: Step) {
    match s
    case Publish(n) => n.id !in w.used
    case Deactivate(id, state) => id in w.ns && state != Active
    case Delete(id) => id in w.ns
    case Purge(_) => true
    case StartPass(claim) => claim.owner != "" && At(w, claim.owner).Idle?
    case Act(owner, action) =>
      owner != "" && Permitted(maxAttempts, At(w, owner), action) &&
      (action.Write? ==>
         action.record.owner == owner &&
         (action.whole ==> Written(w.ds, action.record) == action.record.ids))
    case FailedWrite(owner, r, reached) =>
      owner != "" && Permitted(maxAttempts, At(w, owner), Write(r, false)) && r.owner == owner && reached <= r.ids
    case FinishPass(owner) => At(w, owner).Pass? && !Busy(At(w, owner).flight)
    case Crash(owner) => At(w, owner).Pass?
  }

  /** The pass a claim starts: sends in doubt apart from fresh candidates. */
  ghost function Started(w: World, claim: Claim): Local {
    var taken := Taken(w.ns, w.ds, claim);
    var ds := AfterClaim(w.ns, w.ds, claim);
    Pass(map id | id in taken && id in ds && ds[id].status != Sending :: ds[id].attempts,
         (set id | id in taken && id in ds && ds[id].status == Sending),
         Grounded)
  }

  /** Adds an entry to the log of every notification a message covers. */
  function Logged(log: map<Id, seq<Entry>>, ids: set<Id>, e: Entry): map<Id, seq<Entry>> {
    map id | id in log.Keys + ids ::
      if id in ids then (if id in log then log[id] else []) + [e] else log[id]
  }

  /** Replaces the last entry of every notification a message covers. */
  function Concluded(log: map<Id, seq<Entry>>, ids: set<Id>, e: Entry): map<Id, seq<Entry>> {
    map id | id in log :: if id in ids && log[id] != [] then log[id][..|log[id]| - 1] + [e] else log[id]
  }

  ghost function Next(w: World, s: Step): World {
    match s
    case Publish(n) => w.(ns := w.ns[n.id := n], used := w.used + {n.id})
    case Deactivate(id, state) => if id in w.ns then w.(ns := w.ns[id := w.ns[id].(state := state)]) else w
    case Delete(id) => w.(ns := w.ns - {id})
    case Purge(limit) => w.(ds := w.ds - Purged(w.ns, w.ds, limit))
    case StartPass(claim) =>
      w.(ds := AfterClaim(w.ns, w.ds, claim), locals := w.locals[claim.owner := Started(w, claim)])
    case Act(owner, action) =>
      var l := At(w, owner);
      if !l.Pass? then w else
      var w1 := w.(locals := w.locals[owner := Advance(l, action)]);
      (match action
       case Write(r, _) => w1.(ds := AfterRecord(w.ds, r))
       case Begin => if l.flight.Armed? then w1.(log := Logged(w.log, l.flight.msg.Keys, Flying)) else w1
       case End(o) => if l.flight.Calling? then w1.(log := Concluded(w.log, l.flight.msg.Keys, Ended(o))) else w1)
    case FailedWrite(owner, r, reached) =>
      var l := At(w, owner);
      if !l.Pass? then w else
      w.(locals := w.locals[owner := Advance(l, Write(r, false))], ds := AfterRecord(w.ds, r.(ids := reached)))
    case FinishPass(owner) => w.(locals := w.locals[owner := Idle])
    case Crash(owner) =>
      var l := At(w, owner);
      var w1 := w.(locals := w.locals[owner := Idle]);
      if l.Pass? && l.flight.Calling? then w1.(log := Concluded(w.log, l.flight.msg.Keys, CutOff)) else w1
  }

  /** Every step of a run was enabled when it was taken. */
  ghost predicate Run(maxAttempts: nat, w: World, steps: seq<Step>)
    decreases |steps|
  {
    steps == [] ||
    (Enabled(maxAttempts, w, steps[0]) && Run(maxAttempts, Next(w, steps[0]), steps[1..]))
  }

  ghost function Final(w: World, steps: seq<Step>): World
    decreases |steps|
  {
    if steps == [] then w else Final(Next(w, steps[0]), steps[1..])
  }

  const EMPTY := World(map[], map[], map[], map[], {})

  // ---------------------------------------------------------------- the invariant

  /** Every call so far is known not to have sent anything. */
  predicate Quiet(log: seq<Entry>) {
    forall i :: 0 <= i < |log| ==> log[i] == Ended(NotSent)
  }

  /** Every call but the last is known not to have sent anything. */
  predicate AtMostOnce(log: seq<Entry>) {
    forall i :: 0 <= i < |log| - 1 ==> log[i] == Ended(NotSent)
  }

  /** A call that sent the message, or may have. */
  predicate MaySend(e: Entry) {
    e == Flying || e == CutOff || e == Ended(Accepted) || e == Ended(InDoubt)
  }

  predicate Last(log: seq<Entry>, e: Entry) {
    log != [] && log[|log| - 1] == e
  }

  predicate RowInv(N: nat, w: World, id: Id) {
    && (id in w.ns ==> id in w.used)
    && (id in w.ds ==> id in w.used)
    && (id !in w.used ==> Log(w, id) == [])
    && (id in w.ns && id !in w.ds ==> Log(w, id) == [])
    && AtMostOnce(Log(w, id))
    && |Log(w, id)| <= N
    && (id in w.ds ==>
          && |Log(w, id)| <= w.ds[id].attempts <= N
          && (w.ds[id].status == Claimed || w.ds[id].status == Retry ==>
                Quiet(Log(w, id)) && w.ds[id].attempts < N)
          && (w.ds[id].status == Sent ==> Last(Log(w, id), Ended(Accepted))))
  }

  /** The row of a message being handed over can only end in doubt. */
  predicate Locked(w: World, owner: string, id: Id, attempts: nat) {
    && (id !in w.ds ==> id !in w.ns)
    && (id in w.ds ==>
          && (w.ds[id].status == Sending || w.ds[id].status == Abandoned)
          && (w.ds[id].owner == owner ==> w.ds[id].status == Sending)
          && w.ds[id].attempts == attempts + 1)
  }

  predicate Holds(w: World, owner: string, id: Id) {
    id in w.ds && w.ds[id].owner == owner
  }

  predicate FlightInv(N: nat, w: World, owner: string, f: Flight, id: Id) {
    match f
    case Grounded => true
    case Armed(m) =>
      id in m ==> id in w.used && m[id] < N && |Log(w, id)| <= m[id] && Quiet(Log(w, id)) && Locked(w, owner, id, m[id])
    case Calling(m) =>
      id in m ==> id in w.used && m[id] < N && Last(Log(w, id), Flying) && Locked(w, owner, id, m[id])
    case Returned(m, NotSent) =>
      id in m && Holds(w, owner, id) ==>
        w.ds[id].status == Sending && w.ds[id].attempts == m[id] + 1 && Quiet(Log(w, id))
    case Returned(m, o) =>
      id in m ==> Last(Log(w, id), Ended(o))
  }

  predicate LocalInv(N: nat, w: World, owner: string, id: Id) {
    var l := At(w, owner);
    l.Pass? ==>
      && owner != ""
      && (id in l.open ==>
            && l.open[id] < N
            && (Holds(w, owner, id) ==> w.ds[id].status == Claimed && w.ds[id].attempts == l.open[id]))
      && (id in l.doubt && Holds(w, owner, id) ==> w.ds[id].status == Sending)
      && FlightInv(N, w, owner, l.flight, id)
  }

  /** A dispatcher that may still start, or undo, a call for a notification. */
  predicate Spending(w: World, owner: string, id: Id) {
    var l := At(w, owner);
    l.Pass? &&
    match l.flight
    case Armed(m) => id in m
    case Calling(m) => id in m
    case Returned(m, NotSent) => id in m && Holds(w, owner, id)
    case _ => false
  }

  predicate Exclusive(w: World, o1: string, o2: string, id: Id) {
    o1 != o2 ==> !(Spending(w, o1, id) && Spending(w, o2, id))
  }

  ghost predicate Inv(N: nat, w: World) {
    && (forall id :: RowInv(N, w, id))
    && (forall o, id :: LocalInv(N, w, o, id))
    && (forall o1, o2, id :: Exclusive(w, o1, o2, id))
  }

  // ---------------------------------------------------------------- each step keeps it

  /** What `Inv` says about one notification and the dispatcher that acts on it. */
  predicate ActorInv(N: nat, w: World, actor: string, id: Id) {
    RowInv(N, w, id) && LocalInv(N, w, actor, id)
  }

  /** What `Inv` says about one notification and a dispatcher that does not act. */
  predicate OtherInv(N: nat, w: World, actor: string, other: string, id: Id) {
    LocalInv(N, w, other, id) && Exclusive(w, actor, other, id)
  }

  lemma Appended(log: seq<Entry>, e: Entry)
    requires Quiet(log)
    ensures AtMostOnce(log + [e]) && Last(log + [e], e)
  {
  }

  lemma Replaced(log: seq<Entry>, e: Entry)
    requires AtMostOnce(log) && log != []
    ensures var after := log[..|log| - 1] + [e];
      AtMostOnce(after) && Last(after, e) && |after| == |log| && (e == Ended(NotSent) ==> Quiet(after))
  {
  }

  /** Two worlds agree about one notification. */
  predicate Same(w: World, v: World, id: Id) {
    && Row(w.ds, id) == Row(v.ds, id)
    && Log(w, id) == Log(v, id)
    && (id in w.ns <==> id in v.ns)
    && (id in w.used <==> id in v.used)
  }

  /** A dispatcher that did not move keeps its position where its notification did not change. */
  lemma Unmoved(N: nat, w: World, v: World, actor: string, other: string, id: Id)
    requires Same(w, v, id) && At(v, other) == At(w, other) && OtherInv(N, w, actor, other, id)
    requires Spending(v, actor, id) ==> Spending(w, actor, id)
    ensures OtherInv(N, v, actor, other, id)
  {
  }

  lemma CrashActor(N: nat, w: World, actor: string, id: Id)
    requires ActorInv(N, w, actor, id) && Enabled(N, w, Crash(actor))
    ensures ActorInv(N, Next(w, Crash(actor)), actor, id)
  {
    var w' := Next(w, Crash(actor));
    var log := Log(w, id);
    if At(w, actor).flight.Calling? && id in At(w, actor).flight.msg {
      assert Log(w', id) == log[..|log| - 1] + [CutOff];
      Replaced(log, CutOff);
    } else {
      assert Log(w', id) == log;
    }
  }

  lemma CrashOther(N: nat, w: World, actor: string, other: string, id: Id)
    requires ActorInv(N, w, actor, id) && OtherInv(N, w, actor, other, id)
    requires Enabled(N, w, Crash(actor)) && other != actor
    ensures OtherInv(N, Next(w, Crash(actor)), actor, other, id)
  {
    var w' := Next(w, Crash(actor));
    if At(w, actor).flight.Calling? && id in At(w, actor).flight.msg {
      assert Last(Log(w, id), Flying) && Row(w'.ds, id) == Row(w.ds, id);
    } else {
      Unmoved(N, w, w', actor, other, id);
    }
  }

  lemma FinishAt(N: nat, w: World, actor: string, other: string, id: Id)
    requires ActorInv(N, w, actor, id) && OtherInv(N, w, actor, other, id)
    requires Enabled(N, w, FinishPass(actor)) && other != actor
    ensures ActorInv(N, Next(w, FinishPass(actor)), actor, id)
    ensures OtherInv(N, Next(w, FinishPass(actor)), actor, other, id)
  {
    Unmoved(N, w, Next(w, FinishPass(actor)), actor, other, id);
  }

  lemma BeginActor(N: nat, w: World, actor: string, id: Id)
    requires ActorInv(N, w, actor, id) && Enabled(N, w, Act(actor, Begin))
    ensures ActorInv(N, Next(w, Act(actor, Begin)), actor, id)
  {
    var w', l, log := Next(w, Act(actor, Begin)), At(w, actor), Log(w, id);
    assert l.flight.Armed? && At(w', actor) == l.(flight := Calling(l.flight.msg));
    assert w'.ds == w.ds && w'.ns == w.ns && w'.used == w.used;
    if id in l.flight.msg {
      assert Log(w', id) == log + [Flying];
      Appended(log, Flying);
      assert Locked(w', actor, id, l.flight.msg[id]) && |Log(w', id)| <= l.flight.msg[id] + 1;
    } else {
      assert Log(w', id) == log;
    }
  }

  lemma BeginOther(N: nat, w: World, actor: string, other: string, id: Id)
    requires ActorInv(N, w, actor, id) && OtherInv(N, w, actor, other, id)
    requires Enabled(N, w, Act(actor, Begin)) && other != actor
    ensures OtherInv(N, Next(w, Act(actor, Begin)), actor, other, id)
  {
    var w' := Next(w, Act(actor, Begin));
    if id in At(w, actor).flight.msg {
      assert Quiet(Log(w, id)) && Row(w'.ds, id) == Row(w.ds, id);
    } else {
      Unmoved(N, w, w', actor, other, id);
    }
  }

  lemma EndActor(N: nat, w: World, actor: string, outcome: Outcome, id: Id)
    requires ActorInv(N, w, actor, id) && Enabled(N, w, Act(actor, End(outcome)))
    ensures ActorInv(N, Next(w, Act(actor, End(outcome))), actor, id)
  {
    var w' := Next(w, Act(actor, End(outcome)));
    var log := Log(w, id);
    if id in At(w, actor).flight.msg {
      assert Log(w', id) == log[..|log| - 1] + [Ended(outcome)];
      Replaced(log, Ended(outcome));
    } else {
      assert Log(w', id) == log;
    }
  }

  lemma EndOther(N: nat, w: World, actor: string, other: string, outcome: Outcome, id: Id)
    requires ActorInv(N, w, actor, id) && OtherInv(N, w, actor, other, id)
    requires Enabled(N, w, Act(actor, End(outcome))) && other != actor
    ensures OtherInv(N, Next(w, Act(actor, End(outcome))), actor, other, id)
  {
    var w' := Next(w, Act(actor, End(outcome)));
    if id in At(w, actor).flight.msg {
      assert Last(Log(w, id), Flying) && Row(w'.ds, id) == Row(w.ds, id);
    } else {
      Unmoved(N, w, w', actor, other, id);
    }
  }

  lemma StartActor(N: nat, w: World, claim: Claim, id: Id)
    requires N >= 1 && ActorInv(N, w, claim.owner, id) && Enabled(N, w, StartPass(claim))
    ensures ActorInv(N, Next(w, StartPass(claim)), claim.owner, id)
  {
  }

  lemma StartOther(N: nat, w: World, claim: Claim, other: string, id: Id)
    requires ActorInv(N, w, claim.owner, id) && OtherInv(N, w, claim.owner, other, id)
    requires Enabled(N, w, StartPass(claim)) && other != claim.owner
    ensures OtherInv(N, Next(w, StartPass(claim)), claim.owner, other, id)
  {
  }

  /** A write changes no row its owner has lost, and then it is not whole. */
  lemma WriteMissed(N: nat, w: World, actor: string, r: Record, whole: bool, id: Id)
    requires ActorInv(N, w, actor, id) && Enabled(N, w, Act(actor, Write(r, whole)))
    requires id !in r.ids || !Holds(w, actor, id)
    ensures ActorInv(N, Next(w, Act(actor, Write(r, whole))), actor, id)
    ensures Same(w, Next(w, Act(actor, Write(r, whole))), id)
    ensures Spending(Next(w, Act(actor, Write(r, whole))), actor, id) ==> Spending(w, actor, id)
  {
    var w' := Next(w, Act(actor, Write(r, whole)));
    assert Same(w, w', id);
    if id in r.ids {
      assert id !in Written(w.ds, r);
      assert !whole;
    }
  }

  lemma WriteActor(N: nat, w: World, actor: string, r: Record, whole: bool, id: Id)
    requires ActorInv(N, w, actor, id) && Enabled(N, w, Act(actor, Write(r, whole)))
    ensures ActorInv(N, Next(w, Act(actor, Write(r, whole))), actor, id)
  {
    if id in r.ids && Holds(w, actor, id) {
      var w' := Next(w, Act(actor, Write(r, whole)));
      assert w'.ds[id] == Apply(w.ds[id], r) && Log(w', id) == Log(w, id);
    } else {
      WriteMissed(N, w, actor, r, whole, id);
    }
  }

  /** A write to a row its owner holds disturbs no other dispatcher. */
  lemma WriteTaken(N: nat, w: World, actor: string, other: string, r: Record, whole: bool, id: Id)
    requires ActorInv(N, w, actor, id) && OtherInv(N, w, actor, other, id)
    requires Enabled(N, w, Act(actor, Write(r, whole))) && other != actor && id in r.ids && Holds(w, actor, id)
    ensures OtherInv(N, Next(w, Act(actor, Write(r, whole))), actor, other, id)
  {
    var w' := Next(w, Act(actor, Write(r, whole)));
    assert At(w', other) == At(w, other) && Log(w', id) == Log(w, id) && w'.ns == w.ns && w'.used == w.used;
    assert w'.ds[id] == Apply(w.ds[id], r) && !Holds(w, other, id);
  }

  lemma WriteOther(N: nat, w: World, actor: string, other: string, r: Record, whole: bool, id: Id)
    requires ActorInv(N, w, actor, id) && OtherInv(N, w, actor, other, id)
    requires Enabled(N, w, Act(actor, Write(r, whole))) && other != actor
    ensures OtherInv(N, Next(w, Act(actor, Write(r, whole))), actor, other, id)
  {
    if id in r.ids && Holds(w, actor, id) {
      WriteTaken(N, w, actor, other, r, whole, id);
    } else {
      WriteMissed(N, w, actor, r, whole, id);
      Unmoved(N, w, Next(w, Act(actor, Write(r, whole))), actor, other, id);
    }
  }

  /** What is known about an actor and a notification depends on that row, its log and the actor's position. */
  lemma SameSpot(N: nat, w: World, v: World, actor: string, id: Id)
    requires Same(w, v, id) && At(v, actor) == At(w, actor) && ActorInv(N, w, actor, id)
    ensures ActorInv(N, v, actor, id)
  {
  }

  /** A row a failed write did not reach is as it was, and the pass has let go of it. */
  lemma FailedMissed(N: nat, w: World, actor: string, r: Record, reached: set<Id>, id: Id)
    requires ActorInv(N, w, actor, id) && Enabled(N, w, FailedWrite(actor, r, reached)) && id !in reached
    ensures ActorInv(N, Next(w, FailedWrite(actor, r, reached)), actor, id)
  {
    assert Same(w, Next(w, FailedWrite(actor, r, reached)), id);
  }

  /** A row it did reach is as an acknowledged write would have left it. */
  lemma FailedReached(w: World, actor: string, r: Record, reached: set<Id>, id: Id)
    requires At(w, actor).Pass? && r.owner == actor && id in reached && reached <= r.ids
    ensures var v := Next(w, FailedWrite(actor, r, reached));
      Same(Next(w, Act(actor, Write(r, false))), v, id) && At(v, actor) == At(Next(w, Act(actor, Write(r, false))), actor)
  {
  }

  lemma FailedActor(N: nat, w: World, actor: string, r: Record, reached: set<Id>, id: Id)
    requires ActorInv(N, w, actor, id) && Enabled(N, w, FailedWrite(actor, r, reached))
    ensures ActorInv(N, Next(w, FailedWrite(actor, r, reached)), actor, id)
  {
    if id in reached {
      WriteActor(N, w, actor, r, false, id);
      FailedReached(w, actor, r, reached, id);
      SameSpot(N, Next(w, Act(actor, Write(r, false))), Next(w, FailedWrite(actor, r, reached)), actor, id);
    } else {
      FailedMissed(N, w, actor, r, reached, id);
    }
  }

  lemma FailedOther(N: nat, w: World, actor: string, other: string, r: Record, reached: set<Id>, id: Id)
    requires ActorInv(N, w, actor, id) && OtherInv(N, w, actor, other, id)
    requires Enabled(N, w, FailedWrite(actor, r, reached)) && other != actor
    ensures OtherInv(N, Next(w, FailedWrite(actor, r, reached)), actor, other, id)
  {
    var w' := Next(w, FailedWrite(actor, r, reached));
    assert At(w', other) == At(w, other) && Log(w', id) == Log(w, id) && w'.ns == w.ns && w'.used == w.used;
    if id in reached && Holds(w, actor, id) {
      assert w'.ds[id] == Apply(w.ds[id], r) && !Holds(w, other, id);
    } else {
      assert Same(w, w', id);
      Unmoved(N, w, w', actor, other, id);
    }
  }

  /** Publishing, reading, closing, deleting and purging disturb no dispatcher. */
  lemma EnvironmentAt(N: nat, w: World, s: Step, o: string, id: Id)
    requires RowInv(N, w, id) && LocalInv(N, w, o, id) && Enabled(N, w, s)
    requires s.Publish? || s.Deactivate? || s.Delete? || s.Purge?
    ensures RowInv(N, Next(w, s), id) && LocalInv(N, Next(w, s), o, id)
    ensures Spending(Next(w, s), o, id) ==> Spending(w, o, id)
  {
  }

  /** A step some dispatcher takes. */
  predicate Own(s: Step) {
    s.StartPass? || s.Act? || s.FailedWrite? || s.FinishPass? || s.Crash?
  }

  /** The dispatcher a step belongs to. */
  function Actor(s: Step): string
    requires Own(s)
  {
    match s
    case StartPass(claim) => claim.owner
    case Act(owner, _) => owner
    case FailedWrite(owner, _, _) => owner
    case FinishPass(owner) => owner
    case Crash(owner) => owner
  }

  lemma ActorKept(N: nat, w: World, s: Step, id: Id)
    requires N >= 1 && Inv(N, w) && Enabled(N, w, s) && Own(s)
    ensures ActorInv(N, Next(w, s), Actor(s), id)
  {
    assert RowInv(N, w, id) && LocalInv(N, w, Actor(s), id);
    match s
    case StartPass(claim) => StartActor(N, w, claim, id);
    case FinishPass(owner) =>
      var other := owner + "'";
      assert LocalInv(N, w, other, id) && Exclusive(w, owner, other, id);
      FinishAt(N, w, owner, other, id);
    case Crash(owner) => CrashActor(N, w, owner, id);
    case Act(owner, Write(r, whole)) => WriteActor(N, w, owner, r, whole, id);
    case FailedWrite(owner, r, reached) => FailedActor(N, w, owner, r, reached, id);
    case Act(owner, Begin) => BeginActor(N, w, owner, id);
    case Act(owner, End(o)) => EndActor(N, w, owner, o, id);
  }

  lemma OtherKept(N: nat, w: World, s: Step, other: string, id: Id)
    requires N >= 1 && Inv(N, w) && Enabled(N, w, s) && Own(s)
    requires other != Actor(s)
    ensures OtherInv(N, Next(w, s), Actor(s), other, id)
    ensures At(Next(w, s), other) == At(w, other)
  {
    assert RowInv(N, w, id) && LocalInv(N, w, Actor(s), id);
    assert LocalInv(N, w, other, id) && Exclusive(w, Actor(s), other, id);
    match s
    case StartPass(claim) => StartOther(N, w, claim, other, id);
    case FinishPass(owner) => FinishAt(N, w, owner, other, id);
    case Crash(owner) => CrashOther(N, w, owner, other, id);
    case Act(owner, Write(r, whole)) => WriteOther(N, w, owner, other, r, whole, id);
    case FailedWrite(owner, r, reached) => FailedOther(N, w, owner, other, r, reached, id);
    case Act(owner, Begin) => BeginOther(N, w, owner, other, id);
    case Act(owner, End(o)) => EndOther(N, w, owner, other, o, id);
  }

  /** No dispatcher but the one acting comes to hold a row. */
  lemma NotHandedOver(N: nat, w: World, s: Step, o: string, id: Id)
    requires Enabled(N, w, s) && Own(s)
    requires o != Actor(s) && (At(w, o).Pass? ==> o != "")
    ensures Spending(Next(w, s), o, id) ==> Spending(w, o, id)
  {
    assert At(Next(w, s), o) == At(w, o);
    assert o != "" && Holds(Next(w, s), o, id) ==> Holds(w, o, id);
  }

  /** Every step of every dispatcher, and every change around them, keeps the invariant. */
  lemma StepKeeps(N: nat, w: World, s: Step)
    requires N >= 1 && Inv(N, w) && Enabled(N, w, s)
    ensures Inv(N, Next(w, s))
  {
    if s.Publish? || s.Deactivate? || s.Delete? || s.Purge? {
      var w' := Next(w, s);
      forall o, id ensures RowInv(N, w', id) && LocalInv(N, w', o, id) && (Spending(w', o, id) ==> Spending(w, o, id)) {
        assert RowInv(N, w, id) && LocalInv(N, w, o, id);
        EnvironmentAt(N, w, s, o, id);
      }
      forall id ensures RowInv(N, w', id) { assert LocalInv(N, w', "", id); }
      forall o1, o2, id ensures Exclusive(w', o1, o2, id) { assert Exclusive(w, o1, o2, id); }
    } else {
      var w', a := Next(w, s), Actor(s);
      forall id ensures RowInv(N, w', id) { ActorKept(N, w, s, id); }
      forall o, id ensures LocalInv(N, w', o, id) {
        if o == a { ActorKept(N, w, s, id); } else { OtherKept(N, w, s, o, id); }
      }
      forall o1, o2, id ensures Exclusive(w', o1, o2, id) {
        if o1 != a && o2 != a {
          assert Exclusive(w, o1, o2, id) && LocalInv(N, w, o1, id) && LocalInv(N, w, o2, id);
          NotHandedOver(N, w, s, o1, id);
          NotHandedOver(N, w, s, o2, id);
        } else if o1 != o2 {
          var o := if o1 == a then o2 else o1;
          OtherKept(N, w, s, o, id);
          assert Exclusive(w', a, o, id);
        }
      }
    }
  }
}
