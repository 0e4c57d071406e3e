/**
 * Several relays over one outbox, step by step: claims, one sink's answer at a time, settlements that
 * the store may refuse, and crashes anywhere. `taken` remembers what really happened: the sinks that
 * said they took an event.
 */
module RelayProtocol {
  import opened Basics
  import opened Outbox
  import L = Lifecycle

  /** A relay at work on a claimed event, with the rest of its batch; `turn` is the next sink. */
  datatype Relay = Idle | Busy(until: Time, entry: OutboxRow, turn: nat, fan: Fan, rest: seq<OutboxRow>)

  datatype Config = Config(sinks: seq<string>, maxAttempts: nat)

  datatype World = World(
    clock: Time,
    rows: map<EventId, OutboxRow>,
    relays: map<string, Relay>,
    taken: map<EventId, set<string>>,
    settled: map<EventId, nat>)

  datatype Step =
    | Tick(to: Time)
    | Append(event: L.Event)
    | Claim(claim: OutboxClaim, ids: seq<EventId>)
    | Offer(owner: string, outcome: Outcome)
    | Conclude(owner: string, now: Time, next: Time, recorded: bool)
    | Stop(owner: string)

  function At(w: World, owner: string): Relay {
    if owner in w.relays then w.relays[owner] else Idle
  }

  function TakenBy(w: World, e: EventId): set<string> {
    if e in w.taken then w.taken[e] else {}
  }

  function SettledOf(w: World, e: EventId): nat {
    if e in w.settled then w.settled[e] else 0
  }

  function Begin(until: Time, entries: seq<OutboxRow>): Relay {
    if entries == [] then Idle else Busy(until, entries[0], 0, Fan(entries[0].accepted, [], false), entries[1..])
  }

  function Entries(r: Relay): seq<OutboxRow> {
    if r.Idle? then [] else [r.entry] + r.rest
  }

  /** The rows a claim returns: leased, in the order of their identifiers' list. */
  function ClaimedRows(rows: map<EventId, OutboxRow>, claim: OutboxClaim, ids: seq<EventId>): seq<OutboxRow>
    requires forall id :: id in ids ==> id in rows
  {
    seq(|ids|, i requires 0 <= i < |ids| => Leased(rows[ids[i]], claim))
  }

  /** A claim may return any due rows, each once; which ones `ClaimDueEvents` picks is of no consequence. */
  ghost predicate Enabled(cfg: Config, w: World, s: Step) {
    match s
    case Tick(to) => w.clock <= to
    case Append(event) => event.id !in w.rows
    case Claim(claim, ids) =>
      && At(w, claim.owner).Idle?
      && (forall id :: id in ids ==> id in w.rows && Due(w.rows[id], claim.now))
      && (forall i, j :: 0 <= i < j < |ids| ==> ids[i] != ids[j])
    case Offer(owner, _) => At(w, owner).Busy? && At(w, owner).turn < |cfg.sinks|
    case Conclude(owner, _, _, _) => At(w, owner).Busy? && At(w, owner).turn == |cfg.sinks|
    case Stop(owner) => true
  }

  ghost function Next(cfg: Config, w: World, s: Step): World
    requires Enabled(cfg, w, s)
  {
    match s
    case Tick(to) => w.(clock := to)
    case Append(event) => w.(rows := w.rows[event.id := Appended(event)])
    case Claim(claim, ids) =>
      w.(rows := map id | id in w.rows :: if id in ids then Leased(w.rows[id], claim) else w.rows[id],
         relays := w.relays[claim.owner := Begin(claim.now + claim.duration, ClaimedRows(w.rows, claim, ids))])
    case Offer(owner, outcome) =>
      var r := At(w, owner);
      var sink, id := cfg.sinks[r.turn], r.entry.event.id;
      w.(relays := w.relays[owner := r.(turn := r.turn + 1, fan := FanStep(r.entry, r.fan, sink, outcome))],
         taken := if !Skips(r.entry, sink) && outcome.Taken? then w.taken[id := TakenBy(w, id) + {sink}] else w.taken)
    case Conclude(owner, now, next, recorded) =>
      var r := At(w, owner);
      var id := r.entry.event.id;
      var w1 := w.(relays := w.relays[owner := Begin(r.until, r.rest)]);
      if !recorded || id !in w.rows then w1
      else w1.(rows := w.rows[id := Outbox.Settle(w.rows[id], Decide(r.entry, r.fan, cfg.maxAttempts, now, next))],
               settled := w.settled[id := SettledOf(w, id) + 1])
    case Stop(owner) => w.(relays := w.relays[owner := Idle])
  }

  ghost predicate IsRun(cfg: Config, states: seq<World>, steps: seq<Step>) {
    && |states| == |steps| + 1
    && states[0] == World(states[0].clock, map[], map[], map[], map[])
    && forall i :: 0 <= i < |steps| ==> Enabled(cfg, states[i], steps[i]) && states[i + 1] == Next(cfg, states[i], steps[i])
  }

  function Set(xs: seq<string>): set<string> {
    set x | x in xs
  }

  // ---------------------------------------------------------------- truthful delivery

  ghost predicate RowTrue(cfg: Config, w: World, id: EventId) {
    id in w.rows ==>
      && w.rows[id].event.id == id
      && Set(w.rows[id].accepted) <= TakenBy(w, id)
      && (Delivered(w.rows[id]) ==> Set(cfg.sinks) <= TakenBy(w, id))
  }

  ghost predicate FanTrue(cfg: Config, entry: OutboxRow, turn: nat, fan: Fan, taken: set<string>) {
    && turn <= |cfg.sinks| && Extends(entry.accepted, fan.accepted)
    && Set(entry.accepted) <= Set(fan.accepted) <= taken
    && (fan.failures == [] ==> Set(cfg.sinks[..turn]) <= Set(fan.accepted))
  }

  ghost predicate RelayTrue(cfg: Config, w: World, owner: string) {
    var r := At(w, owner);
    && (forall x :: x in Entries(r) ==> Set(x.accepted) <= TakenBy(w, x.event.id))
    && (r.Busy? ==> FanTrue(cfg, r.entry, r.turn, r.fan, TakenBy(w, r.entry.event.id)))
  }

  ghost predicate Truthful(cfg: Config, w: World) {
    (forall id :: RowTrue(cfg, w, id)) && (forall owner :: RelayTrue(cfg, w, owner))
  }

  /** Nothing that was taken is forgotten. */
  lemma TakenGrows(cfg: Config, w: World, s: Step, id: EventId)
    requires Enabled(cfg, w, s)
    ensures TakenBy(w, id) <= TakenBy(Next(cfg, w, s), id)
  {
  }

  lemma RowStaysTrue(cfg: Config, w: World, s: Step, id: EventId)
    requires Truthful(cfg, w) && Enabled(cfg, w, s)
    ensures RowTrue(cfg, Next(cfg, w, s), id)
  {
    assert RowTrue(cfg, w, id);
    TakenGrows(cfg, w, s, id);
    if s.Conclude? {
      var r := At(w, s.owner);
      assert RelayTrue(cfg, w, s.owner);
      assert cfg.sinks[..r.turn] == cfg.sinks;
    }
  }

  /** Starting on a batch: nothing has been offered yet. */
  lemma BeginTrue(cfg: Config, w: World, until: Time, entries: seq<OutboxRow>)
    requires forall x :: x in entries ==> Set(x.accepted) <= TakenBy(w, x.event.id)
    ensures var r := Begin(until, entries);
            (forall x :: x in Entries(r) ==> Set(x.accepted) <= TakenBy(w, x.event.id)) &&
            (r.Busy? ==> FanTrue(cfg, r.entry, r.turn, r.fan, TakenBy(w, r.entry.event.id)))
  {
  }

  /** One more sink keeps the fan-out true to what was taken. */
  lemma FanStepTrue(cfg: Config, entry: OutboxRow, turn: nat, fan: Fan, taken: set<string>, outcome: Outcome)
    requires FanTrue(cfg, entry, turn, fan, taken) && turn < |cfg.sinks|
    ensures var sink := cfg.sinks[turn];
            FanTrue(cfg, entry, turn + 1, FanStep(entry, fan, sink, outcome),
                    if !Skips(entry, sink) && outcome.Taken? then taken + {sink} else taken)
  {
    var sink, after := cfg.sinks[turn], FanStep(entry, fan, cfg.sinks[turn], outcome);
    FanStepExtends(entry, fan, sink, outcome);
    assert cfg.sinks[..turn + 1] == cfg.sinks[..turn] + [sink];
    assert Skips(entry, sink) ==> sink in Set(entry.accepted);
    if after.failures == [] {
      assert fan.failures == [];
      assert Set(cfg.sinks[..turn + 1]) == Set(cfg.sinks[..turn]) + {sink};
    }
  }

  lemma OfferStaysTrue(cfg: Config, w: World, s: Step)
    requires Truthful(cfg, w) && Enabled(cfg, w, s) && s.Offer?
    ensures RelayTrue(cfg, Next(cfg, w, s), s.owner)
  {
    var r, w' := At(w, s.owner), Next(cfg, w, s);
    var r' := At(w', s.owner);
    assert RelayTrue(cfg, w, s.owner);
    forall x | x in Entries(r) ensures Set(x.accepted) <= TakenBy(w', x.event.id) { TakenGrows(cfg, w, s, x.event.id); }
    assert Entries(r') == Entries(r);
    FanStepTrue(cfg, r.entry, r.turn, r.fan, TakenBy(w, r.entry.event.id), s.outcome);
  }

  lemma RelayStaysTrue(cfg: Config, w: World, s: Step, owner: string)
    requires Truthful(cfg, w) && Enabled(cfg, w, s)
    ensures RelayTrue(cfg, Next(cfg, w, s), owner)
  {
    var w' := Next(cfg, w, s);
    assert RelayTrue(cfg, w, owner);
    if s.Offer? && s.owner == owner {
      OfferStaysTrue(cfg, w, s);
    } else if s.Conclude? && s.owner == owner {
      var r := At(w, owner);
      BeginTrue(cfg, w', r.until, r.rest);
    } else if s.Claim? && s.claim.owner == owner {
      ClaimStaysTrue(cfg, w, s);
    } else {
      var r := At(w, owner);
      forall x | x in Entries(r) ensures TakenBy(w, x.event.id) <= TakenBy(w', x.event.id) { TakenGrows(cfg, w, s, x.event.id); }
    }
  }

  lemma ClaimStaysTrue(cfg: Config, w: World, s: Step)
    requires Truthful(cfg, w) && Enabled(cfg, w, s) && s.Claim?
    ensures RelayTrue(cfg, Next(cfg, w, s), s.claim.owner)
  {
    var w', entries := Next(cfg, w, s), ClaimedRows(w.rows, s.claim, s.ids);
    forall x | x in entries ensures Set(x.accepted) <= TakenBy(w', x.event.id) {
      var i :| 0 <= i < |entries| && entries[i] == x;
      assert RowTrue(cfg, w, s.ids[i]);
    }
    BeginTrue(cfg, w', s.claim.now + s.claim.duration, entries);
  }

  lemma {:induction false} RunTruthful(cfg: Config, states: seq<World>, steps: seq<Step>, i: nat)
    requires IsRun(cfg, states, steps) && i <= |steps|
    ensures Truthful(cfg, states[i])
  {
    if i > 0 {
      RunTruthful(cfg, states, steps, i - 1);
      var w, s := states[i - 1], steps[i - 1];
      assert states[i - 1 + 1] == Next(cfg, w, s);
      forall id ensures RowTrue(cfg, states[i], id) { RowStaysTrue(cfg, w, s, id); }
      forall owner ensures RelayTrue(cfg, states[i], owner) { RelayStaysTrue(cfg, w, s, owner); }
    }
  }

  /**
   * Under every interleaving, stale settlements and crashes included, a recorded acceptance was a real
   * one, and an event marked delivered was really taken by every configured sink.
   */
  lemma TruthfulDelivery(cfg: Config, states: seq<World>, steps: seq<Step>, i: nat, id: EventId)
    requires IsRun(cfg, states, steps) && i <= |steps| && id in states[i].rows
    ensures forall sink :: sink in states[i].rows[id].accepted ==> sink in TakenBy(states[i], id)
    ensures Delivered(states[i].rows[id]) ==> forall sink :: sink in cfg.sinks ==> sink in TakenBy(states[i], id)
  {
    RunTruthful(cfg, states, steps, i);
    assert RowTrue(cfg, states[i], id);
    assert forall sink :: sink in states[i].rows[id].accepted ==> sink in Set(states[i].rows[id].accepted);
    assert forall sink :: sink in cfg.sinks ==> sink in Set(cfg.sinks);
  }

  // ---------------------------------------------------------------- leases kept

  /** Relays read one clock, and act on a claimed event only before its lease lapses. */
  ghost predicate Disciplined(w: World, s: Step) {
    match s
    case Claim(claim, _) => claim.now == w.clock
    case Offer(owner, _) => At(w, owner).Busy? ==> w.clock < At(w, owner).until
    case Conclude(owner, _, _, _) => At(w, owner).Busy? ==> w.clock < At(w, owner).until
    case _ => true
  }

  /** A relay whose lease runs holds its entries: the rows still say what it was given. */
  ghost predicate Holding(w: World, owner: string) {
    var r := At(w, owner);
    r.Busy? && w.clock < r.until ==>
      && (forall x :: x in Entries(r) ==> Held(w, owner, r.until, x))
      && (forall i, j :: 0 <= i < j < |Entries(r)| ==> Entries(r)[i].event.id != Entries(r)[j].event.id)
  }

  predicate Held(w: World, owner: string, until: Time, x: OutboxRow) {
    && x.event.id in w.rows && w.rows[x.event.id] == x
    && x.lockedBy == owner && x.lockedUntil == Some(until) && !Terminal(x)
  }

  /** A row's attempts are the settled ones, and a pending row has some left. */
  predicate Budgeted(cfg: Config, w: World, id: EventId) {
    id in w.rows ==>
      && w.rows[id].event.id == id
      && w.rows[id].attempts == SettledOf(w, id) <= cfg.maxAttempts
      && (!Terminal(w.rows[id]) ==> w.rows[id].attempts < cfg.maxAttempts)
  }

  ghost predicate Kept(cfg: Config, w: World) {
    && (forall owner :: Holding(w, owner))
    && (forall id :: Budgeted(cfg, w, id))
    && (forall id :: id !in w.rows ==> SettledOf(w, id) == 0)
  }

  /** How a row may change: acceptances only grow, and a terminal row does not change. */
  predicate RowGrows(a: OutboxRow, b: OutboxRow) {
    Set(a.accepted) <= Set(b.accepted) && (Terminal(a) ==> b == a)
  }

  lemma ConcludeAt(cfg: Config, w: World, s: Step, id: EventId)
    requires cfg.maxAttempts > 0 && Truthful(cfg, w) && Kept(cfg, w) && Enabled(cfg, w, s) && Disciplined(w, s) && s.Conclude?
    ensures Budgeted(cfg, Next(cfg, w, s), id)
    ensures id in w.rows ==> id in Next(cfg, w, s).rows && RowGrows(w.rows[id], Next(cfg, w, s).rows[id])
  {
    var r := At(w, s.owner);
    assert Budgeted(cfg, w, id);
    assert Holding(w, s.owner) && RelayTrue(cfg, w, s.owner);
    assert r.entry in Entries(r);
    assert Held(w, s.owner, r.until, r.entry);
  }

  /** A step changes a row as it should. */
  lemma StepAt(cfg: Config, w: World, s: Step, id: EventId)
    requires cfg.maxAttempts > 0 && Truthful(cfg, w) && Kept(cfg, w) && Enabled(cfg, w, s) && Disciplined(w, s)
    ensures Budgeted(cfg, Next(cfg, w, s), id)
    ensures id in w.rows ==> id in Next(cfg, w, s).rows && RowGrows(w.rows[id], Next(cfg, w, s).rows[id])
    ensures id !in Next(cfg, w, s).rows ==> SettledOf(Next(cfg, w, s), id) == 0
  {
    assert Budgeted(cfg, w, id);
    if s.Conclude? {
      ConcludeAt(cfg, w, s, id);
    }
  }

  lemma HoldingKept(cfg: Config, w: World, s: Step, owner: string)
    requires Kept(cfg, w) && Enabled(cfg, w, s) && Disciplined(w, s)
    ensures Holding(Next(cfg, w, s), owner)
  {
    var w' := Next(cfg, w, s);
    var r, r' := At(w, owner), At(w', owner);
    assert Holding(w, owner);
    if r'.Busy? && w'.clock < r'.until {
      match s
      case Claim(claim, ids) => ClaimHolds(cfg, w, s, owner);
      case Conclude(_, _, _, _) => ConcludeHolds(cfg, w, s, owner);
      case Offer(_, _) => assert Entries(r') == Entries(r);
      case _ =>
    }
  }

  lemma ClaimHolds(cfg: Config, w: World, s: Step, owner: string)
    requires Kept(cfg, w) && Enabled(cfg, w, s) && Disciplined(w, s) && s.Claim?
    ensures Holding(Next(cfg, w, s), owner)
  {
    assert Holding(w, owner);
    if owner == s.claim.owner {
      ClaimantHolds(cfg, w, s);
    } else {
      var w' := Next(cfg, w, s);
      var r := At(w, owner);
      if r.Busy? && w.clock < r.until {
        forall x | x in Entries(r) ensures Held(w', owner, r.until, x) {
          assert Held(w, owner, r.until, x);
        }
      }
    }
  }

  lemma ClaimantHolds(cfg: Config, w: World, s: Step)
    requires Kept(cfg, w) && Enabled(cfg, w, s) && Disciplined(w, s) && s.Claim?
    ensures Holding(Next(cfg, w, s), s.claim.owner)
  {
    var w' := Next(cfg, w, s);
    var r' := At(w', s.claim.owner);
    var entries := ClaimedRows(w.rows, s.claim, s.ids);
    assert r'.Busy? ==> Entries(r') == entries;
    forall i | 0 <= i < |entries|
      ensures entries[i].event.id == s.ids[i] && Held(w', s.claim.owner, s.claim.now + s.claim.duration, entries[i])
    {
      assert Budgeted(cfg, w, s.ids[i]);
    }
  }

  lemma ConcludeHolds(cfg: Config, w: World, s: Step, owner: string)
    requires Kept(cfg, w) && Enabled(cfg, w, s) && Disciplined(w, s) && s.Conclude?
    ensures Holding(Next(cfg, w, s), owner)
  {
    var w', r, done := Next(cfg, w, s), At(w, owner), At(w, s.owner);
    assert Holding(w, owner) && Holding(w, s.owner);
    assert done.entry in Entries(done) && Held(w, s.owner, done.until, done.entry);
    if owner == s.owner {
      ConcluderHolds(cfg, w, s);
    } else if r.Busy? && w.clock < r.until {
      forall x | x in Entries(r) ensures Held(w', owner, r.until, x) {
        assert Held(w, owner, r.until, x);
      }
    }
  }

  lemma ConcluderHolds(cfg: Config, w: World, s: Step)
    requires Kept(cfg, w) && Enabled(cfg, w, s) && Disciplined(w, s) && s.Conclude?
    ensures Holding(Next(cfg, w, s), s.owner)
  {
    var w', r := Next(cfg, w, s), At(w, s.owner);
    var r' := At(w', s.owner);
    assert Holding(w, s.owner);
    assert Entries(r') == r.rest == Entries(r)[1..];
    forall i | 0 <= i < |r.rest| ensures Held(w', s.owner, r.until, r.rest[i]) {
      assert Entries(r)[0] == r.entry && Entries(r)[i + 1] == r.rest[i] && r.rest[i] in Entries(r);
      assert Held(w, s.owner, r.until, r.rest[i]);
    }
  }

  lemma StepKeeps(cfg: Config, w: World, s: Step)
    requires cfg.maxAttempts > 0 && Truthful(cfg, w) && Kept(cfg, w) && Enabled(cfg, w, s) && Disciplined(w, s)
    ensures Kept(cfg, Next(cfg, w, s))
  {
    var w' := Next(cfg, w, s);
    forall owner ensures Holding(w', owner) { HoldingKept(cfg, w, s, owner); }
    forall id ensures Budgeted(cfg, w', id) && (id !in w'.rows ==> SettledOf(w', id) == 0) { StepAt(cfg, w, s, id); }
  }

  ghost predicate IsDisciplined(cfg: Config, states: seq<World>, steps: seq<Step>) {
    && cfg.maxAttempts > 0 && IsRun(cfg, states, steps)
    && forall i :: 0 <= i < |steps| ==> Disciplined(states[i], steps[i])
  }

  lemma {:induction false} RunKept(cfg: Config, states: seq<World>, steps: seq<Step>, i: nat)
    requires IsDisciplined(cfg, states, steps) && i <= |steps|
    ensures Kept(cfg, states[i])
  {
    if i > 0 {
      RunKept(cfg, states, steps, i - 1);
      RunTruthful(cfg, states, steps, i - 1);
      assert states[i - 1 + 1] == Next(cfg, states[i - 1], steps[i - 1]) && Disciplined(states[i - 1], steps[i - 1]);
      StepKeeps(cfg, states[i - 1], steps[i - 1]);
    }
  }

  lemma RowGrowsTransitive(a: OutboxRow, b: OutboxRow, c: OutboxRow)
    requires RowGrows(a, b) && RowGrows(b, c)
    ensures RowGrows(a, c)
  {
  }

  /**
   * When every claim is settled before its lease lapses or its relay stops, each event's accepted set
   * only grows, and a delivered or dead-lettered event is never claimed or changed again.
   */
  lemma {:induction false} AcceptedGrows(cfg: Config, states: seq<World>, steps: seq<Step>, i: nat, j: nat, id: EventId)
    requires IsDisciplined(cfg, states, steps) && i <= j <= |steps| && id in states[i].rows
    ensures id in states[j].rows && RowGrows(states[i].rows[id], states[j].rows[id])
  {
    if i < j {
      AcceptedGrows(cfg, states, steps, i, j - 1, id);
      RunKept(cfg, states, steps, j - 1);
      RunTruthful(cfg, states, steps, j - 1);
      assert states[j - 1 + 1] == Next(cfg, states[j - 1], steps[j - 1]) && Disciplined(states[j - 1], steps[j - 1]);
      StepAt(cfg, states[j - 1], steps[j - 1], id);
      RowGrowsTransitive(states[i].rows[id], states[j - 1].rows[id], states[j].rows[id]);
    }
  }

  /** The sink an offer step really calls, if it calls one. */
  ghost predicate Calls(cfg: Config, w: World, s: Step, id: EventId, sink: string) {
    s.Offer? && At(w, s.owner).Busy? && At(w, s.owner).turn < |cfg.sinks| &&
    At(w, s.owner).entry.event.id == id && cfg.sinks[At(w, s.owner).turn] == sink && !Skips(At(w, s.owner).entry, sink)
  }

  lemma OfferedFresh(cfg: Config, w: World, s: Step, id: EventId, sink: string)
    requires Kept(cfg, w) && Disciplined(w, s) && Calls(cfg, w, s, id, sink)
    ensures id in w.rows && sink !in w.rows[id].accepted
  {
    var r := At(w, s.owner);
    assert Holding(w, s.owner) && r.entry in Entries(r);
    assert Held(w, s.owner, r.until, r.entry);
  }

  /** No sink is offered an event once its acceptance has been recorded. */
  lemma NeverOfferedAgain(cfg: Config, states: seq<World>, steps: seq<Step>, i: nat, j: nat, id: EventId, sink: string)
    requires IsDisciplined(cfg, states, steps) && i <= j < |steps| && id in states[i].rows
    requires sink in states[i].rows[id].accepted
    ensures !Calls(cfg, states[j], steps[j], id, sink)
  {
    AcceptedGrows(cfg, states, steps, i, j, id);
    assert sink in Set(states[j].rows[id].accepted);
    RunKept(cfg, states, steps, j);
    if Calls(cfg, states[j], steps[j], id, sink) {
      OfferedFresh(cfg, states[j], steps[j], id, sink);
    }
  }

  /** The relay is still on the attempt in which the sink took the event, and has it down as taken. */
  ghost predicate TookIt(w: World, owner: string, id: EventId, sink: string) {
    At(w, owner).Busy? && At(w, owner).entry.event.id == id && sink in At(w, owner).fan.accepted
  }

  lemma TookItStays(cfg: Config, w: World, s: Step, owner: string, id: EventId, sink: string)
    requires Enabled(cfg, w, s) && TookIt(w, owner, id, sink)
    requires !(s.Conclude? && s.owner == owner) && !(s.Stop? && s.owner == owner)
    ensures TookIt(Next(cfg, w, s), owner, id, sink)
  {
  }

  /** No conclusion and no crash of the relay between two moments: it is one attempt. */
  ghost predicate OneAttempt(steps: seq<Step>, owner: string, k: nat, m: nat) {
    k < m < |steps| && forall l :: k < l < m ==> !(steps[l].Conclude? && steps[l].owner == owner) && !(steps[l].Stop? && steps[l].owner == owner)
  }

  lemma {:induction false} AttemptRemembers(
      cfg: Config, states: seq<World>, steps: seq<Step>, owner: string, k: nat, m: nat, l: nat, id: EventId, sink: string)
    requires IsRun(cfg, states, steps) && OneAttempt(steps, owner, k, m) && k < l <= m
    requires TookIt(states[k + 1], owner, id, sink)
    ensures TookIt(states[l], owner, id, sink)
  {
    if k + 1 < l {
      AttemptRemembers(cfg, states, steps, owner, k, m, l - 1, id, sink);
      assert Enabled(cfg, states[l - 1], steps[l - 1]) && states[l - 1 + 1] == Next(cfg, states[l - 1], steps[l - 1]);
      TookItStays(cfg, states[l - 1], steps[l - 1], owner, id, sink);
    }
  }

  lemma ConcludeRecords(cfg: Config, w: World, s: Step, id: EventId, sink: string)
    requires Truthful(cfg, w) && Kept(cfg, w) && Enabled(cfg, w, s) && Disciplined(w, s) && s.Conclude? && s.recorded
    requires TookIt(w, s.owner, id, sink)
    ensures id in Next(cfg, w, s).rows && sink in Next(cfg, w, s).rows[id].accepted
  {
    var r := At(w, s.owner);
    assert Holding(w, s.owner) && RelayTrue(cfg, w, s.owner);
    assert r.entry in Entries(r);
    assert Held(w, s.owner, r.until, r.entry);
    SettledExactly(w.rows[id], r.entry, r.fan, cfg.maxAttempts, s.now, s.next);
  }

  /**
   * When a sink takes an event and that attempt's settlement is recorded, whatever the other sinks
   * answered, its acceptance is on the row from then on, and it is never called for the event again.
   */
  lemma {:induction false} TakenIsRecorded(
      cfg: Config, states: seq<World>, steps: seq<Step>, k: nat, m: nat, j: nat, id: EventId, sink: string)
    requires IsDisciplined(cfg, states, steps) && k < m < j <= |steps|
    requires Calls(cfg, states[k], steps[k], id, sink) && steps[k].outcome == Taken
    requires OneAttempt(steps, steps[k].owner, k, m) && steps[m].Conclude? && steps[m].owner == steps[k].owner && steps[m].recorded
    ensures id in states[j].rows && sink in states[j].rows[id].accepted
    ensures j < |steps| ==> !Calls(cfg, states[j], steps[j], id, sink)
  {
    var owner := steps[k].owner;
    assert Enabled(cfg, states[k], steps[k]) && states[k + 1] == Next(cfg, states[k], steps[k]);
    assert TookIt(states[k + 1], owner, id, sink);
    AttemptRemembers(cfg, states, steps, owner, k, m, m, id, sink);
    RunKept(cfg, states, steps, m);
    RunTruthful(cfg, states, steps, m);
    assert Enabled(cfg, states[m], steps[m]) && states[m + 1] == Next(cfg, states[m], steps[m]) && Disciplined(states[m], steps[m]);
    ConcludeRecords(cfg, states[m], steps[m], id, sink);
    AcceptedGrows(cfg, states, steps, m + 1, j, id);
    assert sink in Set(states[j].rows[id].accepted);
    if j < |steps| {
      NeverOfferedAgain(cfg, states, steps, j, j, id, sink);
    }
  }

  /** Every event is terminal within maxAttempts settled attempts. */
  lemma TerminalInTime(cfg: Config, states: seq<World>, steps: seq<Step>, i: nat, id: EventId)
    requires IsDisciplined(cfg, states, steps) && i <= |steps| && id in states[i].rows
    ensures SettledOf(states[i], id) <= cfg.maxAttempts
    ensures SettledOf(states[i], id) == cfg.maxAttempts ==> Terminal(states[i].rows[id])
  {
    RunKept(cfg, states, steps, i);
    assert Budgeted(cfg, states[i], id);
  }

  // ---------------------------------------------------------------- why the discipline is needed

  /** A settlement written over a terminal row keeps it terminal exactly in these cases. */
  lemma TerminalKept(row: OutboxRow, entry: OutboxRow, fan: Fan, maxAttempts: nat, now: Time, next: Time)
    requires Terminal(row)
    ensures Terminal(Outbox.Settle(row, Decide(entry, fan, maxAttempts, now, next))) <==>
            Delivered(row) || fan.failures == [] || fan.permanent || entry.attempts + 1 >= maxAttempts
  {
  }

  function Sample(): L.Event {
    L.Event("e", L.TaskCreated, "t", L.Ready, 1, "", "", L.Pool([], [], []), "", 0,
            L.TransitionRecord("t", 1, L.OpCreate, L.Created, L.Ready, "", "", 0), "")
  }

  /** One relay's lease lapses; a second dead-letters the event; the first then reschedules it. */
  const STALE: seq<Step> := [
    Append(Sample()),
    Claim(OutboxClaim(0, "r1", 10, 1), ["e"]),
    Tick(10),
    Claim(OutboxClaim(10, "r2", 10, 1), ["e"]),
    Offer("r2", Permanent("gone")),
    Conclude("r2", 10, 0, true),
    Offer("r1", Retryable("busy")),
    Conclude("r1", 0, 5, true)]

  const TWO_RELAYS := Config(["a"], 5)

  function Pending(): OutboxRow {
    Leased(Appended(Sample()), OutboxClaim(0, "r1", 10, 1))
  }

  function Reclaimed(): OutboxRow {
    Leased(Pending(), OutboxClaim(10, "r2", 10, 1))
  }

  ghost predicate Leads(w: World, s: Step, w': World) {
    Enabled(TWO_RELAYS, w, s) && w' == Next(TWO_RELAYS, w, s)
  }

  /** Both relays hold the event, the first past its lease. */
  ghost predicate BothHold(w: World) {
    && w.rows == map["e" := Reclaimed()]
    && At(w, "r1") == Busy(10, Pending(), 0, Fan([], [], false), [])
    && At(w, "r2") == Busy(20, Reclaimed(), 0, Fan([], [], false), [])
  }

  lemma BothClaim() returns (ws: seq<World>)
    ensures |ws| == 5 && ws[0] == World(0, map[], map[], map[], map[]) && BothHold(ws[4])
    ensures Leads(ws[0], STALE[0], ws[1]) && Leads(ws[1], STALE[1], ws[2])
    ensures Leads(ws[2], STALE[2], ws[3]) && Leads(ws[3], STALE[3], ws[4])
  {
    var w0 := World(0, map[], map[], map[], map[]);
    var w1 := Next(TWO_RELAYS, w0, STALE[0]);
    var w2 := Next(TWO_RELAYS, w1, STALE[1]);
    var w3 := Next(TWO_RELAYS, w2, STALE[2]);
    var w4 := Next(TWO_RELAYS, w3, STALE[3]);
    ws := [w0, w1, w2, w3, w4];
  }

  lemma SecondBuries(w: World) returns (ws: seq<World>)
    requires BothHold(w)
    ensures |ws| == 3 && ws[0] == w && Leads(ws[0], STALE[4], ws[1]) && Leads(ws[1], STALE[5], ws[2])
    ensures At(ws[2], "r1") == At(w, "r1") && "e" in ws[2].rows && DeadLettered(ws[2].rows["e"])
  {
    var w1 := Next(TWO_RELAYS, w, STALE[4]);
    var w2 := Next(TWO_RELAYS, w1, STALE[5]);
    ws := [w, w1, w2];
  }

  lemma FirstRevives(w: World) returns (ws: seq<World>)
    requires At(w, "r1") == Busy(10, Pending(), 0, Fan([], [], false), []) && "e" in w.rows && DeadLettered(w.rows["e"])
    ensures |ws| == 3 && ws[0] == w && Leads(ws[0], STALE[6], ws[1]) && Leads(ws[1], STALE[7], ws[2])
    ensures "e" in ws[2].rows && !Terminal(ws[2].rows["e"])
  {
    var w1 := Next(TWO_RELAYS, w, STALE[6]);
    var w2 := Next(TWO_RELAYS, w1, STALE[7]);
    ws := [w, w1, w2];
  }

  /** A run in which a settlement that outlived its lease makes a dead letter pending again. */
  lemma StaleSettlementRevives() returns (states: seq<World>)
    ensures |states| == |STALE| + 1 && states[0] == World(0, map[], map[], map[], map[])
    ensures forall i :: 0 <= i < |STALE| ==> Leads(states[i], STALE[i], states[i + 1])
    ensures "e" in states[6].rows && DeadLettered(states[6].rows["e"])
    ensures "e" in states[8].rows && !Terminal(states[8].rows["e"])
  {
    var a := BothClaim();
    var b := SecondBuries(a[4]);
    var c := FirstRevives(b[2]);
    states := a + b[1..] + c[1..];
  }
}
