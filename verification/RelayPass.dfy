/**
 * One relay pass as the relay runs it (relay/relay.go): the fan-out of each claimed event, its
 * settlement, and the counters both update. Sinks and the store answer as they like.
 */
module RelayPass {
  import opened Basics
  import opened Outbox
  import R = RelayProtocol

  /** What one sink did during one pass. */
  datatype SinkResult = SinkResult(delivered: nat, retryable: nat, permanent: nat, unclassified: nat, skipped: nat)

  function Total(t: SinkResult): nat {
    t.delivered + t.retryable + t.permanent + t.unclassified + t.skipped
  }

  /** The tally one turn of a sink adds to. */
  function Tallied(t: SinkResult, entry: OutboxRow, sink: string, outcome: Outcome): SinkResult {
    if Skips(entry, sink) then t.(skipped := t.skipped + 1)
    else match outcome
      case Taken => t.(delivered := t.delivered + 1)
      case Retryable(_) => t.(retryable := t.retryable + 1)
      case Permanent(_) => t.(permanent := t.permanent + 1)
      case Unclassified => t.(unclassified := t.unclassified + 1)
  }

  /** How one sink fared over a batch: how often it took an event, failed each way, or had it already. */
  function TallyOver(batch: seq<OutboxRow>, host: Host, sink: string): SinkResult {
    SinkResult(
      |Sieve(batch, (e: OutboxRow) => sink !in e.accepted && host.deliver(e.event.id, sink).Taken?)|,
      |Sieve(batch, (e: OutboxRow) => sink !in e.accepted && host.deliver(e.event.id, sink).Retryable?)|,
      |Sieve(batch, (e: OutboxRow) => sink !in e.accepted && host.deliver(e.event.id, sink).Permanent?)|,
      |Sieve(batch, (e: OutboxRow) => sink !in e.accepted && host.deliver(e.event.id, sink).Unclassified?)|,
      |Sieve(batch, (e: OutboxRow) => sink in e.accepted)|)
  }

  lemma {:induction false} TallyNext(batch: seq<OutboxRow>, i: nat, host: Host, sink: string)
    requires i < |batch|
    ensures TallyOver(batch[..i + 1], host, sink) ==
            Tallied(TallyOver(batch[..i], host, sink), batch[i], sink, host.deliver(batch[i].event.id, sink))
  {
    assert batch[..i + 1][..i] == batch[..i] && batch[..i + 1][i] == batch[i];
  }

  /** What sinks answer to an event, when its retry is due, and whether the store records a settlement. */
  datatype Host = Host(
    deliver: (EventId, string) -> Outcome,
    nextAttemptAt: nat -> Time,
    records: EventId -> bool)

  /** The fan-out over the first `n` sinks. */
  function FanOver(entry: OutboxRow, sinks: seq<string>, n: nat, host: Host): Fan
    requires n <= |sinks|
  {
    if n == 0 then Fan(entry.accepted, [], false)
    else FanStep(entry, FanOver(entry, sinks, n - 1, host), sinks[n - 1], host.deliver(entry.event.id, sinks[n - 1]))
  }

  // ---------------------------------------------------------------- what an attempt comes to

  /** The sink has the event, from before or from this attempt. */
  predicate HasIt(entry: OutboxRow, host: Host, sink: string) {
    sink in entry.accepted || host.deliver(entry.event.id, sink).Taken?
  }

  /** The sink refused the event for good. */
  predicate Refuses(entry: OutboxRow, host: Host, sink: string) {
    sink !in entry.accepted && (host.deliver(entry.event.id, sink).Permanent? || host.deliver(entry.event.id, sink).Unclassified?)
  }

  predicate AllHaveIt(entry: OutboxRow, sinks: seq<string>, host: Host) {
    forall sink :: sink in sinks ==> HasIt(entry, host, sink)
  }

  predicate SomeRefuse(entry: OutboxRow, sinks: seq<string>, host: Host) {
    exists sink :: sink in sinks && Refuses(entry, host, sink)
  }

  /** A fan-out over some sinks tells who has the event, whether all do, and whether one refused it. */
  ghost predicate Tells(entry: OutboxRow, sinks: seq<string>, host: Host, fan: Fan) {
    && Extends(entry.accepted, fan.accepted)
    && (forall sink :: sink in fan.accepted <==> sink in entry.accepted || (sink in sinks && HasIt(entry, host, sink)))
    && (fan.failures == [] <==> AllHaveIt(entry, sinks, host))
    && (fan.permanent <==> SomeRefuse(entry, sinks, host))
  }

  lemma AllHaveMore(entry: OutboxRow, sinks: seq<string>, host: Host, sink: string)
    ensures AllHaveIt(entry, sinks + [sink], host) <==> AllHaveIt(entry, sinks, host) && HasIt(entry, host, sink)
  {
    assert sink in sinks + [sink] && forall x :: x in sinks ==> x in sinks + [sink];
  }

  lemma SomeRefuseMore(entry: OutboxRow, sinks: seq<string>, host: Host, sink: string)
    ensures SomeRefuse(entry, sinks + [sink], host) <==> SomeRefuse(entry, sinks, host) || Refuses(entry, host, sink)
  {
    assert sink in sinks + [sink] && forall x :: x in sinks ==> x in sinks + [sink];
  }

  lemma TellsMore(entry: OutboxRow, sinks: seq<string>, host: Host, fan: Fan, sink: string)
    requires Tells(entry, sinks, host, fan)
    ensures Tells(entry, sinks + [sink], host, FanStep(entry, fan, sink, host.deliver(entry.event.id, sink)))
  {
    AllHaveMore(entry, sinks, host, sink);
    SomeRefuseMore(entry, sinks, host, sink);
    FanStepExtends(entry, fan, sink, host.deliver(entry.event.id, sink));
  }

  lemma {:induction false} FanMeans(entry: OutboxRow, sinks: seq<string>, n: nat, host: Host)
    requires n <= |sinks|
    ensures Tells(entry, sinks[..n], host, FanOver(entry, sinks, n, host))
  {
    if n > 0 {
      FanMeans(entry, sinks, n - 1, host);
      assert sinks[..n] == sinks[..n - 1] + [sinks[n - 1]];
      TellsMore(entry, sinks[..n - 1], host, FanOver(entry, sinks, n - 1, host), sinks[n - 1]);
    }
  }

  /**
   * What an attempt leaves of its row, told from the sinks' answers alone: every sink that took the event
   * is on it; it is delivered when all have it, dead when one refused it or the attempts are used up, and
   * due again at the scheduled instant otherwise.
   */
  ghost predicate ComesTo(entry: OutboxRow, sinks: seq<string>, host: Host, maxAttempts: nat, now: Time, row: OutboxRow) {
    && row.event == entry.event && row.attempts == entry.attempts + 1 && row.lockedBy == "" && row.lockedUntil.None?
    && (forall sink :: sink in row.accepted <==> sink in entry.accepted || (sink in sinks && HasIt(entry, host, sink)))
    && (if AllHaveIt(entry, sinks, host) then row.publishedAt == Some(now) && row.lastError == ""
        else
          && row.publishedAt == entry.publishedAt
          && row.nextAttemptAt == if GivenUp(entry, sinks, host, maxAttempts) then None else Some(host.nextAttemptAt(entry.attempts)))
  }

  predicate GivenUp(entry: OutboxRow, sinks: seq<string>, host: Host, maxAttempts: nat) {
    SomeRefuse(entry, sinks, host) || entry.attempts + 1 >= maxAttempts
  }

  lemma {:induction false} DecisionMeans(entry: OutboxRow, sinks: seq<string>, host: Host, maxAttempts: nat, now: Time)
    ensures var s := Decide(entry, FanOver(entry, sinks, |sinks|, host), maxAttempts, now, host.nextAttemptAt(entry.attempts));
            && ComesTo(entry, sinks, host, maxAttempts, now, Settle(entry, s))
            && VerdictOf(s, true) == (if AllHaveIt(entry, sinks, host) then WasDelivered
                                      else if GivenUp(entry, sinks, host, maxAttempts) then WasDeadLettered
                                      else WasRetried)
  {
    FanMeans(entry, sinks, |sinks|, host);
    assert sinks[..|sinks|] == sinks;
    SettledExactly(entry, entry, FanOver(entry, sinks, |sinks|, host), maxAttempts, now, host.nextAttemptAt(entry.attempts));
  }

  datatype Verdict = WasDelivered | WasRetried | WasDeadLettered | WasUnsettled

  function VerdictOf(s: Settlement, recorded: bool): Verdict {
    if !recorded then WasUnsettled
    else match s
      case Accept(_, Some(_), _, _, _) => WasDelivered
      case Accept(_, None, _, _, _) => WasRetried
      case DeadLetter(_, _, _) => WasDeadLettered
      case Reschedule(_, _, _) => WasRetried
  }

  datatype Counters = Counters(delivered: nat, retried: nat, deadLettered: nat, unsettled: nat)

  function Bump(c: Counters, v: Verdict): Counters {
    match v
    case WasDelivered => c.(delivered := c.delivered + 1)
    case WasRetried => c.(retried := c.retried + 1)
    case WasDeadLettered => c.(deadLettered := c.deadLettered + 1)
    case WasUnsettled => c.(unsettled := c.unsettled + 1)
  }

  function Sum(c: Counters): nat {
    c.delivered + c.retried + c.deadLettered + c.unsettled
  }

  ghost predicate Named(names: seq<string>) {
    && names != []
    && (forall i :: 0 <= i < |names| ==> names[i] != "")
    && (forall i, j :: 0 <= i < j < |names| ==> names[i] != names[j])
  }

  /** `nameSinks`: refuses no sinks, an unnamed sink and two sinks of one name, and nothing else. */
  method NameSinks(sinks: seq<string>) returns (names: Option<seq<string>>)
    ensures names.Some? <==> Named(sinks)
    ensures names.Some? ==> names.value == sinks
  {
    if |sinks| == 0 {
      return None;
    }
    var out, seen := [], {};
    for i := 0 to |sinks|
      invariant out == sinks[..i] && (forall x :: x in seen <==> x in sinks[..i])
      invariant forall k :: 0 <= k < i ==> sinks[k] != ""
      invariant forall j, k :: 0 <= j < k < i ==> sinks[j] != sinks[k]
    {
      if sinks[i] == "" {
        return None;
      }
      if sinks[i] in seen {
        assert exists k :: 0 <= k < i && sinks[k] == sinks[i];
        return None;
      }
      seen := seen + {sinks[i]};
      out := out + [sinks[i]];
    }
    return Some(out);
  }

  class Relay {
    const names: seq<string>
    const maxAttempts: nat
    const host: Host

    /** The pass's result. */
    var claimed: nat
    var counters: Counters
    var sinks: map<string, SinkResult>

    /** What the pass settled: each attempt's decision, in order. */
    ghost var settlements: seq<(EventId, Settlement)>

    ghost predicate Valid() reads this {
      Named(names) && forall i :: 0 <= i < |names| ==> names[i] in sinks
    }

    constructor (names: seq<string>, maxAttempts: nat, host: Host)
      requires Named(names)
      ensures Valid() && this.names == names && this.maxAttempts == maxAttempts && this.host == host
    {
      this.names, this.maxAttempts, this.host := names, maxAttempts, host;
      claimed, counters, settlements := 0, Counters(0, 0, 0, 0), [];
      sinks := map i | 0 <= i < |names| :: names[i] := SinkResult(0, 0, 0, 0, 0);
    }

    /** Offers one event to every sink that has not taken it; each sink gets exactly one tally. */
    method FanOut(entry: OutboxRow) returns (fan: Fan)
      requires Valid()
      modifies this`sinks
      ensures Valid() && fan == FanOver(entry, names, |names|, host)
      ensures forall i :: 0 <= i < |names| ==>
                names[i] in old(sinks) &&
                sinks[names[i]] == Tallied(old(sinks)[names[i]], entry, names[i], host.deliver(entry.event.id, names[i]))
    {
      fan := Fan(entry.accepted, [], false);
      ghost var was := sinks;
      for i := 0 to |names|
        invariant Valid() && fan == FanOver(entry, names, i, host)
        invariant forall k :: 0 <= k < i ==> sinks[names[k]] == Tallied(was[names[k]], entry, names[k], host.deliver(entry.event.id, names[k]))
        invariant forall k :: i <= k < |names| ==> sinks[names[k]] == was[names[k]]
      {
        var name := names[i];
        var tally := sinks[name];
        if name in entry.accepted {
          sinks := sinks[name := tally.(skipped := tally.skipped + 1)];
          continue;
        }
        var outcome := host.deliver(entry.event.id, name);
        match outcome {
          case Taken =>
            tally := tally.(delivered := tally.delivered + 1);
            fan := fan.(accepted := fan.accepted + [name]);
          case Retryable(reason) =>
            tally := tally.(retryable := tally.retryable + 1);
            fan := fan.(failures := fan.failures + [name + ": " + reason]);
          case Permanent(reason) =>
            tally := tally.(permanent := tally.permanent + 1);
            fan := fan.(failures := fan.failures + [name + ": " + reason], permanent := true);
          case Unclassified =>
            tally := tally.(unclassified := tally.unclassified + 1);
            fan := fan.(failures := fan.failures + [name + ": " + UNCLASSIFIED], permanent := true);
        }
        sinks := sinks[name := tally];
      }
    }

    ghost function DecisionOn(entry: OutboxRow, now: Time): Settlement reads this {
      Decide(entry, FanOver(entry, names, |names|, host), maxAttempts, now, host.nextAttemptAt(entry.attempts))
    }

    /** How an attempt is settled, and how it counts once that is written. */
    method Judge(entry: OutboxRow, fan: Fan, now: Time) returns (settlement: Settlement, settled: Verdict)
      ensures settlement == Decide(entry, fan, maxAttempts, now, host.nextAttemptAt(entry.attempts))
      ensures settled == VerdictOf(settlement, true)
    {
      var attempts := entry.attempts + 1;
      if |fan.failures| == 0 {
        return Accept(fan.accepted, Some(now), None, attempts, ""), WasDelivered;
      } else if fan.permanent || attempts >= maxAttempts {
        return DeadLetter(fan.accepted, attempts, Join(fan.failures)), WasDeadLettered;
      } else if |fan.accepted| > |entry.accepted| {
        var next := host.nextAttemptAt(entry.attempts);
        return Accept(fan.accepted, None, Some(next), attempts, Join(fan.failures)), WasRetried;
      }
      return Reschedule(attempts, host.nextAttemptAt(entry.attempts), Join(fan.failures)), WasRetried;
    }

    /** Delivers one claimed event and writes down what happened: one counter, and only what the store took. */
    method SettleEvent(entry: OutboxRow, now: Time)
      requires Valid()
      modifies this`sinks, this`counters, this`settlements
      ensures Valid() && settlements == old(settlements) + [(entry.event.id, DecisionOn(entry, now))]
      ensures ComesTo(entry, names, host, maxAttempts, now, Settle(entry, DecisionOn(entry, now)))
      ensures counters == Bump(old(counters),
                               if !host.records(entry.event.id) then WasUnsettled
                               else if AllHaveIt(entry, names, host) then WasDelivered
                               else if GivenUp(entry, names, host, maxAttempts) then WasDeadLettered
                               else WasRetried)
      ensures forall i :: 0 <= i < |names| ==>
                names[i] in old(sinks) &&
                sinks[names[i]] == Tallied(old(sinks)[names[i]], entry, names[i], host.deliver(entry.event.id, names[i]))
    {
      var fan := FanOut(entry);
      DecisionMeans(entry, names, host, maxAttempts, now);
      var recorded := host.records(entry.event.id);
      var settlement, settled := Judge(entry, fan, now);
      settlements := settlements + [(entry.event.id, settlement)];
      if !recorded {
        counters := counters.(unsettled := counters.unsettled + 1);
        return;
      }
      counters := Bump(counters, settled);
    }

    /** Each sink's tallies are what it did over the first `i` events. */
    ghost predicate TalliedTo(batch: seq<OutboxRow>, i: nat)
      requires i <= |batch|
      reads this
    {
      Valid() && forall k :: 0 <= k < |names| ==> sinks[names[k]] == TallyOver(batch[..i], host, names[k])
    }

    /** The first `i` events are settled, each as the sinks' answers to it demand. */
    ghost predicate SettledTo(batch: seq<OutboxRow>, i: nat, now: Time)
      requires i <= |batch|
      reads this
    {
      |settlements| == i &&
      forall k :: 0 <= k < i ==>
        settlements[k].0 == batch[k].event.id && ComesTo(batch[k], names, host, maxAttempts, now, Settle(batch[k], settlements[k].1))
    }

    /** The next event of a batch. */
    method SettleNext(batch: seq<OutboxRow>, i: nat, now: Time)
      requires i < |batch| && TalliedTo(batch, i) && SettledTo(batch, i, now)
      modifies this`sinks, this`counters, this`settlements
      ensures TalliedTo(batch, i + 1) && SettledTo(batch, i + 1, now) && Sum(counters) == old(Sum(counters)) + 1
    {
      SettleEvent(batch[i], now);
      forall k | 0 <= k < |names| ensures sinks[names[k]] == TallyOver(batch[..i + 1], host, names[k]) {
        TallyNext(batch, i, host, names[k]);
      }
    }

    /** A pass over a claimed batch: the four counters, and each sink's five tallies, add up to it. */
    method RelayBatch(batch: seq<OutboxRow>, now: Time)
      requires Valid() && counters == Counters(0, 0, 0, 0) && settlements == []
      requires forall i :: 0 <= i < |names| ==> sinks[names[i]] == SinkResult(0, 0, 0, 0, 0)
      modifies this
      ensures Valid() && claimed == |batch| == Sum(counters) && SettledTo(batch, |batch|, now)
      ensures forall i :: 0 <= i < |names| ==> sinks[names[i]] == TallyOver(batch, host, names[i]) && Total(sinks[names[i]]) == claimed
    {
      claimed := |batch|;
      assert TalliedTo(batch, 0) by { forall k | 0 <= k < |names| { NothingTallied(host, names[k]); } }
      for i := 0 to |batch|
        invariant TalliedTo(batch, i) && SettledTo(batch, i, now) && claimed == |batch| && Sum(counters) == i
      {
        SettleNext(batch, i, now);
      }
      assert batch[..|batch|] == batch;
      forall i | 0 <= i < |names| ensures Total(sinks[names[i]]) == claimed {
        TallyTotal(batch, |batch|, host, names[i]);
      }
    }
  }

  lemma {:induction false} TallyTotal(batch: seq<OutboxRow>, i: nat, host: Host, sink: string)
    requires i <= |batch|
    ensures Total(TallyOver(batch[..i], host, sink)) == i
    decreases i
  {
    if i > 0 {
      var before := TallyOver(batch[..i - 1], host, sink);
      assert Total(before) == i - 1 by { TallyTotal(batch, i - 1, host, sink); }
      assert TallyOver(batch[..i], host, sink) == Tallied(before, batch[i - 1], sink, host.deliver(batch[i - 1].event.id, sink)) by {
        TallyNext(batch, i - 1, host, sink);
      }
      TalliedTotal(before, batch[i - 1], sink, host.deliver(batch[i - 1].event.id, sink));
    } else {
      NothingTallied(host, sink);
    }
  }

  lemma TalliedTotal(t: SinkResult, entry: OutboxRow, sink: string, outcome: Outcome)
    ensures Total(Tallied(t, entry, sink, outcome)) == Total(t) + 1
  {
  }

  lemma NothingTallied(host: Host, sink: string)
    ensures TallyOver([], host, sink) == SinkResult(0, 0, 0, 0, 0)
  {
  }

  // ---------------------------------------------------------------- the pass is the protocol's

  /** The world after a relay has offered its entry to the first `n` sinks. */
  ghost function Offered(cfg: R.Config, w: R.World, owner: string, host: Host, n: nat): R.World
    requires n <= |cfg.sinks|
  {
    if n == 0 then w
    else
      var v := Offered(cfg, w, owner, host, n - 1);
      var r := R.At(v, owner);
      if r.Busy? && r.turn == n - 1 then
        R.Next(cfg, v, R.Offer(owner, host.deliver(r.entry.event.id, cfg.sinks[n - 1])))
      else v
  }

  /** Offering sink by sink builds the fan-out the pass computes, so its decision is the protocol's. */
  lemma {:induction false} PassFollowsProtocol(cfg: R.Config, w: R.World, owner: string, host: Host, n: nat)
    requires n <= |cfg.sinks| && R.At(w, owner).Busy? && R.At(w, owner).turn == 0
    requires R.At(w, owner).fan == Fan(R.At(w, owner).entry.accepted, [], false)
    ensures var r := R.At(Offered(cfg, w, owner, host, n), owner);
            r == R.At(w, owner).(turn := n, fan := FanOver(R.At(w, owner).entry, cfg.sinks, n, host))
    ensures Offered(cfg, w, owner, host, n).rows == w.rows
  {
    if n > 0 {
      PassFollowsProtocol(cfg, w, owner, host, n - 1);
    }
  }

  // ---------------------------------------------------------------- the retry schedule

  /** The delay before jitter: the backoff doubled for each earlier attempt, capped. */
  function Scheduled(backoff: nat, ceiling: nat, attempts: nat): nat {
    if backoff * Pow2(attempts) > ceiling then ceiling else backoff * Pow2(attempts)
  }

  /** A delay moved by a fraction of itself. */
  function Moved(delay: real, fraction: real): real {
    delay * (1.0 + fraction)
  }

  /** `nextAttemptAt`, with `random` in [0, 1) and whole microseconds. */
  function NextAttemptAt(now: Time, backoff: nat, ceiling: nat, jitter: real, random: real, attempts: nat): Time {
    var delay := Scheduled(backoff, ceiling, attempts) as real;
    var moved := if jitter > 0.0 then Moved(delay, Share(jitter, 2.0 * random - 1.0)) else delay;
    now + (if moved > 0.0 then moved else 0.0).Floor
  }

  function Share(jitter: real, factor: real): real {
    jitter * factor
  }

  /** A retry is never earlier than now and stays within the jitter fraction of its scheduled delay. */
  lemma RetryBounds(now: Time, backoff: nat, ceiling: nat, jitter: real, random: real, attempts: nat)
    requires 0.0 <= jitter <= 1.0 && 0.0 <= random < 1.0
    ensures var wait, delay := NextAttemptAt(now, backoff, ceiling, jitter, random, attempts) - now, Scheduled(backoff, ceiling, attempts) as real;
            0 <= wait && Moved(delay, -jitter) - 1.0 < wait as real <= Moved(delay, jitter)
  {
    var delay := Scheduled(backoff, ceiling, attempts) as real;
    ShareBounds(jitter, 2.0 * random - 1.0);
    MovedGrows(delay, -1.0, -jitter);
    MovedGrows(delay, -jitter, Share(jitter, 2.0 * random - 1.0));
    MovedGrows(delay, Share(jitter, 2.0 * random - 1.0), jitter);
    MovedGrows(delay, -jitter, 0.0);
    MovedGrows(delay, 0.0, jitter);
  }

  lemma NotNegative(k: real, x: real)
    requires 0.0 <= k && 0.0 <= x
    ensures 0.0 <= k * x
  {
  }

  lemma ShareBounds(jitter: real, factor: real)
    requires 0.0 <= jitter && -1.0 <= factor <= 1.0
    ensures -jitter <= Share(jitter, factor) <= jitter
  {
    NotNegative(jitter, factor + 1.0);
    NotNegative(jitter, 1.0 - factor);
    assert jitter * (factor + 1.0) == Share(jitter, factor) + jitter;
    assert jitter * (1.0 - factor) == jitter - Share(jitter, factor);
  }

  lemma MovedGrows(delay: real, a: real, b: real)
    requires 0.0 <= delay && a <= b
    ensures Moved(delay, a) <= Moved(delay, b) && Moved(delay, -1.0) == 0.0 && Moved(delay, 0.0) == delay
  {
    NotNegative(delay, b - a);
    assert delay * (b - a) == Moved(delay, b) - Moved(delay, a);
  }

  /** Without jitter the first retry waits the backoff, each later one twice as long up to the ceiling. */
  lemma RetryDoubles(backoff: nat, ceiling: nat, attempts: nat)
    requires 0 < backoff <= ceiling
    ensures Scheduled(backoff, ceiling, 0) == backoff
    ensures Scheduled(backoff, ceiling, attempts + 1) ==
            if 2 * Scheduled(backoff, ceiling, attempts) < ceiling then 2 * Scheduled(backoff, ceiling, attempts) else ceiling
    ensures Scheduled(backoff, ceiling, attempts) <= Scheduled(backoff, ceiling, attempts + 1) <= ceiling
  {
    assert backoff * Pow2(attempts + 1) == 2 * (backoff * Pow2(attempts));
  }
}
