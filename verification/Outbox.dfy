/** Outbox rows and what the relay does to them, as values (memstore/outbox.go, outbox.go). */
module Outbox {
  import opened Basics
  import L = Lifecycle

  type EventId = string

  datatype OutboxRow = OutboxRow(
    event: L.Event,
    attempts: nat,
    nextAttemptAt: Option<Time>,
    lastError: string,
    accepted: seq<string>,
    publishedAt: Option<Time>,
    lockedBy: string,
    lockedUntil: Option<Time>)

  predicate Delivered(r: OutboxRow) {
    r.publishedAt.Some?
  }

  predicate DeadLettered(r: OutboxRow) {
    r.nextAttemptAt.None? && r.publishedAt.None?
  }

  predicate Terminal(r: OutboxRow) {
    Delivered(r) || DeadLettered(r)
  }

  /** A row as the transaction that made its event appends it. */
  function Appended(e: L.Event): OutboxRow {
    OutboxRow(e, 0, Some(e.occurredAt), "", [], None, "", None)
  }

  datatype OutboxClaim = OutboxClaim(now: Time, owner: string, duration: Time, limit: int)

  /** Pending, past its next-attempt time, and not held by a live lease. */
  predicate Due(r: OutboxRow, now: Time) {
    && r.publishedAt.None?
    && r.nextAttemptAt.Some?
    && (r.lockedUntil.Some? ==> r.lockedUntil.value <= now)
    && r.nextAttemptAt.value <= now
  }

  /** An event is due exactly when it is neither delivered nor dead, its instant has come, and no relay holds it. */
  lemma DueExactly(r: OutboxRow, now: Time)
    ensures Due(r, now) <==>
            !Terminal(r) && r.nextAttemptAt.Some? && r.nextAttemptAt.value <= now && !(r.lockedUntil.Some? && now < r.lockedUntil.value)
  {
  }

  function Leased(r: OutboxRow, claim: OutboxClaim): OutboxRow {
    r.(lockedBy := claim.owner, lockedUntil := Some(claim.now + claim.duration))
  }

  function Unlocked(r: OutboxRow): OutboxRow {
    r.(lockedBy := "", lockedUntil := None)
  }

  /** What a relay writes about one attempt. */
  datatype Settlement =
    | Reschedule(attempts: nat, next: Time, error: string)
    | Accept(accepted: seq<string>, publishedAt: Option<Time>, nextAt: Option<Time>, attempts: nat, error: string)
    | DeadLetter(accepted: seq<string>, attempts: nat, error: string)

  /** `RecordAttempt`, `MarkAccepted` and `MarkDeadLettered`: none of them asks who holds the lease. */
  function Settle(r: OutboxRow, s: Settlement): OutboxRow {
    match s
    case Reschedule(attempts, next, error) =>
      Unlocked(r.(attempts := attempts, nextAttemptAt := Some(next), lastError := error))
    case Accept(accepted, publishedAt, nextAt, attempts, error) =>
      var r1 := r.(accepted := accepted, attempts := attempts, lastError := error);
      if publishedAt.Some? then Unlocked(r1.(publishedAt := publishedAt, lastError := ""))
      else Unlocked(r1.(nextAttemptAt := if nextAt.Some? then nextAt else r.nextAttemptAt))
    case DeadLetter(accepted, attempts, error) =>
      Unlocked(r.(attempts := attempts, lastError := error, nextAttemptAt := None, accepted := accepted))
  }

  // ---------------------------------------------------------------- one attempt

  datatype Outcome = Taken | Retryable(reason: string) | Permanent(reason: string) | Unclassified

  /** What an event's fan-out has come to so far. */
  datatype Fan = Fan(accepted: seq<string>, failures: seq<string>, permanent: bool)

  const UNCLASSIFIED := "unclassified"

  predicate Skips(entry: OutboxRow, sink: string) {
    sink in entry.accepted
  }

  /** One sink's turn: skipped when it has taken the event before, offered it otherwise. */
  function FanStep(entry: OutboxRow, fan: Fan, sink: string, outcome: Outcome): Fan {
    if Skips(entry, sink) then fan
    else match outcome
      case Taken => fan.(accepted := fan.accepted + [sink])
      case Retryable(reason) => fan.(failures := fan.failures + [sink + ": " + reason])
      case Permanent(reason) => fan.(failures := fan.failures + [sink + ": " + reason], permanent := true)
      case Unclassified => fan.(failures := fan.failures + [sink + ": " + UNCLASSIFIED], permanent := true)
  }

  function Join(parts: seq<string>): string {
    if parts == [] then "" else if |parts| == 1 then parts[0] else Join(parts[..|parts| - 1]) + "; " + parts[|parts| - 1]
  }

  /** The settlement of an attempt, with `next` the retry's instant. */
  function Decide(entry: OutboxRow, fan: Fan, maxAttempts: nat, now: Time, next: Time): Settlement {
    var attempts := entry.attempts + 1;
    if fan.failures == [] then Accept(fan.accepted, Some(now), None, attempts, "")
    else if fan.permanent || attempts >= maxAttempts then DeadLetter(fan.accepted, attempts, Join(fan.failures))
    else if |fan.accepted| > |entry.accepted| then Accept(fan.accepted, None, Some(next), attempts, Join(fan.failures))
    else Reschedule(attempts, next, Join(fan.failures))
  }

  /** Acceptances are only ever added. */
  predicate Extends(base: seq<string>, more: seq<string>) {
    |base| <= |more| && more[..|base|] == base
  }

  lemma FanStepExtends(entry: OutboxRow, fan: Fan, sink: string, outcome: Outcome)
    requires Extends(entry.accepted, fan.accepted)
    ensures Extends(entry.accepted, FanStep(entry, fan, sink, outcome).accepted)
  {
  }

  /**
   * What every settlement of an attempt leaves on a row that still says what the relay was given: all the
   * acceptances so far, one more attempt, no lease, and the end or the next instant the attempt came to.
   */
  lemma SettledExactly(row: OutboxRow, entry: OutboxRow, fan: Fan, maxAttempts: nat, now: Time, next: Time)
    requires Extends(entry.accepted, fan.accepted) && row.accepted == entry.accepted
    ensures var settled := Settle(row, Decide(entry, fan, maxAttempts, now, next));
            && settled.event == row.event && settled.accepted == fan.accepted && settled.attempts == entry.attempts + 1
            && settled.lockedBy == "" && settled.lockedUntil.None?
            && settled.publishedAt == (if fan.failures == [] then Some(now) else row.publishedAt)
            && settled.lastError == (if fan.failures == [] then "" else Join(fan.failures))
            && settled.nextAttemptAt == (if fan.failures == [] then row.nextAttemptAt
                                         else if fan.permanent || entry.attempts + 1 >= maxAttempts then None
                                         else Some(next))
  {
    assert |fan.accepted| == |entry.accepted| ==> fan.accepted == entry.accepted;
  }
}
