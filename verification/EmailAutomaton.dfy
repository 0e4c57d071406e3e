/**
 * What one AtMostOnce dispatcher may do during a pass, as an automaton over its store writes
 * and mailer calls (notify/email_dispatcher.go). `EmailPass` proves that the dispatcher's code
 * never leaves it; `EmailProtocol` proves what any number of such dispatchers achieve together.
 */
module EmailAutomaton {
  import opened Basics
  import opened Notifications
  import opened EmailRecords

  /** How a `Mailer.Send` call ends. */
  datatype Outcome = Accepted | Rejected | InDoubt | NotSent

  /** The message a pass is handing over; each notification carries its attempts at the claim. */
  datatype Flight =
    | Grounded
    | Armed(msg: map<Id, nat>)
    | Calling(msg: map<Id, nat>)
    | Returned(msg: map<Id, nat>, outcome: Outcome)

  /** Between passes, or in one with fresh candidates, sends in doubt and a message. */
  datatype Local =
    | Idle
    | Pass(open: map<Id, nat>, doubt: set<Id>, flight: Flight)

  /** `whole` is what `emailPass.record` reports: every row named was written. */
  datatype Action =
    | Write(record: Record, whole: bool)
    | Begin
    | End(outcome: Outcome)

  predicate Busy(f: Flight) {
    f.Armed? || f.Calling?
  }

  predicate FreshWrite(l: Local, ids: set<Id>)
    requires l.Pass?
  {
    !Busy(l.flight) && ids <= l.open.Keys
  }

  predicate SettlingWrite(l: Local, ids: set<Id>, outcome: Outcome)
    requires l.Pass?
  {
    l.flight.Returned? && l.flight.outcome == outcome && ids <= l.flight.msg.Keys
  }

  predicate Permitted(maxAttempts: nat, l: Local, a: Action) {
    l.Pass? &&
    match a
    case Begin => l.flight.Armed?
    case End(_) => l.flight.Calling?
    case Write(r, _) =>
      match r.status
      case Sending => FreshWrite(l, r.ids) && r.attempt
      case Claimed | Skipped => FreshWrite(l, r.ids) && !r.attempt
      case Retry =>
        if r.attempt then FreshWrite(l, r.ids) && forall id <- r.ids :: l.open[id] + 1 < maxAttempts
        else SettlingWrite(l, r.ids, NotSent) && forall id <- r.ids :: l.flight.msg[id] + 1 < maxAttempts
      case Failed =>
        if r.attempt then FreshWrite(l, r.ids)
        else FreshWrite(l, r.ids) || SettlingWrite(l, r.ids, Rejected) || SettlingWrite(l, r.ids, NotSent)
      case Abandoned =>
        !r.attempt && ((!Busy(l.flight) && r.ids <= l.doubt) || SettlingWrite(l, r.ids, InDoubt))
      case Sent => !r.attempt && SettlingWrite(l, r.ids, Accepted)
  }

  function Restrict(m: map<Id, nat>, ids: set<Id>): map<Id, nat> {
    map id | id in m && id in ids :: m[id]
  }

  function Advance(l: Local, a: Action): Local
    requires l.Pass?
  {
    match a
    case Begin => if l.flight.Armed? then l.(flight := Calling(l.flight.msg)) else l
    case End(o) => if l.flight.Calling? then l.(flight := Returned(l.flight.msg, o)) else l
    case Write(r, whole) =>
      if r.status == Sending then
        Pass(l.open - r.ids, l.doubt, if whole then Armed(Restrict(l.open, r.ids)) else Grounded)
      else
        Pass(l.open - r.ids, l.doubt - r.ids,
             if l.flight.Returned? then Returned(l.flight.msg - r.ids, l.flight.outcome) else l.flight)
  }

  /** The automaton accepts a trace of actions from `l`. */
  predicate Accepts(maxAttempts: nat, l: Local, trace: seq<Action>)
    decreases |trace|
  {
    trace == [] ||
    (Permitted(maxAttempts, l, trace[0]) && Accepts(maxAttempts, Advance(l, trace[0]), trace[1..]))
  }

  /** Where an accepted trace ends. */
  function After(l: Local, trace: seq<Action>): Local
    decreases |trace|
  {
    if trace == [] || !l.Pass? then l else After(Advance(l, trace[0]), trace[1..])
  }

  lemma AcceptsAppend(maxAttempts: nat, l: Local, trace: seq<Action>, a: Action)
    requires l.Pass? && Accepts(maxAttempts, l, trace)
    requires Permitted(maxAttempts, After(l, trace), a)
    ensures Accepts(maxAttempts, l, trace + [a])
    ensures After(l, trace + [a]) == Advance(After(l, trace), a)
    decreases |trace|
  {
    if trace == [] {
      assert trace + [a] == [a];
    } else {
      assert (trace + [a])[1..] == trace[1..] + [a];
      AcceptsAppend(maxAttempts, Advance(l, trace[0]), trace[1..], a);
    }
  }
}
