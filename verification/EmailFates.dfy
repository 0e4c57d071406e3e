/**
 * What becomes of each notification an email pass has claimed (notify/email_dispatcher.go): read off the
 * pass's own writes, and, independently of them, told from what the host's ports answer about it.
 */
module EmailFates {
  import opened Basics
  import opened Notifications
  import opened EmailRecords
  import opened EmailAutomaton
  import opened EmailGroups

  datatype Verdict = Yes | No | Fault
  datatype Address = Address(to: string) | NoAddress | LookupFault
  datatype Reading = Found(state: State) | Gone | ReadFault

  /** What the store and the host's ports answer during one pass. */
  datatype Host = Host(
    shouldEmail: Id -> Verdict,
    addressOf: string -> Address,
    get: Id -> Reading,
    render: string -> bool,
    newId: string -> Option<string>,
    send: string -> Outcome,
    /** How many rows the n-th `RecordEmails` call changed, or nothing when it failed. */
    record: nat -> Option<nat>)

  datatype Config = Config(owner: string, batch: nat, attempts: nat, delay: nat -> Time)

  datatype DispatchResult = DispatchResult(
    claimed: nat,
    sent: nat,
    messages: nat,
    skippedNoAddress: nat,
    skippedFiltered: nat,
    skippedInactive: nat,
    retried: nat,
    failed: nat,
    abandoned: nat,
    unrecorded: nat)

  /** The notifications a result accounts for by name. */
  function Counted(r: DispatchResult): nat {
    r.sent + r.skippedNoAddress + r.skippedFiltered + r.skippedInactive + r.retried + r.failed + r.abandoned
  }

  // ---------------------------------------------------------------- fates read off the writes

  /** What a write says has become of a notification. */
  datatype Fate = Mailed | Unaddressed | Filtered | Inactive | Rescheduled | GivenUp | Doubted | HandedBack | Started

  type Fates = map<Id, Fate>

  function FateOf(r: Record): Fate {
    match r.status
    case Sent => Mailed
    case Skipped => if r.reason == "no_address" then Unaddressed else if r.reason == "filtered" then Filtered else Inactive
    case Retry => Rescheduled
    case Failed => GivenUp
    case Abandoned => Doubted
    case Claimed => HandedBack
    case Sending => Started
  }

  function Put(m: Fates, ids: set<Id>, f: Fate): Fates {
    m + map id | id in ids :: f
  }

  function FatesAfter(m: Fates, a: Action): Fates {
    if a.Write? then Put(m, a.record.ids, FateOf(a.record)) else m
  }

  /** What the last write about each notification says. */
  function FatesOf(trace: seq<Action>): Fates {
    if trace == [] then map[] else FatesAfter(FatesOf(trace[..|trace| - 1]), trace[|trace| - 1])
  }

  lemma {:induction false} FatesNext(trace: seq<Action>, a: Action)
    ensures FatesOf(trace + [a]) == FatesAfter(FatesOf(trace), a)
  {
    assert (trace + [a])[..|trace|] == trace;
  }

  ghost function With(m: Fates, f: Fate): set<Id> {
    set id | id in m && m[id] == f
  }

  /** The result's counters say how many met each fate. */
  ghost predicate Tallies(r: DispatchResult, m: Fates) {
    && r.sent == |With(m, Mailed)|
    && r.skippedNoAddress == |With(m, Unaddressed)|
    && r.skippedFiltered == |With(m, Filtered)|
    && r.skippedInactive == |With(m, Inactive)|
    && r.retried == |With(m, Rescheduled)|
    && r.failed == |With(m, GivenUp)|
    && r.abandoned == |With(m, Doubted)|
  }

  /** Writing about notifications that had no fate but a start moves just one counter. */
  lemma PutCounts(m: Fates, ids: set<Id>, f: Fate, g: Fate)
    requires g != Started && forall id :: id in ids && id in m ==> m[id] == Started
    ensures |With(Put(m, ids, f), g)| == |With(m, g)| + if g == f then |ids| else 0
  {
    if g == f {
      assert With(Put(m, ids, f), g) == With(m, g) + ids;
      assert With(m, g) !! ids;
    } else {
      assert With(Put(m, ids, f), g) == With(m, g);
    }
  }

  /** One counter moved on. */
  function Bumped(r: DispatchResult, f: Fate, n: nat): DispatchResult {
    match f
    case Mailed => r.(sent := r.sent + n)
    case Unaddressed => r.(skippedNoAddress := r.skippedNoAddress + n)
    case Filtered => r.(skippedFiltered := r.skippedFiltered + n)
    case Inactive => r.(skippedInactive := r.skippedInactive + n)
    case Rescheduled => r.(retried := r.retried + n)
    case GivenUp => r.(failed := r.failed + n)
    case Doubted => r.(abandoned := r.abandoned + n)
    case _ => r
  }

  lemma {:induction false} PutTallies(r: DispatchResult, now: DispatchResult, m: Fates, ids: set<Id>, f: Fate)
    requires Tallies(r, m) && forall id :: id in ids && id in m ==> m[id] == Started
    requires now == Bumped(r, f, |ids|).(unrecorded := now.unrecorded, messages := now.messages)
    ensures Tallies(now, Put(m, ids, f))
  {
    PutCounts(m, ids, f, Mailed);
    PutCounts(m, ids, f, Unaddressed);
    PutCounts(m, ids, f, Filtered);
    PutCounts(m, ids, f, Inactive);
    PutCounts(m, ids, f, Rescheduled);
    PutCounts(m, ids, f, GivenUp);
    PutCounts(m, ids, f, Doubted);
  }

  function Index(f: Fate): nat {
    match f
    case Mailed => 0
    case Unaddressed => 1
    case Filtered => 2
    case Inactive => 3
    case Rescheduled => 4
    case GivenUp => 5
    case Doubted => 6
    case HandedBack => 7
    case Started => 8
  }

  /** Those who met one of the first `n` fates. */
  ghost function Among(m: Fates, n: nat): set<Id> {
    set id | id in m && Index(m[id]) < n
  }

  lemma SameIndex(f: Fate, g: Fate)
    ensures Index(f) == Index(g) <==> f == g
  {
  }

  lemma AmongNext(m: Fates, f: Fate)
    ensures |Among(m, Index(f) + 1)| == |Among(m, Index(f))| + |With(m, f)|
  {
    var some, more := Among(m, Index(f)), Among(m, Index(f) + 1);
    forall id ensures id in more <==> id in some || id in With(m, f) {
      if id in m { SameIndex(m[id], f); }
    }
    assert more == some + With(m, f);
    assert some !! With(m, f);
  }

  /** Every fate is counted, handed back to the next pass, or a start that could not be recorded. */
  lemma {:induction false} TalliesSum(r: DispatchResult, m: Fates)
    requires Tallies(r, m)
    ensures |m.Keys| == Counted(r) + |With(m, HandedBack)| + |With(m, Started)|
  {
    assert Among(m, 0) == {} && Among(m, 9) == m.Keys;
    AmongNext(m, Mailed);
    AmongNext(m, Unaddressed);
    AmongNext(m, Filtered);
    AmongNext(m, Inactive);
    AmongNext(m, Rescheduled);
    AmongNext(m, GivenUp);
    AmongNext(m, Doubted);
    AmongNext(m, HandedBack);
    AmongNext(m, Started);
  }

  /** Exactly these notifications' fates were written. */
  ghost predicate Ruled(m: Fates, n: Fates, ids: set<Id>) {
    n.Keys == m.Keys + ids && forall id :: id in m && id !in ids ==> n[id] == m[id]
  }

  /** Exactly these notifications met this fate. */
  ghost predicate Marked(m: Fates, n: Fates, ids: set<Id>, f: Fate) {
    Ruled(m, n, ids) && forall id :: id in ids ==> n[id] == f
  }

  lemma RuledTwice(m: Fates, n: Fates, o: Fates, a: set<Id>, b: set<Id>)
    requires Ruled(m, n, a) && Ruled(n, o, b)
    ensures Ruled(m, o, a + b) && forall id :: id in a && id !in b ==> id in n && o[id] == n[id]
  {
  }

  // ---------------------------------------------------------------- fates told from the host's answers

  /** An attempt that failed before anything could be sent, or was refused. */
  function Attempted(made: nat, limit: nat): Fate {
    if made >= limit then GivenUp else Rescheduled
  }

  /** What a message's end makes of a notification in it; rows were lost if its start could not be recorded. */
  predicate Ended(host: Host, d: Config, c: Candidate, f: Fate, lost: bool) {
    (lost && f == Started) || f == EndFate(host.send(c.notification.recipient), d, c)
  }

  function EndFate(outcome: Outcome, d: Config, c: Candidate): Fate {
    match outcome
    case Accepted => Mailed
    case Rejected => GivenUp
    case InDoubt => Doubted
    case NotSent => Attempted(c.attempts + 1, d.attempts)
  }

  /** From the last read before sending on. */
  predicate Checked(host: Host, d: Config, c: Candidate, f: Fate, lost: bool) {
    match host.get(c.notification.id)
    case ReadFault => f == Attempted(c.attempts + 1, d.attempts)
    case Gone => f == Inactive
    case Found(state) =>
      if state != Active then f == Inactive
      else if !host.render(c.notification.recipient) then f == GivenUp
      else if host.newId(c.notification.recipient).None? then f == Attempted(c.attempts + 1, d.attempts)
      else Ended(host, d, c, f, lost)
  }

  /** From the lookup of the address on; `within` says whether the message has room for it. */
  predicate Addressed(host: Host, d: Config, c: Candidate, within: bool, f: Fate, lost: bool) {
    match host.addressOf(c.notification.recipient)
    case LookupFault => f == Attempted(c.attempts + 1, d.attempts)
    case NoAddress => f == Unaddressed
    case Address(_) => if within then Checked(host, d, c, f, lost) else f == HandedBack
  }

  /** What must become of a claimed notification. */
  predicate Expected(host: Host, d: Config, c: Candidate, within: bool, f: Fate, lost: bool) {
    if Doubtful(c) then f == Doubted
    else match host.shouldEmail(c.notification.id)
      case No => f == Filtered
      case Fault => f == Attempted(c.attempts + 1, d.attempts)
      case Yes => Addressed(host, d, c, within, f, lost)
  }

  /** A recipient's notifications that are to be mailed, in the order they were claimed. */
  function Queue(host: Host, cs: seq<Candidate>, recipient: string): seq<Candidate> {
    Sieve(cs, (c: Candidate) => !Doubtful(c) && c.notification.recipient == recipient && host.shouldEmail(c.notification.id) == Yes)
  }

  function FirstOf<T>(xs: seq<T>, n: nat): seq<T> {
    if |xs| > n then xs[..n] else xs
  }

  /** The notification is among those its recipient's message has room for. */
  predicate Within(host: Host, d: Config, cs: seq<Candidate>, c: Candidate) {
    c in FirstOf(Queue(host, cs, c.notification.recipient), d.batch)
  }

  /** The candidates found ACTIVE on the last read. */
  function Live(host: Host, cs: seq<Candidate>): seq<Candidate> {
    Sieve(cs, (c: Candidate) => host.get(c.notification.id) == Found(Active))
  }

  /** What a recipient's message holds: what they are to get, as far as there is room, and have not seen. */
  function Contents(host: Host, d: Config, cs: seq<Candidate>, recipient: string): set<Id> {
    Ids(Live(host, FirstOf(Queue(host, cs, recipient), d.batch)))
  }

  /** The recipient is to be sent a message. */
  predicate Mails(host: Host, d: Config, cs: seq<Candidate>, recipient: string) {
    && host.addressOf(recipient).Address? && Contents(host, d, cs, recipient) != {}
    && host.render(recipient) && host.newId(recipient).Some?
  }

  // ---------------------------------------------------------------- messages read off the actions

  /** A message recorded as starting, under its key, and how the mailer answered if it was called. */
  datatype Message = Message(ids: set<Id>, key: string, answer: Option<Outcome>)

  /** A write that starts a message. */
  predicate Starting(a: Action) {
    a.Write? && a.record.status == Sending
  }

  function MessagesAfter(ms: seq<Message>, a: Action): seq<Message> {
    if Starting(a) then ms + [Message(a.record.ids, a.record.batchId, None)]
    else if a.End? && ms != [] then ms[..|ms| - 1] + [ms[|ms| - 1].(answer := Some(a.outcome))]
    else ms
  }

  function MessagesOf(trace: seq<Action>): seq<Message> {
    if trace == [] then [] else MessagesAfter(MessagesOf(trace[..|trace| - 1]), trace[|trace| - 1])
  }

  lemma {:induction false} MessagesNext(trace: seq<Action>, a: Action)
    ensures MessagesOf(trace + [a]) == MessagesAfter(MessagesOf(trace), a)
  {
    assert (trace + [a])[..|trace|] == trace;
  }

  /** The message is the recipient's, and went to the mailer unless its start could not be recorded. */
  predicate MessageFor(host: Host, d: Config, cs: seq<Candidate>, recipient: string, msg: Message, lost: bool) {
    && Mails(host, d, cs, recipient)
    && msg.ids == Contents(host, d, cs, recipient) && msg.key == host.newId(recipient).value
    && (msg.answer == Some(host.send(recipient)) || (lost && msg.answer == None))
  }

  /** A message was started, or none when nothing was there to send or it could not be made. */
  ghost predicate Mailing(
      before: seq<Message>, after: seq<Message>, host: Host, recipient: string, ids: set<Id>, lost: bool)
  {
    if ids == {} || !host.render(recipient) || host.newId(recipient).None? then after == before
    else
      && |after| == |before| + 1 && after[..|before|] == before
      && after[|before|].ids == ids && after[|before|].key == host.newId(recipient).value
      && (after[|before|].answer == Some(host.send(recipient)) || (lost && after[|before|].answer == None))
  }

  /** One message for each of these recipients, in order. */
  ghost predicate Posted(host: Host, d: Config, cs: seq<Candidate>, recipients: seq<string>, ms: seq<Message>, lost: bool) {
    |ms| == |recipients| && forall k :: 0 <= k < |ms| ==> MessageFor(host, d, cs, recipients[k], ms[k], lost)
  }

  /** Every message is due to one recipient, and every recipient due one got one. */
  ghost predicate PostedExactly(host: Host, d: Config, cs: seq<Candidate>, ms: seq<Message>, lost: bool) {
    exists recipients: seq<string> ::
      && NoRepeats(recipients) && (forall r :: r in recipients <==> Mails(host, d, cs, r))
      && Posted(host, d, cs, recipients, ms, lost)
  }

  // ---------------------------------------------------------------- rightness

  /** The candidate met the fate it had to. */
  ghost predicate Right(m: Fates, host: Host, d: Config, all: seq<Candidate>, c: Candidate, lost: bool) {
    c.notification.id in m && Expected(host, d, c, Within(host, d, all, c), m[c.notification.id], lost)
  }

  // ---------------------------------------------------------------- queues

  lemma {:induction false} SieveAgrees(cs: seq<Candidate>, p: Candidate -> bool, q: Candidate -> bool)
    requires forall c :: c in cs ==> p(c) == q(c)
    ensures Sieve(cs, p) == Sieve(cs, q)
  {
    if cs != [] {
      SieveAgrees(cs[..|cs| - 1], p, q);
    }
  }

  /** Sifting a group is sifting the whole for both. */
  lemma {:induction false} SieveGroup<K(!new)>(cs: seq<Candidate>, key: Candidate -> K, k: K, p: Candidate -> bool, q: Candidate -> bool)
    requires forall c :: q(c) <==> key(c) == k && p(c)
    ensures Sieve(Group(cs, key, k), p) == Sieve(cs, q)
  {
    if cs != [] {
      var init, last := cs[..|cs| - 1], cs[|cs| - 1];
      SieveGroup(init, key, k, p, q);
      var group := Group(init, key, k);
      if key(last) == k {
        assert (group + [last])[..|group|] == group;
      } else {
        assert group + [] == group;
      }
    }
  }

  lemma {:induction false} GroupSieve<K(!new)>(cs: seq<Candidate>, key: Candidate -> K, k: K, p: Candidate -> bool)
    requires forall c :: c in cs ==> (p(c) <==> key(c) == k)
    ensures Group(cs, key, k) == Sieve(cs, p)
  {
    if cs != [] {
      GroupSieve(cs[..|cs| - 1], key, k, p);
    }
  }

  /** A recipient's queue among a group that holds all of theirs is their queue. */
  lemma {:induction false} QueueOfGroup<K(!new)>(host: Host, cs: seq<Candidate>, key: Candidate -> K, k: K, recipient: string)
    requires forall c :: !Doubtful(c) && c.notification.recipient == recipient ==> key(c) == k
    ensures Queue(host, Group(cs, key, k), recipient) == Queue(host, cs, recipient)
  {
    var p := (c: Candidate) => !Doubtful(c) && c.notification.recipient == recipient && host.shouldEmail(c.notification.id) == Yes;
    SieveGroup(cs, key, k, p, p);
  }
}
