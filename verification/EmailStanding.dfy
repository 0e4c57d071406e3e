/**
 * Where an email pass stands between two writes (notify/email_dispatcher.go): what the automaton still
 * holds, what the writes so far say, and how taking candidates in turn moves both on.
 */
module EmailStanding {
  import opened Basics
  import opened Notifications
  import opened EmailRecords
  import opened EmailAutomaton
  import opened EmailGroups
  import opened EmailFates

  // ---------------------------------------------------------------- where a pass stands

  /** Where a write other than SENDING leaves the automaton, whether or not it was whole. */
  function Dropped(l: Local, ids: set<Id>): Local
    requires l.Pass?
  {
    Pass(l.open - ids, l.doubt - ids,
         if l.flight.Returned? then Returned(l.flight.msg - ids, l.flight.outcome) else l.flight)
  }

  /** Where a pass over these candidates starts. */
  ghost predicate Starts(l: Local, cs: seq<Candidate>) {
    && l.Pass? && l.flight == Grounded
    && l.doubt == Ids(Group(cs, Doubtful, true))
    && l.open.Keys == Ids(Group(cs, Doubtful, false))
    && forall c <- cs :: !Doubtful(c) ==> c.notification.id in l.open && l.open[c.notification.id] == c.attempts
  }

  lemma DroppedTwice(l: Local, a: set<Id>, b: set<Id>)
    requires l.Pass?
    ensures Dropped(Dropped(l, a), b) == Dropped(l, a + b)
  {
    assert (l.open - a) - b == l.open - (a + b);
    assert (l.doubt - a) - b == l.doubt - (a + b);
    if l.flight.Returned? {
      assert (l.flight.msg - a) - b == l.flight.msg - (a + b);
    }
  }

  lemma DroppedNothing(l: Local)
    requires l.Pass?
    ensures Dropped(l, {}) == l
  {
    assert l.open - {} == l.open && l.doubt - {} == l.doubt;
    if l.flight.Returned? {
      assert l.flight.msg - {} == l.flight.msg;
    }
  }

  function Msg(f: Flight): map<Id, nat> {
    if f.Grounded? then map[] else f.msg
  }

  /** No message is under way or unsettled. */
  predicate Landed(l: Local) {
    l.Pass? && !Busy(l.flight) && Msg(l.flight) == map[]
  }

  /** A notification is in at most one of a pass's three places. */
  ghost predicate Apart(l: Local) {
    l.Pass? && l.open.Keys !! l.doubt && Msg(l.flight).Keys !! l.open.Keys && Msg(l.flight).Keys !! l.doubt
  }

  /** Candidates the pass has not dealt with yet. */
  ghost predicate Fresh(l: Local, cs: seq<Candidate>) {
    Landed(l) && forall c :: c in cs ==> c.notification.id in l.open && l.open[c.notification.id] == c.attempts
  }

  /** Candidates of the message just refused, each with the attempt it cost counted. */
  ghost predicate Refused(l: Local, cs: seq<Candidate>) {
    && l.Pass? && l.flight.Returned? && l.flight.outcome == NotSent
    && forall c :: c in cs ==>
         c.notification.id in l.flight.msg && l.flight.msg[c.notification.id] + 1 == c.attempts
  }

  lemma StillHeld(l: Local, cs: seq<Candidate>, done: set<Id>, part: seq<Candidate>)
    requires l.Pass? && Ids(part) !! done && forall c :: c in part ==> c in cs
    ensures Fresh(l, cs) ==> Fresh(Dropped(l, done), part)
    ensures Refused(l, cs) ==> Refused(Dropped(l, done), part)
  {
    assert forall c :: c in part ==> c.notification.id in Ids(part);
    assert Landed(l) && l.flight.Returned? ==> l.flight.msg - done == map[];
  }

  /** The pass has dealt with `ids`, all of them pending, and holds no message. */
  ghost predicate Cleared(l: Local, l0: Local, ids: set<Id>) {
    Landed(l) && l0.Pass? && l.open == l0.open - ids && l.doubt == l0.doubt
  }

  lemma DroppedClears(l: Local, ids: set<Id>)
    requires Apart(l) && Landed(l) && ids <= l.open.Keys
    ensures Cleared(Dropped(l, ids), l, ids)
  {
    assert l.doubt - ids == l.doubt;
    assert l.flight.Returned? ==> l.flight.msg - ids == map[];
  }

  lemma ClearedTwice(l2: Local, l1: Local, l0: Local, a: set<Id>, b: set<Id>)
    requires Cleared(l1, l0, a) && Cleared(l2, l1, b)
    ensures Cleared(l2, l0, a + b)
  {
    assert (l0.open - a) - b == l0.open - (a + b);
  }

  lemma ClearedNothing(l: Local)
    requires Landed(l)
    ensures Cleared(l, l, {})
  {
    assert l.open - {} == l.open;
  }

  lemma StillFresh(l: Local, l0: Local, cs: seq<Candidate>, done: set<Id>, part: seq<Candidate>)
    requires Fresh(l0, cs) && Cleared(l, l0, done) && Ids(part) !! done && forall c :: c in part ==> c in cs
    ensures Fresh(l, part) && Ids(part) <= l.open.Keys
  {
    assert forall c :: c in part ==> c.notification.id in Ids(part);
  }

  // ---------------------------------------------------------------- where its writes stand

  /** No write has been made about anything pending or in doubt, and what a message holds has been started. */
  ghost predicate Apt(l: Local, m: Fates) {
    && Apart(l)
    && (forall id :: id in m ==> id !in l.open && id !in l.doubt)
    && (forall id :: id in Msg(l.flight) ==> id in m && m[id] == Started)
  }

  lemma AptNext(limit: nat, l: Local, m: Fates, a: Action)
    requires Apt(l, m) && Permitted(limit, l, a)
    ensures Apt(Advance(l, a), FatesAfter(m, a))
  {
  }

  lemma ApartNext(limit: nat, l: Local, a: Action)
    requires Apart(l) && Permitted(limit, l, a)
    ensures Apart(Advance(l, a))
  {
  }

  /** Whatever the automaton accepts leaves a pass so. */
  lemma {:induction false} AcceptedApt(limit: nat, start: Local, m: Fates, trace: seq<Action>)
    requires Apt(start, m) && Accepts(limit, start, trace)
    ensures Apt(After(start, trace), FatesOver(m, trace))
    decreases |trace|
  {
    if trace != [] {
      AptNext(limit, start, m, trace[0]);
      AcceptedApt(limit, Advance(start, trace[0]), FatesAfter(m, trace[0]), trace[1..]);
    }
  }

  /** The same fates, action by action from the front. */
  function FatesOver(m: Fates, trace: seq<Action>): Fates
    decreases |trace|
  {
    if trace == [] then m else FatesOver(FatesAfter(m, trace[0]), trace[1..])
  }

  lemma {:induction false} OverIsOf(m: Fates, trace: seq<Action>, a: Action)
    ensures FatesOver(m, trace + [a]) == FatesAfter(FatesOver(m, trace), a)
    decreases |trace|
  {
    if trace == [] {
      assert trace + [a] == [a] && [a][1..] == [];
    } else {
      assert (trace + [a])[1..] == trace[1..] + [a];
      OverIsOf(FatesAfter(m, trace[0]), trace[1..], a);
    }
  }

  lemma {:induction false} FatesFromFront(trace: seq<Action>)
    ensures FatesOver(map[], trace) == FatesOf(trace)
    decreases |trace|
  {
    if trace != [] {
      var init, last := trace[..|trace| - 1], trace[|trace| - 1];
      FatesFromFront(init);
      OverIsOf(map[], init, last);
      assert init + [last] == trace;
    }
  }

  /** An outcome is written about nothing that has one. */
  lemma {:induction false} Untold(limit: nat, start: Local, trace: seq<Action>, r: EmailRecords.Record)
    requires Apart(start) && Msg(start.flight) == map[] && Accepts(limit, start, trace)
    requires Permitted(limit, After(start, trace), Write(r, true))
    ensures forall id :: id in r.ids && id in FatesOf(trace) ==> FatesOf(trace)[id] == Started
  {
    AcceptedApt(limit, start, map[], trace);
    FatesFromFront(trace);
  }

  lemma WriteDrops(l: Local, r: EmailRecords.Record, whole: bool)
    requires l.Pass? && r.status != Sending
    ensures Advance(l, Write(r, whole)) == Dropped(l, r.ids)
  {
  }

  /** What may be written about candidates not dealt with yet. */
  lemma MayTell(limit: nat, l: Local, cs: seq<Candidate>, r: EmailRecords.Record)
    requires Fresh(l, cs) && r.ids == Ids(cs) && !r.attempt && (r.status == Skipped || r.status == Claimed || r.status == Failed)
    ensures Permitted(limit, l, Write(r, true))
  {
  }

  /** What may be written about sends in doubt, left over or just now. */
  lemma MayAbandon(limit: nat, l: Local, r: EmailRecords.Record)
    requires l.Pass? && r.status == Abandoned && !r.attempt
    requires (!Busy(l.flight) && r.ids <= l.doubt) || SettlingWrite(l, r.ids, InDoubt)
    ensures Permitted(limit, l, Write(r, true))
  {
  }

  /** What may be written about candidates whose attempt failed. */
  lemma MayRetry(limit: nat, l: Local, cs: seq<Candidate>, r: EmailRecords.Record, made: nat)
    requires l.Pass? && r.ids == Ids(cs) && (if r.attempt then Fresh(l, cs) else Refused(l, cs))
    requires forall c :: c in cs ==> made == Made(c, r.attempt)
    requires r.status == if made >= limit then Failed else Status.Retry
    ensures Permitted(limit, l, Write(r, true))
  {
  }

  /** Every write names the dispatcher as the rows' owner. */
  ghost predicate Owned(trace: seq<Action>, owner: string) {
    forall i :: 0 <= i < |trace| && trace[i].Write? ==> trace[i].record.owner == owner
  }

  /** Every write is dated, and a retry is due when the attempts made so far say. */
  ghost predicate Paced(trace: seq<Action>, d: Config, now: Time, made: map<Id, nat>) {
    forall i :: 0 <= i < |trace| && trace[i].Write? ==> Timely(trace[i].record, d, now, made)
  }

  ghost predicate Timely(r: EmailRecords.Record, d: Config, now: Time, made: map<Id, nat>) {
    && r.at == now
    && (r.status == Status.Retry ==> forall id :: id in r.ids ==> id in made && r.nextAttemptAt == Some(now + d.delay(made[id] + 1)))
  }

  /** What a pass holds carries the attempts it was claimed with. */
  ghost predicate Carries(l: Local, made: map<Id, nat>) {
    && l.Pass?
    && (forall id :: id in l.open ==> id in made && l.open[id] == made[id])
    && (forall id :: id in Msg(l.flight) ==> id in made && Msg(l.flight)[id] == made[id])
  }

  lemma CarriesNext(l: Local, a: Action, made: map<Id, nat>)
    requires Carries(l, made)
    ensures Carries(Advance(l, a), made)
  {
  }

  /** A retry due after the attempts its candidates have made is timely. */
  lemma {:induction false} RetryTimely(
      l: Local, cs: seq<Candidate>, r: EmailRecords.Record, d: Config, now: Time, made: map<Id, nat>, k: nat)
    requires Carries(l, made) && r.ids == Ids(cs) && r.at == now && (if r.attempt then Fresh(l, cs) else Refused(l, cs))
    requires forall c :: c in cs ==> k == Made(c, r.attempt)
    requires r.status == Status.Retry ==> r.nextAttemptAt == Some(now + d.delay(k))
    ensures Timely(r, d, now, made)
  {
    forall id | id in r.ids ensures id in made && made[id] + 1 == k {
      var c :| c in cs && c.notification.id == id;
    }
  }

  // ---------------------------------------------------------------- loops

  /** What taking the groups in order has dealt with. */
  ghost predicate Dealt<K(!new)>(l: Local, l0: Local, m: Fates, m0: Fates, cs: seq<Candidate>, key: Candidate -> K, ks: seq<K>) {
    l0.Pass? && l == Dropped(l0, DoneIds(cs, key, ks)) && Ruled(m0, m, DoneIds(cs, key, ks))
  }

  lemma DealtNone<K(!new)>(l0: Local, m0: Fates, cs: seq<Candidate>, key: Candidate -> K, order: seq<K>)
    requires l0.Pass?
    ensures Dealt(l0, l0, m0, m0, cs, key, order[..0])
  {
    assert DoneIds(cs, key, order[..0]) == {};
    DroppedNothing(l0);
  }

  /** The next group in turn, and what may be assumed of it. */
  lemma {:induction false} DealtFresh<K(!new)>(
      l: Local, l0: Local, m: Fates, m0: Fates, cs: seq<Candidate>, key: Candidate -> K, order: seq<K>, j: nat, group: seq<Candidate>)
    requires Distinct(cs) && NoRepeats(order) && j < |order| && group == Group(cs, key, order[j])
    requires Dealt(l, l0, m, m0, cs, key, order[..j])
    ensures Fresh(l0, cs) ==> Fresh(l, group)
    ensures Refused(l0, cs) ==> Refused(l, group)
  {
    GroupMembers(cs, key, order[j]);
    DoneStep(cs, key, order, j);
    StillHeld(l0, cs, DoneIds(cs, key, order[..j]), group);
  }

  lemma {:induction false} DealtDoubt<K(!new)>(
      l: Local, l0: Local, m: Fates, m0: Fates, cs: seq<Candidate>, key: Candidate -> K, order: seq<K>, j: nat, group: seq<Candidate>)
    requires Distinct(cs) && NoRepeats(order) && j < |order| && group == Group(cs, key, order[j])
    requires Dealt(l, l0, m, m0, cs, key, order[..j]) && !Busy(l0.flight) && Ids(cs) <= l0.doubt
    ensures !Busy(l.flight) && Ids(group) <= l.doubt
  {
    GroupMembers(cs, key, order[j]);
    DoneStep(cs, key, order, j);
  }

  /** Dealing with it is enough. */
  lemma {:induction false} DealtMore<K(!new)>(
      l: Local, l0: Local, m: Fates, n: Fates, m0: Fates, cs: seq<Candidate>, key: Candidate -> K, order: seq<K>, j: nat, group: seq<Candidate>)
    requires Distinct(cs) && NoRepeats(order) && j < |order| && group == Group(cs, key, order[j])
    requires Dealt(l, l0, m, m0, cs, key, order[..j]) && Ruled(m, n, Ids(group))
    ensures Dealt(Dropped(l, Ids(group)), l0, n, m0, cs, key, order[..j + 1])
  {
    var done := DoneIds(cs, key, order[..j]);
    DoneStep(cs, key, order, j);
    DroppedTwice(l0, done, Ids(group));
    RuledTwice(m0, m, n, done, Ids(group));
  }

  lemma DealtAll<K(!new)>(
      l: Local, l0: Local, m: Fates, m0: Fates, cs: seq<Candidate>, key: Candidate -> K, order: seq<K>, groups: map<K, seq<Candidate>>)
    requires Distinct(cs) && Grouped(cs, key, order, groups) && Dealt(l, l0, m, m0, cs, key, order[..|order|])
    ensures l == Dropped(l0, Ids(cs)) && Ruled(m0, m, Ids(cs))
  {
    AllDone(cs, key, order, groups);
  }

  /** A loop over candidates has settled the `bad` ones among the first `i` and set the rest aside. */
  ghost predicate Sifted<K(!new)>(l: Local, l0: Local, m: Fates, m0: Fates, cs: seq<Candidate>, i: nat, key: Candidate -> K, bad: K, d: Config) {
    && i <= |cs| && Cleared(l, l0, Ids(Group(cs[..i], key, bad))) && Ruled(m0, m, Ids(Group(cs[..i], key, bad)))
    && forall c :: c in Group(cs[..i], key, bad) ==> c.notification.id in m && m[c.notification.id] == Attempted(c.attempts + 1, d.attempts)
  }

  lemma SiftedNone<K(!new)>(l0: Local, m0: Fates, cs: seq<Candidate>, key: Candidate -> K, bad: K, d: Config)
    requires Landed(l0)
    ensures Sifted(l0, l0, m0, m0, cs, 0, key, bad, d)
  {
    assert Group(cs[..0], key, bad) == [];
    ClearedNothing(l0);
  }

  lemma {:induction false} SiftedBad<K(!new)>(l: Local, l0: Local, m: Fates, m0: Fates, cs: seq<Candidate>, i: nat, key: Candidate -> K, bad: K, d: Config)
    requires Distinct(cs) && Fresh(l0, cs) && Apart(l)
    requires i < |cs| && Sifted(l, l0, m, m0, cs, i, key, bad, d) && key(cs[i]) == bad
    ensures Fresh(l, [cs[i]]) && Cleared(Dropped(l, {cs[i].notification.id}), l, {cs[i].notification.id})
  {
    var before, one := Group(cs[..i], key, bad), [cs[i]];
    GroupMembers(cs[..i], key, bad);
    assert Ids(one) == {cs[i].notification.id};
    StillFresh(l, l0, cs, Ids(before), one);
    DroppedClears(l, Ids(one));
  }

  lemma {:induction false} SiftedMore<K(!new)>(
      l: Local, l1: Local, l0: Local, m: Fates, n: Fates, m0: Fates, cs: seq<Candidate>, i: nat, key: Candidate -> K, bad: K, d: Config)
    requires i < |cs| && Sifted(l, l0, m, m0, cs, i, key, bad, d) && key(cs[i]) == bad && Cleared(l1, l, {cs[i].notification.id})
    requires Ruled(m, n, {cs[i].notification.id}) && n[cs[i].notification.id] == Attempted(cs[i].attempts + 1, d.attempts)
    requires Distinct(cs)
    ensures Sifted(l1, l0, n, m0, cs, i + 1, key, bad, d)
  {
    var before, after, id := Group(cs[..i], key, bad), Group(cs[..i + 1], key, bad), cs[i].notification.id;
    assert after == before + [cs[i]] by { GroupSnoc(cs, i, key, bad); }
    assert Ids(after) == Ids(before) + {id} by { IdsConcat(before, [cs[i]]); }
    assert Cleared(l1, l0, Ids(after)) by { ClearedTwice(l1, l, l0, Ids(before), {id}); }
    assert Ruled(m0, n, Ids(after)) by { RuledTwice(m0, m, n, Ids(before), {id}); }
    forall c | c in after ensures c.notification.id in n && n[c.notification.id] == Attempted(c.attempts + 1, d.attempts) {
      if c in before {
        EarlierApart(cs, i, key, bad, c);
      }
    }
  }

  lemma {:induction false} EarlierApart<K(!new)>(cs: seq<Candidate>, i: nat, key: Candidate -> K, bad: K, c: Candidate)
    requires Distinct(cs) && i < |cs| && c in Group(cs[..i], key, bad)
    ensures c.notification.id != cs[i].notification.id
  {
    GroupMembers(cs[..i], key, bad);
    var k :| 0 <= k < i && cs[k] == c;
  }

  lemma SiftedGood<K(!new)>(l: Local, l0: Local, m: Fates, m0: Fates, cs: seq<Candidate>, i: nat, key: Candidate -> K, bad: K, d: Config)
    requires i < |cs| && Sifted(l, l0, m, m0, cs, i, key, bad, d) && key(cs[i]) != bad
    ensures Sifted(l, l0, m, m0, cs, i + 1, key, bad, d)
  {
    GroupSnoc(cs, i, key, bad);
  }

  lemma SiftedRest<K(!new)>(l: Local, l0: Local, m: Fates, m0: Fates, cs: seq<Candidate>, key: Candidate -> K, bad: K, k: K, d: Config)
    requires Distinct(cs) && Fresh(l0, cs) && Sifted(l, l0, m, m0, cs, |cs|, key, bad, d) && k != bad
    ensures Fresh(l, Group(cs, key, k)) && Ids(Group(cs, key, k)) <= l.open.Keys
  {
    assert cs[..|cs|] == cs;
    GroupsApart(cs, key, k, bad);
    GroupMembers(cs, key, k);
    StillFresh(l, l0, cs, Ids(Group(cs, key, bad)), Group(cs, key, k));
  }

  /** The attempts a candidate has had once this one is counted. */
  function Made(c: Candidate, countAttempt: bool): nat {
    if countAttempt then c.attempts + 1 else c.attempts
  }

  /** The claimed count stays, and lost rows stay lost. */
  predicate Kept(a: DispatchResult, b: DispatchResult) {
    b.claimed == a.claimed && a.unrecorded <= b.unrecorded
  }

  /** A record that writes a status and nothing else. */
  function Writing(status: Status): EmailRecords.Record {
    EmailRecords.Record("", {}, status, "", "", None, false, 0)
  }
}
