/**
 * What each round of an email pass comes to once its loop is done (notify/email_dispatcher.go): the last
 * read, the filter, the message, the recipients in turn and the whole pass.
 */
module EmailRounds {
  import opened Basics
  import opened Notifications
  import opened EmailRecords
  import opened EmailAutomaton
  import opened EmailGroups
  import opened EmailFates
  import opened EmailStanding

  /** The candidates of these messages were given up on. */
  ghost predicate AllDoubted(m: Fates, doubts: seq<Candidate>, batch: Candidate -> string, ks: seq<string>) {
    forall c :: c in doubts && batch(c) in ks ==> c.notification.id in m && m[c.notification.id] == Doubted
  }

  lemma {:induction false} DoubtAll(
      l: Local, l0: Local, m: Fates, m0: Fates, doubts: seq<Candidate>, batch: Candidate -> string,
      order: seq<string>, groups: map<string, seq<Candidate>>)
    requires Distinct(doubts) && Grouped(doubts, batch, order, groups)
    requires Dealt(l, l0, m, m0, doubts, batch, order[..|order|]) && AllDoubted(m, doubts, batch, order[..|order|])
    ensures l == Dropped(l0, Ids(doubts)) && Marked(m0, m, Ids(doubts), Doubted)
  {
    DealtAll(l, l0, m, m0, doubts, batch, order, groups);
    GroupedKeys(doubts, batch, order, groups);
    assert order[..|order|] == order;
  }

  lemma {:induction false} DoubtMore(
      l: Local, l0: Local, m: Fates, n: Fates, m0: Fates, doubts: seq<Candidate>, batch: Candidate -> string,
      order: seq<string>, j: nat, group: seq<Candidate>)
    requires Distinct(doubts) && NoRepeats(order) && j < |order| && group == Group(doubts, batch, order[j])
    requires Dealt(l, l0, m, m0, doubts, batch, order[..j])
    requires AllDoubted(m, doubts, batch, order[..j]) && Marked(m, n, Ids(group), Doubted)
    ensures Dealt(Dropped(l, Ids(group)), l0, n, m0, doubts, batch, order[..j + 1])
    ensures AllDoubted(n, doubts, batch, order[..j + 1])
  {
    DealtMore(l, l0, m, n, m0, doubts, batch, order, j, group);
    assert order[..j + 1] == order[..j] + [order[j]];
    DoubtedMore(m, n, doubts, batch, order[..j], order[j], group);
  }

  lemma {:induction false} DoubtedMore(
      m: Fates, n: Fates, doubts: seq<Candidate>, batch: Candidate -> string, ks: seq<string>, k: string, group: seq<Candidate>)
    requires AllDoubted(m, doubts, batch, ks) && group == Group(doubts, batch, k) && Marked(m, n, Ids(group), Doubted)
    ensures AllDoubted(n, doubts, batch, ks + [k])
  {
    forall c | c in doubts && batch(c) in ks + [k] ensures c.notification.id in n && n[c.notification.id] == Doubted {
      if batch(c) == k {
        InItsGroup(doubts, batch, c);
      } else {
        assert c.notification.id in m && m[c.notification.id] == Doubted;
      }
    }
  }

  function RecipientOf(c: Candidate): string {
    c.notification.recipient
  }

  // ---------------------------------------------------------------- the whole pass

  lemma {:induction false} PartsApart(l: Local, candidates: seq<Candidate>)
    requires Distinct(candidates) && Starts(l, candidates)
    ensures var doubts, pending := Group(candidates, Doubtful, true), Group(candidates, Doubtful, false);
            && Distinct(doubts) && Distinct(pending) && Ids(doubts) == l.doubt && !Busy(l.flight)
            && Ids(doubts) !! Ids(pending) && forall c :: c in pending ==> !Doubtful(c)
  {
    GroupsApart(candidates, Doubtful, false, true);
    GroupsApart(candidates, Doubtful, true, false);
    GroupMembers(candidates, Doubtful, false);
  }

  lemma {:induction false} PartIdsWhole(candidates: seq<Candidate>)
    ensures Ids(Group(candidates, Doubtful, true)) + Ids(Group(candidates, Doubtful, false)) == Ids(candidates)
  {
    GroupMembers(candidates, Doubtful, true);
    GroupMembers(candidates, Doubtful, false);
    forall c | c in candidates ensures c.notification.id in Ids(Group(candidates, Doubtful, Doubtful(c))) {
      InItsGroup(candidates, Doubtful, c);
    }
  }

  lemma {:induction false} PendingFresh(l: Local, l0: Local, candidates: seq<Candidate>)
    requires Distinct(candidates) && Starts(l0, candidates) && l == Dropped(l0, Ids(Group(candidates, Doubtful, true)))
    ensures Fresh(l, Group(candidates, Doubtful, false))
  {
    PartsApart(l0, candidates);
    GroupMembers(candidates, Doubtful, false);
    assert forall c :: c in Group(candidates, Doubtful, false) ==> c.notification.id in Ids(Group(candidates, Doubtful, false));
  }

  /** Doubts and pending candidates together met the fates they had to. */
  lemma {:induction false} Dispatched(m1: Fates, m: Fates, host: Host, d: Config, candidates: seq<Candidate>, lost: bool)
    requires Distinct(candidates)
    requires Marked(map[], m1, Ids(Group(candidates, Doubtful, true)), Doubted) && Ruled(m1, m, Ids(Group(candidates, Doubtful, false)))
    requires forall c :: c in Group(candidates, Doubtful, false) ==> Right(m, host, d, Group(candidates, Doubtful, false), c, lost)
    ensures m.Keys == Ids(candidates) && forall c :: c in candidates ==> Right(m, host, d, candidates, c, lost)
  {
    PartIdsWhole(candidates);
    forall c | c in candidates ensures Right(m, host, d, candidates, c, lost) {
      InItsGroup(candidates, Doubtful, c);
      DispatchedOne(m1, m, host, d, candidates, c, lost);
    }
  }

  lemma {:induction false} NothingStarted(m: Fates, host: Host, d: Config, candidates: seq<Candidate>)
    requires m.Keys == Ids(candidates) && forall c :: c in candidates ==> Right(m, host, d, candidates, c, false)
    ensures With(m, Started) == {}
  {
    forall id | id in m ensures m[id] != Started {
      var c :| c in candidates && c.notification.id == id;
      assert Right(m, host, d, candidates, c, false);
      NeverStarted(host, d, c, Within(host, d, candidates, c), m[id]);
    }
  }

  lemma {:induction false} DispatchedOne(m1: Fates, m: Fates, host: Host, d: Config, candidates: seq<Candidate>, c: Candidate, lost: bool)
    requires Distinct(candidates) && c in candidates && c in Group(candidates, Doubtful, Doubtful(c))
    requires Marked(map[], m1, Ids(Group(candidates, Doubtful, true)), Doubted) && Ruled(m1, m, Ids(Group(candidates, Doubtful, false)))
    requires forall b :: b in Group(candidates, Doubtful, false) ==> Right(m, host, d, Group(candidates, Doubtful, false), b, lost)
    ensures Right(m, host, d, candidates, c, lost)
  {
    if Doubtful(c) {
      GroupsApart(candidates, Doubtful, true, false);
      assert c.notification.id in Ids(Group(candidates, Doubtful, true));
    } else {
      QueueOfGroup(host, candidates, Doubtful, false, c.notification.recipient);
    }
  }

  lemma NeverStarted(host: Host, d: Config, c: Candidate, within: bool, f: Fate)
    requires Expected(host, d, c, within, f, false)
    ensures f != Started
  {
  }

  /** The messages of the pending candidates are the messages of all. */
  lemma {:induction false} PostedWhole(host: Host, d: Config, candidates: seq<Candidate>, ms: seq<Message>, lost: bool)
    requires PostedExactly(host, d, Group(candidates, Doubtful, false), ms, lost)
    ensures PostedExactly(host, d, candidates, ms, lost)
  {
    var pending := Group(candidates, Doubtful, false);
    forall r ensures Mails(host, d, pending, r) == Mails(host, d, candidates, r) {
      SameContents(host, d, candidates, r);
    }
    var rs: seq<string> :| NoRepeats(rs) && (forall r :: r in rs <==> Mails(host, d, pending, r)) && Posted(host, d, pending, rs, ms, lost);
    forall k | 0 <= k < |ms| ensures MessageFor(host, d, candidates, rs[k], ms[k], lost) {
      assert MessageFor(host, d, pending, rs[k], ms[k], lost);
      SameContents(host, d, candidates, rs[k]);
    }
    assert Posted(host, d, candidates, rs, ms, lost);
  }

  lemma {:induction false} SameContents(host: Host, d: Config, candidates: seq<Candidate>, r: string)
    ensures Contents(host, d, Group(candidates, Doubtful, false), r) == Contents(host, d, candidates, r)
    ensures Mails(host, d, Group(candidates, Doubtful, false), r) == Mails(host, d, candidates, r)
  {
    QueueOfGroup(host, candidates, Doubtful, false, r);
  }

  // ---------------------------------------------------------------- recipient by recipient

  /** The candidates of these recipients have been dealt with, rightly. */
  ghost predicate Done(
      l: Local, l0: Local, m: Fates, m0: Fates, host: Host, d: Config, pending: seq<Candidate>, rs: seq<string>, lost: bool)
  {
    && Cleared(l, l0, DoneIds(pending, RecipientOf, rs)) && Ruled(m0, m, DoneIds(pending, RecipientOf, rs))
    && forall c :: c in pending && c.notification.recipient in rs ==> Right(m, host, d, pending, c, lost)
  }

  lemma DoneNone(pending: seq<Candidate>, rs: seq<string>)
    ensures DoneIds(pending, RecipientOf, rs[..0]) == {}
  {
  }

  lemma {:induction false} NextGroup(
      l: Local, l0: Local, m: Fates, m0: Fates, host: Host, d: Config, pending: seq<Candidate>,
      rs: seq<string>, j: nat, group: seq<Candidate>, lost: bool)
    requires Distinct(pending) && NoRepeats(rs) && Fresh(l0, pending) && j < |rs| && group == Group(pending, RecipientOf, rs[j])
    requires Done(l, l0, m, m0, host, d, pending, rs[..j], lost)
    ensures Distinct(group) && Fresh(l, group) && forall c :: c in group <==> c in pending && c.notification.recipient == rs[j]
  {
    GroupMembers(pending, RecipientOf, rs[j]);
    DoneStep(pending, RecipientOf, rs, j);
    StillFresh(l, l0, pending, DoneIds(pending, RecipientOf, rs[..j]), group);
  }

  lemma ExpectedStill(host: Host, d: Config, c: Candidate, within: bool, f: Fate, was: bool, lost: bool)
    requires Expected(host, d, c, within, f, was) && (was ==> lost)
    ensures Expected(host, d, c, within, f, lost)
  {
  }

  lemma {:induction false} SameQueue(host: Host, d: Config, pending: seq<Candidate>, c: Candidate)
    ensures Within(host, d, Group(pending, RecipientOf, c.notification.recipient), c) == Within(host, d, pending, c)
  {
    QueueOfGroup(host, pending, RecipientOf, c.notification.recipient, c.notification.recipient);
  }

  lemma {:induction false} DoneMore(
      l: Local, l1: Local, l0: Local, m: Fates, m1: Fates, m0: Fates, host: Host, d: Config, pending: seq<Candidate>,
      rs: seq<string>, j: nat, group: seq<Candidate>, was: bool, lost: bool)
    requires Distinct(pending) && NoRepeats(rs) && j < |rs| && (was ==> lost) && group == Group(pending, RecipientOf, rs[j])
    requires Done(l1, l0, m1, m0, host, d, pending, rs[..j], was)
    requires Cleared(l, l1, Ids(group)) && Ruled(m1, m, Ids(group))
    requires forall c :: c in group ==> Right(m, host, d, group, c, lost)
    ensures Done(l, l0, m, m0, host, d, pending, rs[..j + 1], lost)
  {
    var done, more := DoneIds(pending, RecipientOf, rs[..j]), DoneIds(pending, RecipientOf, rs[..j + 1]);
    assert more == done + Ids(group) && done !! Ids(group) by { DoneStep(pending, RecipientOf, rs, j); }
    ClearedTwice(l, l1, l0, done, Ids(group));
    RuledTwice(m0, m1, m, done, Ids(group));
    assert rs[..j + 1] == rs[..j] + [rs[j]];
    forall c | c in pending && c.notification.recipient in rs[..j + 1] ensures Right(m, host, d, pending, c, lost) {
      if c.notification.recipient == rs[j] {
        InItsGroup(pending, RecipientOf, c);
        SameQueue(host, d, pending, c);
      } else {
        assert c.notification.id in done;
        StillRight(m1, m, host, d, pending, c, Ids(group), was, lost);
      }
    }
  }

  lemma {:induction false} StillRight(
      m1: Fates, m: Fates, host: Host, d: Config, all: seq<Candidate>, c: Candidate, ids: set<Id>, was: bool, lost: bool)
    requires Right(m1, host, d, all, c, was) && Ruled(m1, m, ids) && c.notification.id !in ids && (was ==> lost)
    ensures Right(m, host, d, all, c, lost)
  {
    ExpectedStill(host, d, c, Within(host, d, all, c), m1[c.notification.id], was, lost);
  }

  /** One message for each of the recipients so far who were due one. */
  ghost predicate SentTo(
      host: Host, d: Config, pending: seq<Candidate>, rs: seq<string>, due: seq<string>, ms: seq<Message>, lost: bool)
  {
    && NoRepeats(due) && (forall r :: r in due <==> r in rs && Mails(host, d, pending, r))
    && Posted(host, d, pending, due, ms, lost)
  }

  lemma {:induction false} SentMore(
      host: Host, d: Config, pending: seq<Candidate>, rs: seq<string>, j: nat, group: seq<Candidate>,
      due: seq<string>, before: seq<Message>, after: seq<Message>, was: bool, lost: bool)
    returns (more: seq<string>)
    requires NoRepeats(rs) && j < |rs| && (was ==> lost) && group == Group(pending, RecipientOf, rs[j])
    requires SentTo(host, d, pending, rs[..j], due, before, was)
    requires if host.addressOf(rs[j]).Address?
             then Mailing(before, after, host, rs[j], Contents(host, d, group, rs[j]), lost) else after == before
    ensures SentTo(host, d, pending, rs[..j + 1], more, after, lost)
  {
    var r := rs[j];
    QueueOfGroup(host, pending, RecipientOf, r, r);
    assert rs[..j + 1] == rs[..j] + [r] && r !in rs[..j];
    if Mails(host, d, pending, r) {
      more := due + [r];
      PostedMore(host, d, pending, due, before, after, r, was, lost);
    } else {
      more := due;
      PostedStill(host, d, pending, due, before, was, lost);
    }
  }

  lemma {:induction false} PostedStill(
      host: Host, d: Config, pending: seq<Candidate>, due: seq<string>, ms: seq<Message>, was: bool, lost: bool)
    requires Posted(host, d, pending, due, ms, was) && (was ==> lost)
    ensures Posted(host, d, pending, due, ms, lost)
  {
  }

  lemma {:induction false} PostedMore(
      host: Host, d: Config, pending: seq<Candidate>, due: seq<string>, before: seq<Message>, after: seq<Message>,
      r: string, was: bool, lost: bool)
    requires Posted(host, d, pending, due, before, was) && Mails(host, d, pending, r) && (was ==> lost)
    requires Mailing(before, after, host, r, Contents(host, d, pending, r), lost)
    ensures Posted(host, d, pending, due + [r], after, lost)
  {
    forall k | 0 <= k < |after| ensures MessageFor(host, d, pending, (due + [r])[k], after[k], lost) {
      if k < |before| {
        assert after[k] == after[..|before|][k] == before[k];
      }
    }
  }

  lemma {:induction false} AllPosted(
      host: Host, d: Config, pending: seq<Candidate>, rs: seq<string>, groups: map<string, seq<Candidate>>,
      due: seq<string>, ms: seq<Message>, lost: bool)
    requires Grouped(pending, RecipientOf, rs, groups) && SentTo(host, d, pending, rs[..|rs|], due, ms, lost)
    ensures PostedExactly(host, d, pending, ms, lost)
  {
    assert rs[..|rs|] == rs;
    forall r | r !in rs ensures !Mails(host, d, pending, r) { NobodysQueue(host, d, pending, rs, groups, r); }
    assert forall r :: r in due <==> Mails(host, d, pending, r);
  }

  lemma {:induction false} NobodysQueue(
      host: Host, d: Config, pending: seq<Candidate>, rs: seq<string>, groups: map<string, seq<Candidate>>, r: string)
    requires Grouped(pending, RecipientOf, rs, groups) && r !in rs
    ensures !Mails(host, d, pending, r)
  {
    QueueOfGroup(host, pending, RecipientOf, r, r);
    assert Group(pending, RecipientOf, r) == [];
    assert Queue(host, [], r) == [];
    assert Contents(host, d, pending, r) == {};
  }


  function VerdictOn(host: Host): Candidate -> Verdict {
    (c: Candidate) => host.shouldEmail(c.notification.id)
  }

  lemma ExcessApart(l: Local, selected: seq<Candidate>, n: nat)
    requires Distinct(selected) && Apart(l) && Fresh(l, selected) && n < |selected|
    ensures var message, excess := selected[..n], selected[n..];
      && Distinct(message) && Distinct(excess) && Fresh(l, excess) && Ids(excess) !! Ids(message)
      && Cleared(Dropped(l, Ids(excess)), l, Ids(excess))
      && Fresh(Dropped(l, Ids(excess)), message)
  {
    var message, excess := selected[..n], selected[n..];
    assert selected == message + excess;
    HalvesApart(message, excess);
    FreshIds(l, excess);
    DroppedClears(l, Ids(excess));
    StillFresh(Dropped(l, Ids(excess)), l, selected, Ids(excess), message);
  }

  /** With the excess handed back and the rest sent, every candidate is seen to. */
  lemma {:induction false} FirstSent(
      l: Local, l1: Local, l0: Local, m: Fates, m1: Fates, m0: Fates, host: Host, d: Config, recipient: string,
      selected: seq<Candidate>, lost: bool)
    requires Distinct(selected) && |selected| > d.batch && host.addressOf(recipient).Address?
    requires forall c :: c in selected ==> c.notification.recipient == recipient
    requires Cleared(l1, l0, Ids(selected[d.batch..])) && Marked(m0, m1, Ids(selected[d.batch..]), HandedBack)
    requires Cleared(l, l1, Ids(selected[..d.batch])) && Ruled(m1, m, Ids(selected[..d.batch]))
    requires forall c :: c in selected[..d.batch] ==> Checked(host, d, c, m[c.notification.id], lost)
    ensures Cleared(l, l0, Ids(selected)) && Ruled(m0, m, Ids(selected))
    ensures forall c :: c in selected ==> Addressed(host, d, c, c in FirstOf(selected, d.batch), m[c.notification.id], lost)
  {
    var first, excess := selected[..d.batch], selected[d.batch..];
    HalvesWhole(first, excess, selected);
    ClearedTwice(l, l1, l0, Ids(excess), Ids(first));
    RuledTwice(m0, m1, m, Ids(excess), Ids(first));
    forall c | c in selected ensures Addressed(host, d, c, c in first, m[c.notification.id], lost) {
      FirstSentOne(m, m1, m0, host, d, recipient, first, excess, c, lost);
    }
  }

  lemma {:induction false} HalvesWhole(first: seq<Candidate>, excess: seq<Candidate>, selected: seq<Candidate>)
    requires Distinct(selected) && |first| <= |selected| && first == selected[..|first|] && excess == selected[|first|..]
    ensures Ids(excess) + Ids(first) == Ids(selected) && Ids(first) !! Ids(excess)
    ensures forall c :: c in selected <==> c in first || c in excess
  {
    assert selected == first + excess;
    IdsConcat(first, excess);
    HalvesApart(first, excess);
  }

  lemma {:induction false} FirstSentOne(
      m: Fates, m1: Fates, m0: Fates, host: Host, d: Config, recipient: string,
      first: seq<Candidate>, excess: seq<Candidate>, c: Candidate, lost: bool)
    requires Marked(m0, m1, Ids(excess), HandedBack) && Ruled(m1, m, Ids(first)) && Ids(first) !! Ids(excess)
    requires c.notification.recipient == recipient && host.addressOf(recipient).Address? && (c in first || c in excess)
    requires forall b :: b in first ==> Checked(host, d, b, m[b.notification.id], lost)
    ensures c.notification.id in m && Addressed(host, d, c, c in first, m[c.notification.id], lost)
  {
    if c !in first {
      assert c.notification.id in Ids(excess);
    }
  }

  /** What the filter's answers leave to go on with. */
  lemma {:induction false} VerdictParts(l: Local, l0: Local, m: Fates, m0: Fates, cs: seq<Candidate>, host: Host, d: Config)
    requires Distinct(cs) && Fresh(l0, cs) && Sifted(l, l0, m, m0, cs, |cs|, VerdictOn(host), Fault, d)
    ensures var selected, filtered := Group(cs, VerdictOn(host), Yes), Group(cs, VerdictOn(host), No);
            && Distinct(selected) && Distinct(filtered) && Fresh(l, selected) && Fresh(l, filtered)
            && Ids(selected) !! Ids(filtered) && forall c :: c in selected ==> c in cs
  {
    var verdict := VerdictOn(host);
    SiftedRest(l, l0, m, m0, cs, verdict, Fault, Yes, d);
    SiftedRest(l, l0, m, m0, cs, verdict, Fault, No, d);
    GroupsApart(cs, verdict, Yes, No);
    GroupsApart(cs, verdict, No, Yes);
    GroupMembers(cs, verdict, Yes);
  }

  /** What the filter lets through. */
  function Chosen(host: Host, cs: seq<Candidate>): seq<Candidate> {
    Sieve(cs, (c: Candidate) => host.shouldEmail(c.notification.id) == Yes)
  }

  /** What becomes of the others. */
  predicate Unchosen(host: Host, d: Config, c: Candidate, f: Fate) {
    match host.shouldEmail(c.notification.id)
    case No => f == Filtered
    case Fault => f == Attempted(c.attempts + 1, d.attempts)
    case Yes => false
  }

  lemma {:induction false} ChosenIsGroup(host: Host, cs: seq<Candidate>)
    ensures Group(cs, VerdictOn(host), Yes) == Chosen(host, cs)
  {
    GroupSieve(cs, VerdictOn(host), Yes, (c: Candidate) => host.shouldEmail(c.notification.id) == Yes);
  }

  lemma {:induction false} ChosenMembers(host: Host, cs: seq<Candidate>)
    ensures forall c :: c in Chosen(host, cs) <==> c in cs && host.shouldEmail(c.notification.id) == Yes
  {
    ChosenIsGroup(host, cs);
    GroupMembers(cs, VerdictOn(host), Yes);
  }

  lemma {:induction false} ChosenIsQueue(host: Host, cs: seq<Candidate>, recipient: string)
    requires forall c :: c in cs ==> c.notification.recipient == recipient && !Doubtful(c)
    ensures Chosen(host, cs) == Queue(host, cs, recipient)
  {
    SieveAgrees(cs, (c: Candidate) => host.shouldEmail(c.notification.id) == Yes,
                (c: Candidate) => !Doubtful(c) && c.notification.recipient == recipient && host.shouldEmail(c.notification.id) == Yes);
  }

  /** The three verdicts share the candidates out. */
  lemma {:induction false} VerdictIds(cs: seq<Candidate>, host: Host)
    requires Distinct(cs)
    ensures var v := VerdictOn(host);
            Ids(Group(cs, v, Fault)) + Ids(Group(cs, v, No)) == Ids(cs) - Ids(Group(cs, v, Yes))
    ensures Ids(Group(cs, VerdictOn(host), Yes)) <= Ids(cs)
    ensures Ids(Group(cs, VerdictOn(host), Fault)) !! Ids(Group(cs, VerdictOn(host), No))
  {
    var v := VerdictOn(host);
    GroupsApart(cs, v, Yes, No);
    GroupsApart(cs, v, Yes, Fault);
    GroupsApart(cs, v, No, Yes);
    GroupsApart(cs, v, Fault, No);
    forall c | c in cs ensures c.notification.id in (Ids(Group(cs, v, Fault)) + Ids(Group(cs, v, No))) + Ids(Group(cs, v, Yes)) {
      InItsGroup(cs, v, c);
      assert v(c) == Yes || v(c) == No || v(c) == Fault;
    }
  }

  lemma {:induction false} InItsGroup<K(!new)>(cs: seq<Candidate>, key: Candidate -> K, c: Candidate)
    requires c in cs
    ensures c in Group(cs, key, key(c)) && c.notification.id in Ids(Group(cs, key, key(c)))
  {
    GroupMembers(cs, key, key(c));
  }

  lemma {:induction false} SelectedLocal(
      l: Local, l1: Local, l0: Local, m1: Fates, m0: Fates, cs: seq<Candidate>, host: Host, d: Config)
    requires Distinct(cs) && Fresh(l0, cs) && Sifted(l1, l0, m1, m0, cs, |cs|, VerdictOn(host), Fault, d)
    requires Fresh(l1, Group(cs, VerdictOn(host), Yes)) && Cleared(l, l1, Ids(Group(cs, VerdictOn(host), No)))
    ensures var selected := Group(cs, VerdictOn(host), Yes);
            Distinct(selected) && Ids(selected) <= Ids(cs) && Fresh(l, selected) && Cleared(l, l0, Ids(cs) - Ids(selected))
  {
    var v := VerdictOn(host);
    assert cs[..|cs|] == cs;
    VerdictIds(cs, host);
    ClearedTwice(l, l1, l0, Ids(Group(cs, v, Fault)), Ids(Group(cs, v, No)));
    GroupsApart(cs, v, Yes, No);
    StillFresh(l, l1, Group(cs, v, Yes), Ids(Group(cs, v, No)), Group(cs, v, Yes));
  }

  lemma {:induction false} SelectedFates(
      l1: Local, l0: Local, m: Fates, m1: Fates, m0: Fates, cs: seq<Candidate>, host: Host, d: Config)
    requires Distinct(cs) && Sifted(l1, l0, m1, m0, cs, |cs|, VerdictOn(host), Fault, d)
    requires m == Put(m1, Ids(Group(cs, VerdictOn(host), No)), Filtered)
    ensures var selected := Group(cs, VerdictOn(host), Yes);
            && Ruled(m0, m, Ids(cs) - Ids(selected))
            && forall c :: c in cs && c !in selected ==> c.notification.id in m && Unchosen(host, d, c, m[c.notification.id])
  {
    var v := VerdictOn(host);
    assert cs[..|cs|] == cs;
    assert Ruled(m0, m, Ids(cs) - Ids(Group(cs, v, Yes))) by {
      VerdictIds(cs, host);
      RuledTwice(m0, m1, m, Ids(Group(cs, v, Fault)), Ids(Group(cs, v, No)));
    }
    forall c | c in cs && c !in Group(cs, v, Yes) ensures c.notification.id in m && Unchosen(host, d, c, m[c.notification.id]) {
      SelectedOne(m, m1, cs, host, d, c);
    }
  }

  lemma {:induction false} SelectedOne(m: Fates, m1: Fates, cs: seq<Candidate>, host: Host, d: Config, c: Candidate)
    requires Distinct(cs) && c in cs && c !in Group(cs, VerdictOn(host), Yes)
    requires forall b :: b in Group(cs, VerdictOn(host), Fault) ==>
               b.notification.id in m1 && m1[b.notification.id] == Attempted(b.attempts + 1, d.attempts)
    requires m == Put(m1, Ids(Group(cs, VerdictOn(host), No)), Filtered)
    ensures c.notification.id in m && Unchosen(host, d, c, m[c.notification.id])
  {
    var v := VerdictOn(host);
    InItsGroup(cs, v, c);
    if v(c) == Fault {
      GroupsApart(cs, v, Fault, No);
    }
  }

  /** Chosen and unchosen, every candidate of a recipient is seen to. */
  lemma {:induction false} DeliveredAll(
      host: Host, d: Config, cs: seq<Candidate>, recipient: string, selected: seq<Candidate>, m1: Fates, m: Fates, lost: bool)
    requires Distinct(cs) && selected == Queue(host, cs, recipient) == Chosen(host, cs) && Ruled(m1, m, Ids(selected))
    requires forall c :: c in cs ==> c.notification.recipient == recipient && !Doubtful(c)
    requires forall c :: c in cs && c !in selected ==> c.notification.id in m1 && Unchosen(host, d, c, m1[c.notification.id])
    requires forall c :: c in selected ==>
               c.notification.id in m && Addressed(host, d, c, c in FirstOf(selected, d.batch), m[c.notification.id], lost)
    ensures forall c :: c in cs ==> Right(m, host, d, cs, c, lost)
  {
    ChosenMembers(host, cs);
    forall c | c in cs ensures Right(m, host, d, cs, c, lost) {
      if c !in selected {
        OutsideIds(cs, selected, c);
      }
    }
  }

  lemma PutRules(m: Fates, cs: seq<Candidate>, f: Fate)
    ensures Ruled(m, Put(m, Ids(cs), f), Ids(cs)) && forall c :: c in cs ==> Put(m, Ids(cs), f)[c.notification.id] == f
  {
  }

  lemma PutMarks(m: Fates, ids: set<Id>, f: Fate)
    ensures Marked(m, Put(m, ids, f), ids, f)
  {
  }

  /** A start moves no counter. */
  lemma StartTallies(r: DispatchResult, now: DispatchResult, m: Fates, ids: set<Id>)
    requires Tallies(r, m) && now == r.(unrecorded := now.unrecorded) && forall id :: id in ids && id in m ==> m[id] == Started
    ensures Tallies(now, Put(m, ids, Started))
  {
    PutTallies(r, now, m, ids, Started);
  }

  lemma {:induction false} AttemptCounted(l: Local, sent: seq<Candidate>, live: seq<Candidate>)
    requires l.Pass? && l.flight.Returned? && l.flight.outcome == NotSent && |live| == |sent|
    requires forall c :: c in sent ==> c.notification.id in l.flight.msg && l.flight.msg[c.notification.id] == c.attempts
    requires forall k :: 0 <= k < |sent| ==> live[k] == sent[k].(attempts := sent[k].attempts + 1)
    ensures Refused(l, live)
  {
    forall c | c in live ensures c.notification.id in l.flight.msg && l.flight.msg[c.notification.id] + 1 == c.attempts {
      var k :| 0 <= k < |live| && live[k] == c;
      assert sent[k] in sent;
    }
  }

  lemma {:induction false} RetriedSent(m: Fates, sent: seq<Candidate>, live: seq<Candidate>, d: Config)
    requires |live| == |sent| && forall k :: 0 <= k < |sent| ==> live[k] == sent[k].(attempts := sent[k].attempts + 1)
    requires forall c :: c in live ==> c.notification.id in m && m[c.notification.id] == Attempted(c.attempts, d.attempts)
    ensures forall c :: c in sent ==> c.notification.id in m && m[c.notification.id] == Attempted(c.attempts + 1, d.attempts)
  {
    forall c | c in sent ensures c.notification.id in m && m[c.notification.id] == Attempted(c.attempts + 1, d.attempts) {
      var k :| 0 <= k < |sent| && sent[k] == c;
      assert live[k] in live;
    }
  }

  lemma RuledAgain(m: Fates, n: Fates, o: Fates, ids: set<Id>)
    requires Ruled(m, n, ids) && Ruled(n, o, ids)
    ensures Ruled(m, o, ids)
  {
  }

  lemma {:induction false} EndedAll(
      host: Host, d: Config, recipient: string, live: seq<Candidate>, m: Fates, outcome: Option<Outcome>, lost: bool)
    requires forall c :: c in live ==> c.notification.recipient == recipient && c.notification.id in m
    requires outcome.None? ==> lost && forall c :: c in live ==> m[c.notification.id] == Started
    requires outcome.Some? ==> outcome.value == host.send(recipient) && forall c :: c in live ==> m[c.notification.id] == EndFate(outcome.value, d, c)
    ensures forall c :: c in live ==> Ended(host, d, c, m[c.notification.id], lost)
  {
  }

  /** Lost rows stay lost. */
  lemma CheckedStill(host: Host, d: Config, c: Candidate, f: Fate, was: bool, lost: bool)
    requires Checked(host, d, c, f, was) && (was ==> lost)
    ensures Checked(host, d, c, f, lost)
  {
  }

  lemma {:induction false} LiveMembers(host: Host, cs: seq<Candidate>)
    ensures forall c :: c in EmailFates.Live(host, cs) <==> c in cs && host.get(c.notification.id) == Found(Active)
  {
    if cs != [] {
      var init, last := cs[..|cs| - 1], cs[|cs| - 1];
      LiveMembers(host, init);
      assert cs == init + [last];
    }
  }

  lemma {:induction false} OutsideIds(cs: seq<Candidate>, part: seq<Candidate>, c: Candidate)
    requires Distinct(cs) && c in cs && c !in part && forall b :: b in part ==> b in cs
    ensures c.notification.id !in Ids(part)
  {
    forall b | b in part ensures b.notification.id != c.notification.id {
      if b.notification.id == c.notification.id { SameCandidate(cs, b, c); }
    }
  }

  lemma SentWhole(l: Local, l1: Local, l0: Local, m: Fates, m1: Fates, m0: Fates, all: set<Id>, live: set<Id>)
    requires live <= all && Cleared(l1, l0, all - live) && Cleared(l, l1, live)
    requires Ruled(m0, m1, all - live) && Ruled(m1, m, live)
    ensures Cleared(l, l0, all) && Ruled(m0, m, all)
  {
    assert (all - live) + live == all;
    ClearedTwice(l, l1, l0, all - live, live);
    RuledTwice(m0, m1, m, all - live, live);
  }

  lemma {:induction false} SentAll(
      host: Host, d: Config, cs: seq<Candidate>, live: seq<Candidate>, m1: Fates, m: Fates, was: bool, lost: bool)
    requires Distinct(cs) && live == EmailFates.Live(host, cs) && Ruled(m1, m, Ids(live)) && (was ==> lost)
    requires forall c :: c in cs && c !in live ==> c.notification.id in m1 && Checked(host, d, c, m1[c.notification.id], was)
    requires forall c :: c in live ==> Checked(host, d, c, m[c.notification.id], lost)
    ensures forall c :: c in cs ==> c.notification.id in m && Checked(host, d, c, m[c.notification.id], lost)
  {
    LiveMembers(host, cs);
    forall c | c in cs ensures c.notification.id in m && Checked(host, d, c, m[c.notification.id], lost) {
      if c !in live {
        OutsideIds(cs, live, c);
        CheckedStill(host, d, c, m1[c.notification.id], was, lost);
      }
    }
  }

  /** The message just called for can be settled, and is then gone. */
  lemma SettleClears(l1: Local, sent: seq<Candidate>, outcome: Outcome)
    requires Apart(l1) && Fresh(l1, sent)
    ensures var l := Pass(l1.open - Ids(sent), l1.doubt, Returned(Restrict(l1.open, Ids(sent)), outcome));
            && Cleared(Dropped(l, Ids(sent)), l1, Ids(sent)) && SettlingWrite(l, Ids(sent), outcome)
            && forall c :: c in sent ==> c.notification.id in l.flight.msg && l.flight.msg[c.notification.id] == c.attempts
  {
    FreshIds(l1, sent);
    assert (l1.open - Ids(sent)) - Ids(sent) == l1.open - Ids(sent);
    assert l1.doubt - Ids(sent) == l1.doubt;
    assert Restrict(l1.open, Ids(sent)) - Ids(sent) == map[];
  }

  lemma MayStart(limit: nat, l: Local, cs: seq<Candidate>, r: EmailRecords.Record)
    requires Fresh(l, cs) && r.ids == Ids(cs) && r.status == Sending && r.attempt
    ensures Permitted(limit, l, Write(r, true))
  {
  }


  datatype Finding = Current | Past | Deleted | Unknown

  /** What a read just before sending makes of a candidate. */
  function Classify(r: Reading): Finding {
    match r
    case Gone => Deleted
    case ReadFault => Unknown
    case Found(state) => if state == Active then Current else Past
  }

  function FindingOn(host: Host): Candidate -> Finding {
    (c: Candidate) => Classify(host.get(c.notification.id))
  }

  lemma SkipFates()
    ensures SkipFate("inactive") == Inactive && SkipFate("deleted") == Inactive
    ensures SkipFate("filtered") == Filtered && SkipFate("no_address") == Unaddressed
  {
    assert "inactive" != "no_address" && "deleted" != "no_address" && "filtered" != "no_address" by {
      assert |"inactive"| == 8 && |"deleted"| == 7 && |"filtered"| == 8 && |"no_address"| == 10;
    }
    assert "inactive"[0] != "filtered"[0] && |"deleted"| != |"filtered"|;
  }

  lemma FreshIds(l: Local, cs: seq<Candidate>)
    requires Fresh(l, cs)
    ensures Ids(cs) <= l.open.Keys
  {
  }

  lemma PutBoth(m: Fates, a: set<Id>, b: set<Id>, f: Fate)
    ensures Put(Put(m, a, f), b, f) == Put(m, a + b, f)
  {
  }

  /** The parts a last read leaves: three lists to go on with, and what could not be read settled. */
  lemma {:induction false} SiftedParts(
      l: Local, l0: Local, m: Fates, m0: Fates, cs: seq<Candidate>, host: Host, d: Config,
      live: seq<Candidate>, past: seq<Candidate>, deleted: seq<Candidate>)
    requires Distinct(cs) && Fresh(l0, cs) && Sifted(l, l0, m, m0, cs, |cs|, FindingOn(host), Unknown, d)
    requires live == Group(cs, FindingOn(host), Current) && past == Group(cs, FindingOn(host), Past)
    requires deleted == Group(cs, FindingOn(host), Deleted)
    ensures Distinct(live) && Distinct(past) && Distinct(deleted) && Ids(past) !! Ids(deleted)
    ensures Fresh(l, live) && Fresh(l, past) && Fresh(l, deleted)
    ensures Ids(live) !! Ids(past) + Ids(deleted)
  {
    var finding := FindingOn(host);
    SiftedRest(l, l0, m, m0, cs, finding, Unknown, Current, d);
    SiftedRest(l, l0, m, m0, cs, finding, Unknown, Past, d);
    SiftedRest(l, l0, m, m0, cs, finding, Unknown, Deleted, d);
    GroupsApart(cs, finding, Past, Deleted);
    GroupsApart(cs, finding, Deleted, Past);
    GroupsApart(cs, finding, Current, Past);
    GroupsApart(cs, finding, Current, Deleted);
  }

  /** Everything but the live ones is accounted for. */
  lemma {:induction false} PartIds(cs: seq<Candidate>, host: Host)
    requires Distinct(cs)
    ensures var finding := FindingOn(host);
            Ids(Group(cs, finding, Unknown)) + (Ids(Group(cs, finding, Past)) + Ids(Group(cs, finding, Deleted))) ==
            Ids(cs) - Ids(Group(cs, finding, Current))
    ensures Ids(Group(cs, FindingOn(host), Current)) <= Ids(cs)
    ensures Ids(Group(cs, FindingOn(host), Unknown)) !! Ids(Group(cs, FindingOn(host), Past)) + Ids(Group(cs, FindingOn(host), Deleted))
  {
    var finding := FindingOn(host);
    GroupsApart(cs, finding, Current, Past);
    GroupsApart(cs, finding, Current, Deleted);
    GroupsApart(cs, finding, Current, Unknown);
    GroupsApart(cs, finding, Past, Unknown);
    GroupsApart(cs, finding, Deleted, Unknown);
    GroupsApart(cs, finding, Unknown, Past);
    forall c | c in cs ensures c.notification.id in Ids(Group(cs, finding, finding(c))) { InItsGroup(cs, finding, c); }
  }

  lemma CurrentMeans(r: Reading)
    ensures Classify(r) == Current <==> r == Found(Active)
  {
  }

  lemma {:induction false} LiveIsGroup(cs: seq<Candidate>, host: Host)
    ensures Group(cs, FindingOn(host), Current) == EmailFates.Live(host, cs)
  {
    var active := (c: Candidate) => host.get(c.notification.id) == Found(Active);
    forall c | c in cs ensures active(c) <==> FindingOn(host)(c) == Current { CurrentMeans(host.get(c.notification.id)); }
    GroupSieve(cs, FindingOn(host), Current, active);
  }

  lemma {:induction false} RecheckedLocal(
      l: Local, l1: Local, l0: Local, m1: Fates, m0: Fates, cs: seq<Candidate>, host: Host, d: Config)
    requires Distinct(cs) && Fresh(l0, cs) && Sifted(l1, l0, m1, m0, cs, |cs|, FindingOn(host), Unknown, d)
    requires Fresh(l1, Group(cs, FindingOn(host), Current))
    requires Cleared(l, l1, Ids(Group(cs, FindingOn(host), Past)) + Ids(Group(cs, FindingOn(host), Deleted)))
    ensures var live := Group(cs, FindingOn(host), Current);
            Distinct(live) && Ids(live) <= Ids(cs) && Fresh(l, live) && Cleared(l, l0, Ids(cs) - Ids(live))
  {
    var finding := FindingOn(host);
    var live, stale := Group(cs, finding, Current), Ids(Group(cs, finding, Past)) + Ids(Group(cs, finding, Deleted));
    assert cs[..|cs|] == cs;
    PartIds(cs, host);
    ClearedTwice(l, l1, l0, Ids(Group(cs, finding, Unknown)), stale);
    GroupsApart(cs, finding, Current, Past);
    GroupsApart(cs, finding, Current, Deleted);
    StillFresh(l, l1, live, stale, live);
  }

  lemma {:induction false} RecheckedRuled(
      l1: Local, l0: Local, m: Fates, m1: Fates, m0: Fates, cs: seq<Candidate>, host: Host, d: Config)
    requires Distinct(cs) && Sifted(l1, l0, m1, m0, cs, |cs|, FindingOn(host), Unknown, d)
    requires m == Put(m1, Ids(Group(cs, FindingOn(host), Past)) + Ids(Group(cs, FindingOn(host), Deleted)), Inactive)
    ensures Ruled(m0, m, Ids(cs) - Ids(Group(cs, FindingOn(host), Current)))
  {
    var finding := FindingOn(host);
    assert cs[..|cs|] == cs;
    PartIds(cs, host);
    RuledTwice(m0, m1, m, Ids(Group(cs, finding, Unknown)), Ids(Group(cs, finding, Past)) + Ids(Group(cs, finding, Deleted)));
  }

  lemma {:induction false} RecheckedFates(
      l1: Local, l0: Local, m: Fates, m1: Fates, m0: Fates, cs: seq<Candidate>, host: Host, d: Config, lost: bool)
    requires Distinct(cs) && Sifted(l1, l0, m1, m0, cs, |cs|, FindingOn(host), Unknown, d)
    requires m == Put(m1, Ids(Group(cs, FindingOn(host), Past)) + Ids(Group(cs, FindingOn(host), Deleted)), Inactive)
    ensures forall c :: c in cs && c !in Group(cs, FindingOn(host), Current) ==>
              c.notification.id in m && Checked(host, d, c, m[c.notification.id], lost)
  {
    assert cs[..|cs|] == cs;
    forall c | c in cs && c !in Group(cs, FindingOn(host), Current)
      ensures c.notification.id in m && Checked(host, d, c, m[c.notification.id], lost)
    {
      RecheckedOne(m, m1, cs, host, d, c, lost);
    }
  }

  lemma {:induction false} RecheckedOne(m: Fates, m1: Fates, cs: seq<Candidate>, host: Host, d: Config, c: Candidate, lost: bool)
    requires Distinct(cs) && c in cs && c !in Group(cs, FindingOn(host), Current)
    requires forall b :: b in Group(cs, FindingOn(host), Unknown) ==>
               b.notification.id in m1 && m1[b.notification.id] == Attempted(b.attempts + 1, d.attempts)
    requires m == Put(m1, Ids(Group(cs, FindingOn(host), Past)) + Ids(Group(cs, FindingOn(host), Deleted)), Inactive)
    ensures c.notification.id in m && Checked(host, d, c, m[c.notification.id], lost)
  {
    var finding := FindingOn(host);
    InItsGroup(cs, finding, c);
    if finding(c) == Unknown {
      GroupsApart(cs, finding, Unknown, Past);
      GroupsApart(cs, finding, Unknown, Deleted);
    }
  }

  /** What a reason for skipping counts as. */
  function SkipFate(reason: string): Fate {
    FateOf(Writing(Skipped).(reason := reason))
  }

  /** The candidates whose attempts are among `ks` were retried or given up, as their attempts say. */
  ghost predicate RetriedAs(m: Fates, cs: seq<Candidate>, made: Candidate -> nat, ks: seq<nat>, limit: nat) {
    forall c :: c in cs && made(c) in ks ==> c.notification.id in m && m[c.notification.id] == Attempted(made(c), limit)
  }

  lemma {:induction false} RetriedMore(
      m: Fates, n: Fates, cs: seq<Candidate>, made: Candidate -> nat, ks: seq<nat>, k: nat, group: seq<Candidate>, limit: nat)
    requires Distinct(cs) && RetriedAs(m, cs, made, ks, limit) && n == Put(m, Ids(group), Attempted(k, limit))
    requires forall c :: c in group <==> c in cs && made(c) == k
    ensures RetriedAs(n, cs, made, ks + [k], limit)
  {
    forall c | c in cs && made(c) in ks + [k]
      ensures c.notification.id in n && n[c.notification.id] == Attempted(made(c), limit)
    {
      if c.notification.id in Ids(group) {
        var b :| b in group && b.notification.id == c.notification.id;
        SameCandidate(cs, b, c);
      }
    }
  }

  lemma {:induction false} RetryMore(
      l: Local, l0: Local, m: Fates, n: Fates, m0: Fates, cs: seq<Candidate>, made: Candidate -> nat,
      counts: seq<nat>, j: nat, group: seq<Candidate>, limit: nat)
    requires Distinct(cs) && NoRepeats(counts) && j < |counts| && group == Group(cs, made, counts[j])
    requires Dealt(l, l0, m, m0, cs, made, counts[..j])
    requires RetriedAs(m, cs, made, counts[..j], limit) && n == Put(m, Ids(group), Attempted(counts[j], limit))
    ensures Dealt(Dropped(l, Ids(group)), l0, n, m0, cs, made, counts[..j + 1])
    ensures RetriedAs(n, cs, made, counts[..j + 1], limit)
  {
    DealtMore(l, l0, m, n, m0, cs, made, counts, j, group);
    GroupMembers(cs, made, counts[j]);
    assert counts[..j + 1] == counts[..j] + [counts[j]];
    RetriedMore(m, n, cs, made, counts[..j], counts[j], group, limit);
  }

  // ---------------------------------------------------------------- what the counters and messages mean

  /** The claimed notifications the host's filter refused. */
  ghost function FilteredOut(host: Host, cs: seq<Candidate>): set<Id> {
    set c | c in cs && !Doubtful(c) && host.shouldEmail(c.notification.id) == No :: c.notification.id
  }

  /** Those let through whose recipient has no address. */
  ghost function WithoutAddress(host: Host, cs: seq<Candidate>): set<Id> {
    set c | c in cs && !Doubtful(c) && host.shouldEmail(c.notification.id) == Yes &&
            host.addressOf(c.notification.recipient) == NoAddress :: c.notification.id
  }

  /** Those let through and addressed that the message had room for but the last read found read, closed or gone. */
  ghost function NoLongerActive(host: Host, d: Config, cs: seq<Candidate>): set<Id> {
    set c | c in cs && !Doubtful(c) && host.addressOf(c.notification.recipient).Address? && Within(host, d, cs, c) &&
            host.get(c.notification.id) != ReadFault && host.get(c.notification.id) != Found(Active) :: c.notification.id
  }

  lemma {:induction false} QueueMembers(host: Host, cs: seq<Candidate>, r: string)
    ensures forall c :: c in Queue(host, cs, r) <==>
              c in cs && !Doubtful(c) && c.notification.recipient == r && host.shouldEmail(c.notification.id) == Yes
  {
    if cs != [] {
      var init, last := cs[..|cs| - 1], cs[|cs| - 1];
      QueueMembers(host, init, r);
      assert cs == init + [last];
    }
  }

  /** Which answers lead to a skip. */
  lemma {:induction false} SkipMeans(host: Host, d: Config, cs: seq<Candidate>, c: Candidate, f: Fate, lost: bool)
    requires Expected(host, d, c, Within(host, d, cs, c), f, lost)
    ensures f == Filtered <==> !Doubtful(c) && host.shouldEmail(c.notification.id) == No
    ensures f == Unaddressed <==>
            !Doubtful(c) && host.shouldEmail(c.notification.id) == Yes && host.addressOf(c.notification.recipient) == NoAddress
    ensures f == Inactive <==>
            !Doubtful(c) && host.addressOf(c.notification.recipient).Address? && Within(host, d, cs, c) &&
            host.get(c.notification.id) != ReadFault && host.get(c.notification.id) != Found(Active)
  {
    QueueMembers(host, cs, c.notification.recipient);
  }

  /** Each skip counter counts exactly the notifications its cause names. */
  lemma {:induction false} SkipsExact(m: Fates, r: DispatchResult, host: Host, d: Config, cs: seq<Candidate>, lost: bool)
    requires m.Keys == Ids(cs) && Tallies(r, m) && forall c :: c in cs ==> Right(m, host, d, cs, c, lost)
    ensures r.skippedFiltered == |FilteredOut(host, cs)| && r.skippedNoAddress == |WithoutAddress(host, cs)|
    ensures r.skippedInactive == |NoLongerActive(host, d, cs)|
  {
    FilteredExact(m, host, d, cs, lost);
    UnaddressedExact(m, host, d, cs, lost);
    InactiveExact(m, host, d, cs, lost);
  }

  lemma {:induction false} FilteredExact(m: Fates, host: Host, d: Config, cs: seq<Candidate>, lost: bool)
    requires m.Keys == Ids(cs) && forall c :: c in cs ==> Right(m, host, d, cs, c, lost)
    ensures With(m, Filtered) == FilteredOut(host, cs)
  {
    forall id ensures id in With(m, Filtered) <==> id in FilteredOut(host, cs) {
      if id in m { SkipsOne(m, host, d, cs, id, lost); }
    }
  }

  lemma {:induction false} UnaddressedExact(m: Fates, host: Host, d: Config, cs: seq<Candidate>, lost: bool)
    requires m.Keys == Ids(cs) && forall c :: c in cs ==> Right(m, host, d, cs, c, lost)
    ensures With(m, Unaddressed) == WithoutAddress(host, cs)
  {
    forall id ensures id in With(m, Unaddressed) <==> id in WithoutAddress(host, cs) {
      if id in m { SkipsOne(m, host, d, cs, id, lost); }
    }
  }

  lemma {:induction false} InactiveExact(m: Fates, host: Host, d: Config, cs: seq<Candidate>, lost: bool)
    requires m.Keys == Ids(cs) && forall c :: c in cs ==> Right(m, host, d, cs, c, lost)
    ensures With(m, Inactive) == NoLongerActive(host, d, cs)
  {
    forall id ensures id in With(m, Inactive) <==> id in NoLongerActive(host, d, cs) {
      if id in m { SkipsOne(m, host, d, cs, id, lost); }
    }
  }

  lemma {:induction false} SkipsOne(m: Fates, host: Host, d: Config, cs: seq<Candidate>, id: Id, lost: bool)
    requires id in m && m.Keys == Ids(cs) && forall c :: c in cs ==> Right(m, host, d, cs, c, lost)
    ensures m[id] == Filtered <==> id in FilteredOut(host, cs)
    ensures m[id] == Unaddressed <==> id in WithoutAddress(host, cs)
    ensures m[id] == Inactive <==> id in NoLongerActive(host, d, cs)
  {
    forall c | c in cs && c.notification.id == id
      ensures m[id] == Filtered <==> !Doubtful(c) && host.shouldEmail(id) == No
      ensures m[id] == Unaddressed <==>
              !Doubtful(c) && host.shouldEmail(id) == Yes && host.addressOf(c.notification.recipient) == NoAddress
      ensures m[id] == Inactive <==>
              !Doubtful(c) && host.addressOf(c.notification.recipient).Address? && Within(host, d, cs, c) &&
              host.get(id) != ReadFault && host.get(id) != Found(Active)
    {
      assert Right(m, host, d, cs, c, lost);
      SkipMeans(host, d, cs, c, m[id], lost);
    }
    var c :| c in cs && c.notification.id == id;
  }

  /** The recipient wants it, can be reached, and has not seen it yet. */
  predicate Ready(host: Host, c: Candidate) {
    && host.shouldEmail(c.notification.id) == Yes
    && host.addressOf(c.notification.recipient).Address?
    && host.get(c.notification.id) == Found(Active)
  }

  /** No message holds a notification that was not claimed afresh and ready to be mailed. */
  lemma {:induction false} OnlyReadySent(host: Host, d: Config, cs: seq<Candidate>, ms: seq<Message>, lost: bool, k: nat, id: Id)
    requires PostedExactly(host, d, cs, ms, lost) && k < |ms| && id in ms[k].ids
    ensures exists c :: c in cs && c.notification.id == id && !Doubtful(c) && Ready(host, c)
  {
    var rs: seq<string> :| NoRepeats(rs) && (forall r :: r in rs <==> Mails(host, d, cs, r)) && Posted(host, d, cs, rs, ms, lost);
    assert MessageFor(host, d, cs, rs[k], ms[k], lost);
    var first := FirstOf(Queue(host, cs, rs[k]), d.batch);
    LiveMembers(host, first);
    QueueMembers(host, cs, rs[k]);
    var c :| c in EmailFates.Live(host, first) && c.notification.id == id;
    assert c in Queue(host, cs, rs[k]);
  }
}
