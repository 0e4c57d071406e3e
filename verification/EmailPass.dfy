/**
 * One AtMostOnce dispatch pass, as the dispatcher runs it (notify/email_dispatcher.go). The shared
 * store and the host's ports answer as they like; whatever they answer, the pass stays inside
 * `EmailAutomaton`, and every notification it claimed meets the fate those answers demand.
 */
module EmailPass {
  import opened Basics
  import opened Notifications
  import opened EmailRecords
  import opened EmailAutomaton
  import opened EmailGroups
  import opened EmailFates
  import opened EmailStanding
  import opened EmailRounds

  class Dispatcher {
    const d: Config
    const host: Host
    const now: Time
    var result: DispatchResult
    var writes: nat
    /** The automaton's starting point, what the pass did since, and where that leaves it. */
    ghost const start: Local
    ghost var trace: seq<Action>
    ghost var local: Local
    /** What that says of each notification and each message. */
    ghost var fates: Fates
    ghost var messages: seq<Message>

    ghost predicate Valid()
      reads this
    {
      && d.attempts >= 1
      && Apart(start) && Landed(start)
      && Accepts(d.attempts, start, trace)
      && After(start, trace) == local
      && Owned(trace, d.owner) && Paced(trace, d, now, start.open)
      && Apart(local) && Carries(local, start.open)
      && fates == FatesOf(trace) && messages == MessagesOf(trace)
    }

    ghost predicate Tallied()
      reads this
    {
      Tallies(result, fates)
    }

    /** Some row could not be written. */
    ghost predicate Lost()
      reads this
    {
      result.unrecorded > 0
    }

    constructor (d: Config, host: Host, now: Time, ghost start: Local)
      requires d.attempts >= 1 && Apart(start) && Landed(start)
      ensures Valid() && Tallied() && this.d == d && this.host == host && this.now == now
      ensures local == this.start == start && fates == map[] && messages == []
    {
      this.d, this.host, this.now := d, host, now;
      result, writes := DispatchResult(0, 0, 0, 0, 0, 0, 0, 0, 0, 0), 0;
      this.start, local, trace, fates, messages := start, start, [], map[], [];
    }

    function Stamped(cs: seq<Candidate>, r: EmailRecords.Record): EmailRecords.Record {
      r.(owner := d.owner, ids := Ids(cs), at := now)
    }

    /** The automaton takes one action. */
    ghost method Did(a: Action)
      requires Valid() && Permitted(d.attempts, local, a)
      requires a.Write? ==> a.record.owner == d.owner && Timely(a.record, d, now, start.open)
      modifies this`trace, this`local, this`fates, this`messages
      ensures Valid() && local == Advance(old(local), a)
      ensures fates == FatesAfter(old(fates), a) && messages == MessagesAfter(old(messages), a)
    {
      AcceptsAppend(d.attempts, start, trace, a);
      ApartNext(d.attempts, local, a);
      CarriesNext(local, a, start.open);
      FatesNext(trace, a);
      MessagesNext(trace, a);
      trace, local := trace + [a], Advance(local, a);
      fates, messages := FatesAfter(fates, a), MessagesAfter(messages, a);
    }

    /** `emailPass.record`: writes an outcome and reports whether every row was written. */
    method Record(cs: seq<Candidate>, r: EmailRecords.Record) returns (whole: bool)
      requires Valid() && cs != [] && Permitted(d.attempts, local, Write(Stamped(cs, r), true))
      requires Timely(Stamped(cs, r), d, now, start.open)
      modifies this
      ensures Valid() && local == Advance(old(local), Write(Stamped(cs, r), whole)) && fates == Put(old(fates), Ids(cs), FateOf(r))
      ensures messages == old(messages) + if r.status == Sending then [Message(Ids(cs), r.batchId, None)] else []
      ensures result == old(result).(unrecorded := result.unrecorded)
      ensures if whole then result.unrecorded == old(result.unrecorded) else result.unrecorded > old(result.unrecorded)
    {
      var answer := host.record(writes);
      writes := writes + 1;
      match answer {
        case None =>
          result := result.(unrecorded := result.unrecorded + |cs|);
          whole := false;
        case Some(changed) =>
          if changed < |cs| {
            result := result.(unrecorded := result.unrecorded + (|cs| - changed));
            whole := false;
          } else {
            whole := true;
          }
      }
      SameFate(cs, r);
      Did(Write(Stamped(cs, r), whole));
    }

    lemma SameFate(cs: seq<Candidate>, r: EmailRecords.Record)
      ensures FateOf(Stamped(cs, r)) == FateOf(r)
    {
    }

    /** Records an outcome that ends candidates' part in the pass, none of which had one. */
    method Tell(cs: seq<Candidate>, r: EmailRecords.Record)
      requires Valid() && cs != [] && r.status != Sending && Permitted(d.attempts, local, Write(Stamped(cs, r), true))
      requires Timely(Stamped(cs, r), d, now, start.open)
      modifies this
      ensures Valid() && messages == old(messages) && local == Dropped(old(local), Ids(cs)) && fates == Put(old(fates), Ids(cs), FateOf(r))
      ensures result == old(result).(unrecorded := result.unrecorded) && old(result.unrecorded) <= result.unrecorded
      ensures forall id :: id in Ids(cs) && id in old(fates) ==> old(fates)[id] == Started
    {
      Untold(d.attempts, start, trace, Stamped(cs, r));
      WriteDrops(local, Stamped(cs, r), true);
      WriteDrops(local, Stamped(cs, r), false);
      var _ := Record(cs, r);
    }

    /** Records an outcome for candidates not dealt with yet. */
    method TellFresh(cs: seq<Candidate>, r: EmailRecords.Record)
      requires Valid() && cs != [] && Fresh(local, cs) && (r.status == Skipped || r.status == Claimed || r.status == Failed) && !r.attempt
      modifies this
      ensures Valid() && messages == old(messages) && local == Dropped(old(local), Ids(cs)) && fates == Put(old(fates), Ids(cs), FateOf(r))
      ensures result == old(result).(unrecorded := result.unrecorded) && old(result.unrecorded) <= result.unrecorded
      ensures forall id :: id in Ids(cs) && id in old(fates) ==> old(fates)[id] == Started
    {
      MayTell(d.attempts, local, cs, Stamped(cs, r));
      Tell(cs, r);
    }

    /** `emailPass.skip`: records candidates as skipped for good, and counts them. */
    method Skip(cs: seq<Candidate>, reason: string)
      requires Valid() && Tallied() && Distinct(cs) && Fresh(local, cs)
      modifies this
      ensures Valid() && Tallied() && messages == old(messages) && Kept(old(result), result)
      ensures local == Dropped(old(local), Ids(cs)) && fates == Put(old(fates), Ids(cs), SkipFate(reason))
    {
      if cs == [] {
        DroppedNothing(local);
        assert Put(fates, {}, SkipFate(reason)) == fates;
        return;
      }
      SkipSome(cs, reason);
    }

    method SkipSome(cs: seq<Candidate>, reason: string)
      requires Valid() && Tallied() && Distinct(cs) && cs != [] && Fresh(local, cs)
      modifies this
      ensures Valid() && Tallied() && messages == old(messages) && Kept(old(result), result)
      ensures local == Dropped(old(local), Ids(cs)) && fates == Put(old(fates), Ids(cs), SkipFate(reason))
    {
      TellFresh(cs, Writing(Skipped).(reason := reason));
      ghost var was := result;
      CountSkipped(reason, |cs|);
      IdsCount(cs);
      PutTallies(was, result, old(fates), Ids(cs), SkipFate(reason));
    }

    /** The counter a reason for skipping belongs to. */
    method CountSkipped(reason: string, n: nat)
      modifies this`result
      ensures result == Bumped(old(result), SkipFate(reason), n)
      ensures result.claimed == old(result.claimed) && result.unrecorded == old(result.unrecorded) && result.messages == old(result.messages)
    {
      match reason {
        case "no_address" => result := result.(skippedNoAddress := result.skippedNoAddress + n);
        case "filtered" => result := result.(skippedFiltered := result.skippedFiltered + n);
        case _ => result := result.(skippedInactive := result.skippedInactive + n);
      }
    }

    /** `emailPass.fail`: records candidates as failed for good. */
    method Fail(cs: seq<Candidate>, cause: string)
      requires Valid() && Tallied() && Distinct(cs) && cs != [] && (Fresh(local, cs) || SettlingWrite(local, Ids(cs), Rejected))
      modifies this
      ensures Valid() && Tallied() && messages == old(messages) && Kept(old(result), result)
      ensures local == Dropped(old(local), Ids(cs)) && fates == Put(old(fates), Ids(cs), GivenUp)
    {
      TellFailed(cs, Writing(Failed).(reason := cause));
      ghost var was := result;
      result := result.(failed := result.failed + |cs|);
      IdsCount(cs);
      PutTallies(was, result, old(fates), Ids(cs), GivenUp);
    }

    /** Records candidates as failed, before a call or after its rejection. */
    method TellFailed(cs: seq<Candidate>, r: EmailRecords.Record)
      requires Valid() && cs != [] && r.status == Failed && !r.attempt
      requires Fresh(local, cs) || SettlingWrite(local, Ids(cs), Rejected)
      modifies this
      ensures Valid() && messages == old(messages) && local == Dropped(old(local), Ids(cs)) && fates == Put(old(fates), Ids(cs), GivenUp)
      ensures result == old(result).(unrecorded := result.unrecorded) && old(result.unrecorded) <= result.unrecorded
      ensures forall id :: id in Ids(cs) && id in old(fates) ==> old(fates)[id] == Started
    {
      if Fresh(local, cs) {
        MayTell(d.attempts, local, cs, Stamped(cs, r));
      }
      Tell(cs, r);
    }

    /** `emailPass.retry`: another attempt, or failure for the ones that used theirs up. */
    method Retry(cs: seq<Candidate>, cause: string, countAttempt: bool)
      requires Valid() && Tallied() && Distinct(cs)
      requires if countAttempt then Fresh(local, cs) else Refused(local, cs)
      modifies this
      ensures Valid() && Tallied() && messages == old(messages) && Kept(old(result), result)
      ensures local == Dropped(old(local), Ids(cs)) && Ruled(old(fates), fates, Ids(cs))
      ensures forall c :: c in cs ==> fates[c.notification.id] == Attempted(Made(c, countAttempt), d.attempts)
    {
      var made: Candidate -> nat := (c: Candidate) => Made(c, countAttempt);
      var counts: seq<nat>, byAttempts: map<nat, seq<Candidate>> := GroupBy(cs, made);
      DealtNone(local, fates, cs, made, counts);
      for j := 0 to |counts|
        invariant Valid() && Tallied() && messages == old(messages) && Kept(old(result), result)
        invariant Dealt(local, old(local), fates, old(fates), cs, made, counts[..j])
        invariant RetriedAs(fates, cs, made, counts[..j], d.attempts)
      {
        GroupedAt(cs, made, counts, byAttempts, j);
        var group := byAttempts[counts[j]];
        GroupMembers(cs, made, counts[j]);
        DealtFresh(local, old(local), fates, old(fates), cs, made, counts, j, group);
        ghost var l, m := local, fates;
        RetryGroup(group, counts[j], cause, countAttempt);
        RetryMore(l, old(local), m, fates, old(fates), cs, made, counts, j, group, d.attempts);
      }
      DealtAll(local, old(local), fates, old(fates), cs, made, counts, byAttempts);
      GroupedKeys(cs, made, counts, byAttempts);
      assert counts[..|counts|] == counts;
    }

    /** One group of `retry`, all on the same attempt. */
    method RetryGroup(group: seq<Candidate>, made: nat, cause: string, countAttempt: bool)
      requires Valid() && Tallied() && Distinct(group) && group != []
      requires if countAttempt then Fresh(local, group) else Refused(local, group)
      requires forall c :: c in group ==> made == Made(c, countAttempt)
      modifies this
      ensures Valid() && Tallied() && messages == old(messages) && Kept(old(result), result)
      ensures local == Dropped(old(local), Ids(group)) && fates == Put(old(fates), Ids(group), Attempted(made, d.attempts))
    {
      var failed := made >= d.attempts;
      var record := Writing(Failed).(reason := cause, attempt := countAttempt);
      if !failed {
        record := Writing(Status.Retry).(reason := cause, nextAttemptAt := Some(now + d.delay(made)), attempt := countAttempt);
      }
      TellRetried(group, record, made);
      ghost var was := result;
      CountRetried(failed, |group|);
      IdsCount(group);
      PutTallies(was, result, old(fates), Ids(group), Attempted(made, d.attempts));
    }

    method CountRetried(failed: bool, n: nat)
      modifies this`result
      ensures result == Bumped(old(result), if failed then GivenUp else Rescheduled, n)
      ensures result.claimed == old(result.claimed) && result.unrecorded == old(result.unrecorded) && result.messages == old(result.messages)
    {
      if failed {
        result := result.(failed := result.failed + n);
      } else {
        result := result.(retried := result.retried + n);
      }
    }

    /** Records what a failed attempt leads to. */
    method TellRetried(group: seq<Candidate>, r: EmailRecords.Record, ghost made: nat)
      requires Valid() && group != [] && (if r.attempt then Fresh(local, group) else Refused(local, group))
      requires forall c :: c in group ==> made == Made(c, r.attempt)
      requires r.status == if made >= d.attempts then Failed else Status.Retry
      requires made < d.attempts ==> r.nextAttemptAt == Some(now + d.delay(made))
      modifies this
      ensures Valid() && messages == old(messages) && local == Dropped(old(local), Ids(group))
      ensures fates == Put(old(fates), Ids(group), Attempted(made, d.attempts))
      ensures result == old(result).(unrecorded := result.unrecorded) && old(result.unrecorded) <= result.unrecorded
      ensures forall id :: id in Ids(group) && id in old(fates) ==> old(fates)[id] == Started
    {
      MayRetry(d.attempts, local, group, Stamped(group, r), made);
      RetryTimely(local, group, Stamped(group, r), d, now, start.open, made);
      Tell(group, r);
    }

    /** Records a send in doubt as never to be repeated. */
    method TellAbandoned(cs: seq<Candidate>, r: EmailRecords.Record)
      requires Valid() && cs != [] && r.status == Abandoned && !r.attempt
      requires (!Busy(local.flight) && Ids(cs) <= local.doubt) || SettlingWrite(local, Ids(cs), InDoubt)
      modifies this
      ensures Valid() && messages == old(messages) && local == Dropped(old(local), Ids(cs)) && fates == Put(old(fates), Ids(cs), Doubted)
      ensures result == old(result).(unrecorded := result.unrecorded) && old(result.unrecorded) <= result.unrecorded
      ensures forall id :: id in Ids(cs) && id in old(fates) ==> old(fates)[id] == Started
    {
      MayAbandon(d.attempts, local, Stamped(cs, r));
      Tell(cs, r);
    }

    /** Records a send in doubt as never to be repeated, and counts it. */
    method Abandon(cs: seq<Candidate>, reason: string)
      requires Valid() && Tallied() && Distinct(cs) && cs != []
      requires (!Busy(local.flight) && Ids(cs) <= local.doubt) || SettlingWrite(local, Ids(cs), InDoubt)
      modifies this
      ensures Valid() && Tallied() && messages == old(messages) && Kept(old(result), result)
      ensures local == Dropped(old(local), Ids(cs)) && fates == Put(old(fates), Ids(cs), Doubted)
    {
      TellAbandoned(cs, Writing(Abandoned).(reason := reason));
      ghost var was := result;
      CountAbandoned(|cs|);
      IdsCount(cs);
      PutTallies(was, result, old(fates), Ids(cs), Doubted);
    }

    method CountAbandoned(n: nat)
      modifies this`result
      ensures result == Bumped(old(result), Doubted, n)
      ensures result.claimed == old(result.claimed) && result.unrecorded == old(result.unrecorded) && result.messages == old(result.messages)
    {
      result := result.(abandoned := result.abandoned + n);
    }

    /** `emailPass.resolveDoubt` under AtMostOnce: a send in doubt is never repeated. */
    method ResolveDoubt(cs: seq<Candidate>)
      requires Valid() && Tallied() && Distinct(cs) && cs != [] && !Busy(local.flight) && Ids(cs) <= local.doubt
      modifies this
      ensures Valid() && Tallied() && messages == old(messages) && Kept(old(result), result)
      ensures local == Dropped(old(local), Ids(cs)) && Marked(old(fates), fates, Ids(cs), Doubted)
    {
      PutMarks(fates, Ids(cs), Doubted);
      Abandon(cs, "the send is in doubt");
    }

    // -------------------------------------------------------------- recheck

    /** Reads each candidate again; one that cannot be read is retried. */
    method ReadEach(cs: seq<Candidate>) returns (live: seq<Candidate>, past: seq<Candidate>, deleted: seq<Candidate>)
      requires Valid() && Tallied() && Distinct(cs) && Fresh(local, cs)
      modifies this
      ensures Valid() && Tallied() && messages == old(messages) && Kept(old(result), result)
      ensures Sifted(local, old(local), fates, old(fates), cs, |cs|, FindingOn(host), Unknown, d)
      ensures live == Group(cs, FindingOn(host), Current) && past == Group(cs, FindingOn(host), Past)
      ensures deleted == Group(cs, FindingOn(host), Deleted)
    {
      var finding := FindingOn(host);
      live, past, deleted := [], [], [];
      SiftedNone(local, fates, cs, finding, Unknown, d);
      for i := 0 to |cs|
        invariant Valid() && Tallied() && messages == old(messages) && Kept(old(result), result)
        invariant Sifted(local, old(local), fates, old(fates), cs, i, finding, Unknown, d)
        invariant live == Group(cs[..i], finding, Current) && past == Group(cs[..i], finding, Past)
        invariant deleted == Group(cs[..i], finding, Deleted)
      {
        GroupSnoc(cs, i, finding, Current);
        GroupSnoc(cs, i, finding, Past);
        GroupSnoc(cs, i, finding, Deleted);
        match finding(cs[i]) {
          case Unknown =>
            RetryOne(cs, i, finding, Unknown, "read", old(local), old(fates));
          case Current =>
            SiftedGood(local, old(local), fates, old(fates), cs, i, finding, Unknown, d);
            live := live + [cs[i]];
          case Past =>
            SiftedGood(local, old(local), fates, old(fates), cs, i, finding, Unknown, d);
            past := past + [cs[i]];
          case Deleted =>
            SiftedGood(local, old(local), fates, old(fates), cs, i, finding, Unknown, d);
            deleted := deleted + [cs[i]];
        }
      }
      assert cs[..|cs|] == cs;
    }

    /** A candidate the loop cannot decide on is retried on its own. */
    method RetryOne<K(!new)>(
        cs: seq<Candidate>, i: nat, ghost key: Candidate -> K, ghost bad: K, cause: string, ghost l0: Local, ghost m0: Fates)
      requires Valid() && Tallied() && Distinct(cs) && Fresh(l0, cs)
      requires i < |cs| && Sifted(local, l0, fates, m0, cs, i, key, bad, d) && key(cs[i]) == bad
      modifies this
      ensures Valid() && Tallied() && messages == old(messages) && Kept(old(result), result)
      ensures Sifted(local, l0, fates, m0, cs, i + 1, key, bad, d)
    {
      SiftedBad(local, l0, fates, m0, cs, i, key, bad, d);
      ghost var l, m := local, fates;
      assert Ids([cs[i]]) == {cs[i].notification.id};
      Retry([cs[i]], cause, true);
      assert cs[i] in [cs[i]];
      SiftedMore(l, local, l0, m, fates, m0, cs, i, key, bad, d);
    }

    /** Skips what was read, closed or deleted since the claim. */
    method SkipStale(past: seq<Candidate>, deleted: seq<Candidate>)
      requires Valid() && Tallied() && Distinct(past) && Distinct(deleted) && Ids(past) !! Ids(deleted)
      requires Fresh(local, past) && Fresh(local, deleted)
      modifies this
      ensures Valid() && Tallied() && messages == old(messages) && Kept(old(result), result)
      ensures Cleared(local, old(local), Ids(past) + Ids(deleted))
      ensures fates == Put(old(fates), Ids(past) + Ids(deleted), Inactive)
    {
      SkipFates();
      FreshIds(local, past);
      DroppedClears(local, Ids(past));
      Skip(past, "inactive");
      ghost var l1 := local;
      StillFresh(local, old(local), deleted, Ids(past), deleted);
      DroppedClears(local, Ids(deleted));
      Skip(deleted, "deleted");
      ClearedTwice(local, l1, old(local), Ids(past), Ids(deleted));
      PutBoth(old(fates), Ids(past), Ids(deleted), Inactive);
    }

    /** `emailPass.recheck`: drops candidates read, closed or deleted since the claim. */
    method Recheck(cs: seq<Candidate>) returns (live: seq<Candidate>)
      requires Valid() && Tallied() && Distinct(cs) && Fresh(local, cs)
      modifies this
      ensures Valid() && Tallied() && messages == old(messages) && Kept(old(result), result)
      ensures live == EmailFates.Live(host, cs)
      ensures Distinct(live) && Ids(live) <= Ids(cs) && Fresh(local, live)
      ensures Cleared(local, old(local), Ids(cs) - Ids(live)) && Ruled(old(fates), fates, Ids(cs) - Ids(live))
      ensures forall c :: c in cs && c !in live ==> c.notification.id in fates && Checked(host, d, c, fates[c.notification.id], Lost())
    {
      var past, deleted;
      live, past, deleted := ReadEach(cs);
      ghost var l1, m1 := local, fates;
      SiftedParts(l1, old(local), m1, old(fates), cs, host, d, live, past, deleted);
      SkipStale(past, deleted);
      LiveIsGroup(cs, host);
      RecheckedLocal(local, l1, old(local), m1, old(fates), cs, host, d);
      RecheckedRuled(l1, old(local), fates, m1, old(fates), cs, host, d);
      RecheckedFates(l1, old(local), fates, m1, old(fates), cs, host, d, Lost());
    }

    // -------------------------------------------------------------- send

    /** Hands the armed message to the mailer. */
    method Call(recipient: string) returns (outcome: Outcome)
      requires Valid() && local.flight.Armed? && messages != []
      modifies this
      ensures Valid() && outcome == host.send(recipient) && fates == old(fates) && result == old(result)
      ensures local == old(local).(flight := Returned(old(local.flight.msg), outcome))
      ensures messages == old(messages)[..|old(messages)| - 1] + [old(messages)[|old(messages)| - 1].(answer := Some(outcome))]
    {
      Did(Begin);
      outcome := host.send(recipient);
      Did(End(outcome));
    }

    /** Records that a message is starting, before anything is sent. */
    method TellStarted(live: seq<Candidate>, key: string) returns (whole: bool)
      requires Valid() && live != [] && Fresh(local, live)
      modifies this
      ensures Valid() && fates == Put(old(fates), Ids(live), Started) && messages == old(messages) + [Message(Ids(live), key, None)]
      ensures result == old(result).(unrecorded := result.unrecorded) && old(result.unrecorded) <= result.unrecorded
      ensures forall id :: id in Ids(live) && id in old(fates) ==> old(fates)[id] == Started
      ensures local == Pass(old(local).open - Ids(live), old(local).doubt,
                            if whole then Armed(Restrict(old(local).open, Ids(live))) else Grounded)
      ensures whole || Lost()
    {
      var record := Writing(Sending).(batchId := key, attempt := true);
      MayStart(d.attempts, local, live, Stamped(live, record));
      Untold(d.attempts, start, trace, Stamped(live, record));
      whole := Record(live, record);
    }

    /** Records that a message is starting, then calls the mailer, and says how that went. */
    method Hand(recipient: string, live: seq<Candidate>, key: string) returns (outcome: Option<Outcome>)
      requires Valid() && Tallied() && live != [] && Fresh(local, live)
      requires host.newId(recipient) == Some(key) && host.render(recipient)
      modifies this
      ensures Valid() && Tallied() && Kept(old(result), result) && fates == Put(old(fates), Ids(live), Started)
      ensures Mailing(old(messages), messages, host, recipient, Ids(live), Lost())
      ensures outcome.None? ==> Lost() && Cleared(local, old(local), Ids(live))
      ensures outcome.Some? ==>
                outcome.value == host.send(recipient) &&
                local == Pass(old(local).open - Ids(live), old(local).doubt, Returned(Restrict(old(local).open, Ids(live)), outcome.value))
    {
      // Committed before the send, so that a pass that stops mid-send leaves it in doubt.
      var started := TellStarted(live, key);
      StartTallies(old(result), result, old(fates), Ids(live));
      assert live[0].notification.id in Ids(live);
      if !started {
        return None;
      }
      var answer := Call(recipient);
      return Some(answer);
    }

    /** Records the outcome of a call. */
    method Settle(sent: seq<Candidate>, outcome: Outcome, ghost l1: Local)
      requires Valid() && Tallied() && Distinct(sent) && sent != [] && Apart(l1) && Fresh(l1, sent)
      requires local == Pass(l1.open - Ids(sent), l1.doubt, Returned(Restrict(l1.open, Ids(sent)), outcome))
      modifies this
      ensures Valid() && Tallied() && messages == old(messages) && Kept(old(result), result)
      ensures Cleared(local, l1, Ids(sent)) && Ruled(old(fates), fates, Ids(sent))
      ensures forall c :: c in sent ==> fates[c.notification.id] == EndFate(outcome, d, c)
    {
      SettleClears(l1, sent, outcome);
      PutRules(fates, sent, if outcome.NotSent? then Rescheduled else EndFate(outcome, d, sent[0]));
      match outcome {
        case Accepted => RecordSent(sent);
        case Rejected => Fail(sent, "rejected");
        case InDoubt => Abandon(sent, "in doubt");
        case NotSent => RetrySent(sent);
      }
    }

    /** Records an accepted message. */
    method RecordSent(sent: seq<Candidate>)
      requires Valid() && Tallied() && Distinct(sent) && sent != [] && SettlingWrite(local, Ids(sent), Accepted)
      modifies this
      ensures Valid() && Tallied() && messages == old(messages) && Kept(old(result), result)
      ensures local == Dropped(old(local), Ids(sent)) && fates == Put(old(fates), Ids(sent), Mailed)
    {
      Tell(sent, Writing(Sent));
      ghost var was := result;
      result := result.(sent := result.sent + |sent|, messages := result.messages + 1);
      IdsCount(sent);
      PutTallies(was, result, old(fates), Ids(sent), Mailed);
    }

    /** The SENDING record already counted this attempt. */
    method RetrySent(sent: seq<Candidate>)
      requires Valid() && Tallied() && Distinct(sent)
      requires local.flight.Returned? && local.flight.outcome == NotSent
      requires forall c :: c in sent ==> c.notification.id in local.flight.msg && local.flight.msg[c.notification.id] == c.attempts
      modifies this
      ensures Valid() && Tallied() && messages == old(messages) && Kept(old(result), result)
      ensures local == Dropped(old(local), Ids(sent)) && Ruled(old(fates), fates, Ids(sent))
      ensures forall c :: c in sent ==> fates[c.notification.id] == Attempted(c.attempts + 1, d.attempts)
    {
      var live := CountAttempt(sent);
      SameIds(live, sent);
      AttemptCounted(local, sent, live);
      Retry(live, "not sent", false);
      RetriedSent(fates, sent, live, d);
    }

    /** The message for the live candidates: rendered, named, recorded and handed over, then settled. */
    method SendLive(recipient: string, live: seq<Candidate>)
      requires Valid() && Tallied() && Distinct(live) && live != [] && Fresh(local, live)
      requires forall c :: c in live ==> c.notification.recipient == recipient && host.get(c.notification.id) == Found(Active)
      modifies this
      ensures Valid() && Tallied() && Kept(old(result), result)
      ensures Cleared(local, old(local), Ids(live)) && Ruled(old(fates), fates, Ids(live))
      ensures forall c :: c in live ==> Checked(host, d, c, fates[c.notification.id], Lost())
      ensures Mailing(old(messages), messages, host, recipient, Ids(live), Lost())
    {
      FreshIds(local, live);
      DroppedClears(local, Ids(live));
      if !host.render(recipient) {
        Fail(live, "render");
        return;
      }
      var key := host.newId(recipient);
      if key.None? {
        Retry(live, "id", true);
        return;
      }
      HandAndSettle(recipient, live, key.value);
    }

    method HandAndSettle(recipient: string, live: seq<Candidate>, key: string)
      requires Valid() && Tallied() && Distinct(live) && live != [] && Fresh(local, live)
      requires host.newId(recipient) == Some(key) && host.render(recipient)
      requires forall c :: c in live ==> c.notification.recipient == recipient
      modifies this
      ensures Valid() && Tallied() && Kept(old(result), result)
      ensures Cleared(local, old(local), Ids(live)) && Ruled(old(fates), fates, Ids(live))
      ensures forall c :: c in live ==> Ended(host, d, c, fates[c.notification.id], Lost())
      ensures Mailing(old(messages), messages, host, recipient, Ids(live), Lost())
    {
      var outcome := Hand(recipient, live, key);
      PutRules(old(fates), live, Started);
      if outcome.Some? {
        ghost var m := fates;
        Settle(live, outcome.value, old(local));
        RuledAgain(old(fates), m, fates, Ids(live));
      }
      EndedAll(host, d, recipient, live, fates, outcome, Lost());
    }

    /** `emailPass.send`: what is still ACTIVE goes out as one message. */
    method Send(recipient: string, cs: seq<Candidate>)
      requires Valid() && Tallied() && Distinct(cs) && Fresh(local, cs)
      requires forall c :: c in cs ==> c.notification.recipient == recipient
      modifies this
      ensures Valid() && Tallied() && Kept(old(result), result)
      ensures Cleared(local, old(local), Ids(cs)) && Ruled(old(fates), fates, Ids(cs))
      ensures forall c :: c in cs ==> Checked(host, d, c, fates[c.notification.id], Lost())
      ensures Mailing(old(messages), messages, host, recipient, Ids(EmailFates.Live(host, cs)), Lost())
    {
      var live := Recheck(cs);
      ghost var l1, m1, lost := local, fates, Lost();
      LiveMembers(host, cs);
      if live != [] {
        SendLive(recipient, live);
      } else {
        ClearedNothing(local);
      }
      SentWhole(local, l1, old(local), fates, m1, old(fates), Ids(cs), Ids(live));
      SentAll(host, d, cs, live, m1, fates, lost, Lost());
    }

    // -------------------------------------------------------------- deliver

    /** Hands the candidates beyond the batch limit back to the next pass. */
    method ReleaseExcess(selected: seq<Candidate>)
      requires Valid() && Tallied() && Distinct(selected) && Fresh(local, selected) && |selected| > d.batch
      modifies this
      ensures Valid() && Tallied() && messages == old(messages) && Kept(old(result), result)
      ensures Cleared(local, old(local), Ids(selected[d.batch..])) && fates == Put(old(fates), Ids(selected[d.batch..]), HandedBack)
      ensures Distinct(selected[..d.batch]) && Fresh(local, selected[..d.batch])
    {
      ExcessApart(local, selected, d.batch);
      HandBack(selected[d.batch..]);
    }

    method HandBack(excess: seq<Candidate>)
      requires Valid() && Tallied() && excess != [] && Fresh(local, excess)
      modifies this
      ensures Valid() && Tallied() && messages == old(messages) && Kept(old(result), result)
      ensures local == Dropped(old(local), Ids(excess)) && fates == Put(old(fates), Ids(excess), HandedBack)
    {
      TellFresh(excess, Writing(Claimed));
      PutTallies(old(result), result, old(fates), Ids(excess), HandedBack);
    }

    /** One message with as many as fit; the rest goes back. */
    method SendFirst(recipient: string, selected: seq<Candidate>)
      requires Valid() && Tallied() && Distinct(selected) && Fresh(local, selected)
      requires host.addressOf(recipient).Address? && forall c :: c in selected ==> c.notification.recipient == recipient
      modifies this
      ensures Valid() && Tallied() && Kept(old(result), result)
      ensures Cleared(local, old(local), Ids(selected)) && Ruled(old(fates), fates, Ids(selected))
      ensures forall c :: c in selected ==> Addressed(host, d, c, c in FirstOf(selected, d.batch), fates[c.notification.id], Lost())
      ensures Mailing(old(messages), messages, host, recipient, Ids(EmailFates.Live(host, FirstOf(selected, d.batch))), Lost())
    {
      if |selected| > d.batch {
        ReleaseExcess(selected);
        ghost var l1, m1 := local, fates;
        Send(recipient, selected[..d.batch]);
        PutMarks(old(fates), Ids(selected[d.batch..]), HandedBack);
        FirstSent(local, l1, old(local), fates, m1, old(fates), host, d, recipient, selected, Lost());
      } else {
        Send(recipient, selected);
      }
    }

    /** The second half of `deliver`: the address, the batch limit and the message. */
    method AddressAndSend(recipient: string, selected: seq<Candidate>)
      requires Valid() && Tallied() && Distinct(selected) && Fresh(local, selected)
      requires forall c :: c in selected ==> c.notification.recipient == recipient
      modifies this
      ensures Valid() && Tallied() && Kept(old(result), result)
      ensures Cleared(local, old(local), Ids(selected)) && Ruled(old(fates), fates, Ids(selected))
      ensures forall c :: c in selected ==> Addressed(host, d, c, c in FirstOf(selected, d.batch), fates[c.notification.id], Lost())
      ensures if host.addressOf(recipient).Address?
              then Mailing(old(messages), messages, host, recipient, Ids(EmailFates.Live(host, FirstOf(selected, d.batch))), Lost())
              else messages == old(messages)
    {
      match host.addressOf(recipient) {
        case LookupFault =>
          FreshIds(local, selected);
          DroppedClears(local, Ids(selected));
          Retry(selected, "address", true);
        case NoAddress =>
          FreshIds(local, selected);
          DroppedClears(local, Ids(selected));
          SkipFates();
          PutRules(fates, selected, Unaddressed);
          Skip(selected, "no_address");
        case Address(_) => SendFirst(recipient, selected);
      }
    }

    /** Asks the host's filter about each candidate; one it cannot answer for is retried. */
    method FilterEach(cs: seq<Candidate>) returns (selected: seq<Candidate>, filtered: seq<Candidate>)
      requires Valid() && Tallied() && Distinct(cs) && Fresh(local, cs)
      modifies this
      ensures Valid() && Tallied() && messages == old(messages) && Kept(old(result), result)
      ensures Sifted(local, old(local), fates, old(fates), cs, |cs|, VerdictOn(host), Fault, d)
      ensures selected == Group(cs, VerdictOn(host), Yes) && filtered == Group(cs, VerdictOn(host), No)
    {
      var verdict := VerdictOn(host);
      selected, filtered := [], [];
      SiftedNone(local, fates, cs, verdict, Fault, d);
      for i := 0 to |cs|
        invariant Valid() && Tallied() && messages == old(messages) && Kept(old(result), result)
        invariant Sifted(local, old(local), fates, old(fates), cs, i, verdict, Fault, d)
        invariant selected == Group(cs[..i], verdict, Yes) && filtered == Group(cs[..i], verdict, No)
      {
        GroupSnoc(cs, i, verdict, Yes);
        GroupSnoc(cs, i, verdict, No);
        match verdict(cs[i]) {
          case Fault =>
            RetryOne(cs, i, verdict, Fault, "filter", old(local), old(fates));
          case Yes =>
            SiftedGood(local, old(local), fates, old(fates), cs, i, verdict, Fault, d);
            selected := selected + [cs[i]];
          case No =>
            SiftedGood(local, old(local), fates, old(fates), cs, i, verdict, Fault, d);
            filtered := filtered + [cs[i]];
        }
      }
      assert cs[..|cs|] == cs;
    }

    /** The first half of `deliver`: what the filter lets through, the rest being skipped or retried. */
    method Select(cs: seq<Candidate>) returns (selected: seq<Candidate>)
      requires Valid() && Tallied() && Distinct(cs) && Fresh(local, cs)
      modifies this
      ensures Valid() && Tallied() && messages == old(messages) && Kept(old(result), result)
      ensures selected == Chosen(host, cs) && Distinct(selected) && Ids(selected) <= Ids(cs) && Fresh(local, selected)
      ensures Cleared(local, old(local), Ids(cs) - Ids(selected)) && Ruled(old(fates), fates, Ids(cs) - Ids(selected))
      ensures forall c :: c in cs && c !in selected ==> c.notification.id in fates && Unchosen(host, d, c, fates[c.notification.id])
    {
      var filtered;
      selected, filtered := FilterEach(cs);
      ghost var l1, m1 := local, fates;
      VerdictParts(l1, old(local), m1, old(fates), cs, host, d);
      SkipFates();
      FreshIds(local, filtered);
      DroppedClears(local, Ids(filtered));
      Skip(filtered, "filtered");
      ChosenIsGroup(host, cs);
      SelectedLocal(local, l1, old(local), m1, old(fates), cs, host, d);
      SelectedFates(l1, old(local), fates, m1, old(fates), cs, host, d);
    }

    /** `emailPass.deliver`: one recipient's pending candidates. */
    method Deliver(recipient: string, cs: seq<Candidate>)
      requires Valid() && Tallied() && Distinct(cs) && Fresh(local, cs)
      requires forall c :: c in cs ==> c.notification.recipient == recipient && !Doubtful(c)
      modifies this
      ensures Valid() && Tallied() && Kept(old(result), result)
      ensures Cleared(local, old(local), Ids(cs)) && Ruled(old(fates), fates, Ids(cs))
      ensures forall c :: c in cs ==> Right(fates, host, d, cs, c, Lost())
      ensures if host.addressOf(recipient).Address?
              then Mailing(old(messages), messages, host, recipient, Contents(host, d, cs, recipient), Lost())
              else messages == old(messages)
    {
      var selected := Select(cs);
      ghost var l1, m1 := local, fates;
      ChosenIsQueue(host, cs, recipient);
      ChosenMembers(host, cs);
      if selected != [] {
        AddressAndSend(recipient, selected);
      } else {
        ClearedNothing(local);
      }
      SentWhole(local, l1, old(local), fates, m1, old(fates), Ids(cs), Ids(selected));
      DeliveredAll(host, d, cs, recipient, selected, m1, fates, Lost());
    }

    // -------------------------------------------------------------- dispatch

    /** Settles every send in doubt, message by message. */
    method ResolveDoubts(doubts: seq<Candidate>)
      requires Valid() && Tallied() && Distinct(doubts) && Ids(doubts) <= local.doubt && !Busy(local.flight)
      modifies this
      ensures Valid() && Tallied() && messages == old(messages) && Kept(old(result), result)
      ensures local == Dropped(old(local), Ids(doubts)) && Marked(old(fates), fates, Ids(doubts), Doubted)
    {
      var batch := (c: Candidate) => c.batchId;
      var batches, byBatch := GroupBy(doubts, batch);
      DealtNone(local, fates, doubts, batch, batches);
      for j := 0 to |batches|
        invariant Valid() && Tallied() && messages == old(messages) && Kept(old(result), result)
        invariant Dealt(local, old(local), fates, old(fates), doubts, batch, batches[..j])
        invariant AllDoubted(fates, doubts, batch, batches[..j])
      {
        GroupedAt(doubts, batch, batches, byBatch, j);
        var group := byBatch[batches[j]];
        GroupMembers(doubts, batch, batches[j]);
        DealtDoubt(local, old(local), fates, old(fates), doubts, batch, batches, j, group);
        ghost var l, m := local, fates;
        ResolveDoubt(group);
        DoubtMore(l, old(local), m, fates, old(fates), doubts, batch, batches, j, group);
      }
      DoubtAll(local, old(local), fates, old(fates), doubts, batch, batches, byBatch);
    }

    /** Delivers the fresh candidates, one message per recipient. */
    method DeliverAll(pending: seq<Candidate>)
      requires Valid() && Tallied() && Distinct(pending) && Fresh(local, pending) && messages == []
      requires forall c :: c in pending ==> !Doubtful(c)
      modifies this
      ensures Valid() && Tallied() && Kept(old(result), result) && Ruled(old(fates), fates, Ids(pending))
      ensures forall c :: c in pending ==> Right(fates, host, d, pending, c, Lost())
      ensures PostedExactly(host, d, pending, messages, Lost())
    {
      var recipients, byRecipient := GroupBy(pending, RecipientOf);
      ClearedNothing(local);
      DoneNone(pending, recipients);
      ghost var due := [];
      for j := 0 to |recipients|
        invariant Valid() && Tallied() && Kept(old(result), result)
        invariant Done(local, old(local), fates, old(fates), host, d, pending, recipients[..j], Lost())
        invariant SentTo(host, d, pending, recipients[..j], due, messages, Lost())
      {
        GroupedAt(pending, RecipientOf, recipients, byRecipient, j);
        var group := byRecipient[recipients[j]];
        NextGroup(local, old(local), fates, old(fates), host, d, pending, recipients, j, group, Lost());
        ghost var l, m, ms, lost := local, fates, messages, Lost();
        Deliver(recipients[j], group);
        DoneMore(local, l, old(local), fates, m, old(fates), host, d, pending, recipients, j, group, lost, Lost());
        due := SentMore(host, d, pending, recipients, j, group, due, ms, messages, lost, Lost());
      }
      AllPosted(host, d, pending, recipients, byRecipient, due, messages, Lost());
      AllDone(pending, RecipientOf, recipients, byRecipient);
      GroupedKeys(pending, RecipientOf, recipients, byRecipient);
      assert recipients[..|recipients|] == recipients;
    }

    /**
     * `EmailDispatcher.Dispatch` after its claim: doubts first, then one message per recipient. Every
     * candidate meets the fate the host's answers demand, the counters say how many met each, and exactly
     * the recipients due a message got one, with exactly what it had to hold.
     */
    method Dispatch(candidates: seq<Candidate>)
      requires Valid() && Tallied() && Distinct(candidates) && Starts(local, candidates) && local == start
      requires fates == map[] && messages == []
      modifies this
      ensures Valid() && Accepts(d.attempts, start, trace) && Owned(trace, d.owner) && Paced(trace, d, now, start.open)
      ensures fates == FatesOf(trace) && fates.Keys == Ids(candidates)
      ensures forall c :: c in candidates ==> Right(fates, host, d, candidates, c, Lost())
      ensures Tallies(result, fates)
      ensures result.skippedFiltered == |FilteredOut(host, candidates)| && result.skippedNoAddress == |WithoutAddress(host, candidates)|
      ensures result.skippedInactive == |NoLongerActive(host, d, candidates)|
      ensures messages == MessagesOf(trace) && PostedExactly(host, d, candidates, messages, Lost())
      ensures result.claimed == |candidates| == Counted(result) + |With(fates, HandedBack)| + |With(fates, Started)|
      ensures result.unrecorded == 0 ==> With(fates, Started) == {}
    {
      result := result.(claimed := |candidates|);
      DispatchEach(candidates);
      if !Lost() {
        NothingStarted(fates, host, d, candidates);
      }
      SkipsExact(fates, result, host, d, candidates, Lost());
      IdsCount(candidates);
      TalliesSum(result, fates);
    }

    /** The doubts, then the recipients. */
    method DispatchEach(candidates: seq<Candidate>)
      requires Valid() && Tallied() && Distinct(candidates) && Starts(local, candidates) && fates == map[] && messages == []
      modifies this
      ensures Valid() && Tallied() && Kept(old(result), result) && fates.Keys == Ids(candidates)
      ensures forall c :: c in candidates ==> Right(fates, host, d, candidates, c, Lost())
      ensures PostedExactly(host, d, candidates, messages, Lost())
    {
      var doubts, pending := Partition(candidates);
      PartsApart(local, candidates);
      ResolveDoubts(doubts);
      PendingFresh(local, old(local), candidates);
      ghost var m := fates;
      DeliverAll(pending);
      Dispatched(m, fates, host, d, candidates, Lost());
      PostedWhole(host, d, candidates, messages, Lost());
    }
  }

  /** `EmailDispatcher.delay` before jitter: the backoff doubled for each earlier attempt, capped. */
  method Delay(backoff: nat, ceiling: nat, attempts: nat) returns (wait: nat)
    requires 0 < backoff <= ceiling
    ensures var exact := backoff * Pow2(if attempts == 0 then 0 else attempts - 1);
      wait == if exact < ceiling then exact else ceiling
  {
    wait := backoff;
    var i := 1;
    while i < attempts && wait < ceiling
      invariant 1 <= i && (i <= attempts || attempts == 0) && wait == backoff * Pow2(i - 1)
      invariant i > 1 ==> i <= attempts
    {
      wait := wait * 2;
      i := i + 1;
    }
    if i < attempts {
      Pow2Grows(i - 1, attempts - 1);
      assert backoff * Pow2(i - 1) <= backoff * Pow2(attempts - 1);
    }
    if wait > ceiling {
      wait := ceiling;
    }
  }
}
