/**
 * The dispatcher's own code inside the protocol: whatever other dispatchers and the store do in between,
 * a claim followed by what a pass did is a run, so everything proved of runs holds of the code.
 */
module EmailPassRuns {
  import opened Basics
  import opened Notifications
  import opened EmailRecords
  import opened EmailAutomaton
  import opened EmailProtocol
  import P = EmailStanding

  /** A step by which the store answers one action of a pass as the pass saw it answered. */
  ghost predicate Takes(w: World, owner: string, a: Action, s: Step) {
    || (s == Act(owner, a) && (a.Write? && a.whole ==> Written(w.ds, a.record) == a.record.ids))
    || (a.Write? && !a.whole && s.FailedWrite? && s.owner == owner && s.record == a.record && s.reached <= a.record.ids)
  }

  /** The pass's actions in order, perhaps not all of them, among enabled steps that are not its own. */
  ghost predicate Weaves(N: nat, w: World, owner: string, trace: seq<Action>, steps: seq<Step>)
    decreases |steps|
  {
    if steps == [] then true
    else if Own(steps[0]) && Actor(steps[0]) == owner then
      trace != [] && Takes(w, owner, trace[0], steps[0]) && Weaves(N, Next(w, steps[0]), owner, trace[1..], steps[1..])
    else Enabled(N, w, steps[0]) && Weaves(N, Next(w, steps[0]), owner, trace, steps[1..])
  }

  /** A count of as many rows as were named means every one of them was written. */
  lemma CountMeansWhole(ds: map<Id, Delivery>, r: Record)
    requires |Written(ds, r)| >= |r.ids|
    ensures Written(ds, r) == r.ids
  {
    SubsetSize(Written(ds, r), r.ids);
  }

  lemma OthersLeave(w: World, s: Step, owner: string)
    requires !(Own(s) && Actor(s) == owner)
    ensures At(Next(w, s), owner) == At(w, owner)
  {
  }

  lemma OwnAdvances(w: World, owner: string, a: Action, s: Step)
    requires Takes(w, owner, a, s) && At(w, owner).Pass?
    ensures At(Next(w, s), owner) == Advance(At(w, owner), a)
  {
  }

  /** What a pass did, woven among the steps of others, is a run. */
  lemma {:induction false} WeaveRuns(N: nat, w: World, owner: string, trace: seq<Action>, steps: seq<Step>)
    requires owner != "" && Accepts(N, At(w, owner), trace) && P.Owned(trace, owner) && Weaves(N, w, owner, trace, steps)
    ensures Run(N, w, steps)
    decreases |steps|
  {
    if steps != [] {
      var s := steps[0];
      if Own(s) && Actor(s) == owner {
        OwnAdvances(w, owner, trace[0], s);
        assert Enabled(N, w, s);
        assert P.Owned(trace[1..], owner);
        WeaveRuns(N, Next(w, s), owner, trace[1..], steps[1..]);
      } else {
        OthersLeave(w, s, owner);
        WeaveRuns(N, Next(w, s), owner, trace, steps[1..]);
      }
    }
  }

  lemma {:induction false} RunAppend(N: nat, w: World, a: seq<Step>, b: seq<Step>)
    requires Run(N, w, a) && Run(N, Final(w, a), b)
    ensures Run(N, w, a + b) && Final(w, a + b) == Final(Final(w, a), b)
    decreases |a|
  {
    if a == [] {
      assert a + b == b;
    } else {
      assert (a + b)[0] == a[0] && (a + b)[1..] == a[1..] + b;
      RunAppend(N, Next(w, a[0]), a[1..], b);
    }
  }

  /**
   * After any run, a claim and then the actions a pass of the code took, in any interleaving with the
   * steps of others and cut off anywhere, is again a run.
   */
  lemma {:induction false} PassIsRun(N: nat, before: seq<Step>, claim: Claim, trace: seq<Action>, steps: seq<Step>)
    requires Run(N, EMPTY, before) && claim.owner != "" && At(Final(EMPTY, before), claim.owner).Idle?
    requires Accepts(N, Started(Final(EMPTY, before), claim), trace) && P.Owned(trace, claim.owner)
    requires Weaves(N, Next(Final(EMPTY, before), StartPass(claim)), claim.owner, trace, steps)
    ensures Run(N, EMPTY, before + ([StartPass(claim)] + steps))
  {
    var w := Final(EMPTY, before);
    WeaveRuns(N, Next(w, StartPass(claim)), claim.owner, trace, steps);
    assert ([StartPass(claim)] + steps)[1..] == steps;
    RunAppend(N, EMPTY, before, [StartPass(claim)] + steps);
  }
}
