/** What holds at the end of every run of AtMostOnce dispatchers, hence at every moment of one. */
module EmailTheorems {
  import opened Basics
  import opened Notifications
  import opened EmailRecords
  import opened EmailAutomaton
  import opened EmailProtocol

  lemma RunKeeps(N: nat, w: World, steps: seq<Step>)
    requires N >= 1 && Inv(N, w) && Run(N, w, steps)
    ensures Inv(N, Final(w, steps))
    decreases |steps|
  {
    if steps != [] {
      StepKeeps(N, w, steps[0]);
      RunKeeps(N, Next(w, steps[0]), steps[1..]);
    }
  }

  // ---------------------------------------------------------------- the theorems

  /** In every run, a rejection is final too, and the mailer is called at most `maxAttempts` times. */
  lemma SendsWithinBudget(N: nat, steps: seq<Step>, id: Id)
    requires N >= 1 && Run(N, EMPTY, steps)
    ensures var log := Log(Final(EMPTY, steps), id);
      |log| <= N && forall i :: 0 <= i < |log| - 1 ==> log[i] == Ended(NotSent)
  {
    RunKeeps(N, EMPTY, steps);
    assert RowInv(N, Final(EMPTY, steps), id);
  }

  /** In every run, no notification has two calls that sent it or may have. */
  lemma EmailedAtMostOnce(N: nat, steps: seq<Step>, id: Id, i: nat, j: nat)
    requires N >= 1 && Run(N, EMPTY, steps)
    requires i < |Log(Final(EMPTY, steps), id)| && j < |Log(Final(EMPTY, steps), id)|
    requires MaySend(Log(Final(EMPTY, steps), id)[i]) && MaySend(Log(Final(EMPTY, steps), id)[j])
    ensures i == j == |Log(Final(EMPTY, steps), id)| - 1
  {
    SendsWithinBudget(N, steps, id);
  }

  /** In every run, a delivery recorded SENT was accepted by the mailer. */
  lemma SentIsTrue(N: nat, steps: seq<Step>, id: Id)
    requires N >= 1 && Run(N, EMPTY, steps)
    requires id in Final(EMPTY, steps).ds && Final(EMPTY, steps).ds[id].status == Sent
    ensures Last(Log(Final(EMPTY, steps), id), Ended(Accepted))
  {
    RunKeeps(N, EMPTY, steps);
    assert RowInv(N, Final(EMPTY, steps), id);
  }
}
