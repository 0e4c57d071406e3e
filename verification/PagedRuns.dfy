/**
 * Paging while the engine runs: pages of one query taken at successive moments of a run never repeat a
 * task, and return every task that matched at all those moments.
 */
module PagedRuns {
  import opened Basics
  import opened Keyset
  import opened Lifecycle
  import opened TaskQueries
  import A = TaskAgreement
  import S = Sweeps

  /** The moments of a run at which pages are taken, in order. */
  ghost predicate Moments(states: seq<A.World>, at: seq<nat>) {
    && (forall i :: 0 <= i < |at| ==> at[i] < |states|)
    && (forall i, j :: 0 <= i < j < |at| ==> at[i] <= at[j])
  }

  /** What the query matches at each of them. */
  ghost function MatchingThen(states: seq<A.World>, at: seq<nat>, q: Query): seq<set<Position>>
    requires Moments(states, at)
  {
    seq(|at|, i requires 0 <= i < |at| => Matching(states[at[i]].db.tasks, q))
  }

  /** Tasks stay, at the positions they had. */
  lemma {:induction false} PositionsStay(states: seq<A.World>, steps: seq<A.DbStep>, i: nat, j: nat, id: TaskId)
    requires A.IsRun(states, steps) && i <= j <= |steps| && id in states[i].db.tasks
    ensures id in states[j].db.tasks && PositionOf(states[i].db.tasks[id]) == PositionOf(states[j].db.tasks[id])
    ensures states[i].db.tasks[id].id == id
  {
    S.RunAdvances(states, steps, i, j, id);
    A.RunAgrees(states, steps, i);
    assert A.Agrees(states[i], id);
  }

  lemma {:induction false} RunKeyed(states: seq<A.World>, steps: seq<A.DbStep>, i: nat)
    requires A.IsRun(states, steps) && i <= |steps|
    ensures Keyed(states[i].db.tasks)
  {
    forall id | id in states[i].db.tasks ensures states[i].db.tasks[id].id == id {
      PositionsStay(states, steps, i, i, id);
    }
  }

  /** Every matching position of every moment is among those of the run's last state, one per task. */
  lemma {:induction false} OneUniverse(states: seq<A.World>, steps: seq<A.DbStep>, at: seq<nat>, q: Query)
    requires A.IsRun(states, steps) && Moments(states, at)
    ensures var last := states[|steps|].db.tasks;
            Within(Precedes(q.ordering, q.descending), PositionsOf(last, last.Keys), MatchingThen(states, at, q), None)
  {
    var last := states[|steps|].db.tasks;
    RunKeyed(states, steps, |steps|);
    CompareOrders(q.ordering, q.descending, PositionsOf(last, last.Keys));
    forall i, p | 0 <= i < |at| && p in MatchingThen(states, at, q)[i] ensures p in PositionsOf(last, last.Keys) {
      RunKeyed(states, steps, at[i]);
      MatchingAt(states[at[i]].db.tasks, q, p);
      PositionsStay(states, steps, at[i], |steps|, p.id);
    }
  }

  /** No task is returned twice, and the pages follow the ordering throughout. */
  lemma {:induction false} NoRepeats(states: seq<A.World>, steps: seq<A.DbStep>, at: seq<nat>, q: Query, pages: seq<seq<Position>>)
    requires A.IsRun(states, steps) && Moments(states, at)
    requires Walk(Precedes(q.ordering, q.descending), MatchingThen(states, at, q), None, EffectiveLimit(q), pages)
    ensures Ascending(Precedes(q.ordering, q.descending), Concat(pages))
    ensures forall i, j :: 0 <= i < j < |Concat(pages)| ==> Concat(pages)[i].id != Concat(pages)[j].id
  {
    var last := states[|steps|].db.tasks;
    OneUniverse(states, steps, at, q);
    WalkAscends(Precedes(q.ordering, q.descending), PositionsOf(last, last.Keys), MatchingThen(states, at, q), None, EffectiveLimit(q), pages);
    RunKeyed(states, steps, |steps|);
    var all := Concat(pages);
    forall i, j | 0 <= i < j < |all| ensures all[i].id != all[j].id {
      assert all[i] in all && all[j] in all;
      assert Precedes(q.ordering, q.descending)(all[i], all[j]);
      CompareSides(all[i], all[i], q.ordering, q.descending);
    }
  }

  /** A task that matched whenever a page was taken is returned. */
  lemma {:induction false} NoGaps(
      states: seq<A.World>, steps: seq<A.DbStep>, at: seq<nat>, q: Query, pages: seq<seq<Position>>, id: TaskId)
    requires A.IsRun(states, steps) && Moments(states, at) && at != []
    requires Walk(Precedes(q.ordering, q.descending), MatchingThen(states, at, q), None, EffectiveLimit(q), pages)
    requires forall i :: 0 <= i < |at| ==> id in states[at[i]].db.tasks && Matches(states[at[i]].db.tasks[id], q)
    ensures PositionOf(states[at[0]].db.tasks[id]) in Concat(pages)
  {
    var last := states[|steps|].db.tasks;
    var p := PositionOf(states[at[0]].db.tasks[id]);
    OneUniverse(states, steps, at, q);
    forall i | 0 <= i < |at| ensures p in MatchingThen(states, at, q)[i] {
      PositionsStay(states, steps, at[0], at[i], id);
    }
    WalkComplete(Precedes(q.ordering, q.descending), PositionsOf(last, last.Keys), MatchingThen(states, at, q), None,
                 EffectiveLimit(q), pages, p);
  }
}
