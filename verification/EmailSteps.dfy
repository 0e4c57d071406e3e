/** What the loops of the email rows need, and how a claim's candidates start a dispatcher's pass. */
module EmailSteps {
  import opened Basics
  import opened Notifications
  import opened EmailRecords
  import opened Retention
  import P = EmailGroups
  import S = EmailStanding
  import W = EmailProtocol

  function CandidateOf(n: Notification, d: Delivery): P.Candidate {
    P.Candidate(n, d.status, d.batchId, d.attempts)
  }

  /** The candidates of a claim: the taken notifications, oldest first, with their leased rows. */
  ghost predicate Claims(cs: seq<P.Candidate>, ns: map<Id, Notification>, ds: map<Id, Delivery>, taken: set<Id>) {
    && (forall i :: 0 <= i < |cs| ==>
          cs[i].notification.id in taken && cs[i].notification.id in ns && cs[i].notification.id in ds &&
          cs[i] == CandidateOf(ns[cs[i].notification.id], ds[cs[i].notification.id]))
    && (forall id :: id in taken ==> exists i :: 0 <= i < |cs| && cs[i].notification.id == id)
    && (forall i, j :: 0 <= i < j < |cs| ==> Before(cs[i].notification, cs[j].notification))
  }

  /** The rows with the leases of some identifiers taken. */
  function LeasedSome(ds: map<Id, Delivery>, done: set<Id>, claim: Claim): map<Id, Delivery> {
    map id | id in ds.Keys + done :: if id in done then Leased(Row(ds, id), claim) else ds[id]
  }

  lemma LeasedMore(ds: map<Id, Delivery>, done: set<Id>, claim: Claim, id: Id)
    requires id !in done
    ensures LeasedSome(ds, done + {id}, claim) == LeasedSome(ds, done, claim)[id := Leased(Row(ds, id), claim)]
    ensures Row(LeasedSome(ds, done, claim), id) == Row(ds, id)
  {
  }

  /** The sorted due notifications cut at the limit are the ones a claim takes. */
  lemma CutIsTaken(ns: map<Id, Notification>, ds: map<Id, Delivery>, claim: Claim, due: seq<Id>)
    requires Filed(ns) && Ascending(Older(ns), due) && Lists(due, Due(ns, ds, claim))
    ensures Members(if 0 < claim.limit < |due| then due[..claim.limit] else due) == Taken(ns, ds, claim)
  {
    var ids := Due(ns, ds, claim);
    OlderOrders(ns, ids);
    CutIsLowest(Older(ns), due, ids, claim.limit);
    if claim.limit > 0 {
      OldestIsLowest(ns, ids, claim.limit);
    }
  }

  /** The candidates a claim returns are exactly the pass the protocol starts. */
  lemma ClaimStartsPass(w: W.World, claim: Claim, cs: seq<P.Candidate>)
    requires Filed(w.ns) && Claims(cs, w.ns, AfterClaim(w.ns, w.ds, claim), Taken(w.ns, w.ds, claim))
    ensures P.Distinct(cs) && S.Starts(W.Started(w, claim), cs)
    ensures P.Ids(cs) == Taken(w.ns, w.ds, claim)
  {
    var ds, l := AfterClaim(w.ns, w.ds, claim), W.Started(w, claim);
    ClaimsDistinct(cs, w.ns, ds, Taken(w.ns, w.ds, claim));
    forall id ensures id in l.doubt <==> id in P.Ids(P.Group(cs, P.Doubtful, true)) { GroupIds(cs, true, id); }
    forall id ensures id in l.open.Keys <==> id in P.Ids(P.Group(cs, P.Doubtful, false)) { GroupIds(cs, false, id); }
  }

  lemma ClaimsDistinct(cs: seq<P.Candidate>, ns: map<Id, Notification>, ds: map<Id, Delivery>, taken: set<Id>)
    requires Claims(cs, ns, ds, taken)
    ensures P.Distinct(cs) && P.Ids(cs) == taken
  {
    forall i, j | 0 <= i < j < |cs| ensures cs[i].notification.id != cs[j].notification.id {
      LessAsymmetric(cs[i].notification.id, cs[j].notification.id);
      assert Before(cs[i].notification, cs[j].notification);
    }
  }

  lemma {:induction false} GroupIds(cs: seq<P.Candidate>, doubtful: bool, id: Id)
    ensures id in P.Ids(P.Group(cs, P.Doubtful, doubtful)) <==>
            exists c :: c in cs && P.Doubtful(c) == doubtful && c.notification.id == id
  {
    if cs != [] {
      var k := |cs| - 1;
      GroupIds(cs[..k], doubtful, id);
      assert cs == cs[..k] + [cs[k]];
    }
  }

  // ---------------------------------------------------------------- records

  /** The rows with a record applied to some of its identifiers. */
  function RecordedSome(ds: map<Id, Delivery>, r: Record, done: set<Id>): map<Id, Delivery> {
    map id | id in ds :: if id in done && ds[id].owner == r.owner then Apply(ds[id], r) else ds[id]
  }

  function WrittenAmong(ds: map<Id, Delivery>, r: Record, done: set<Id>): set<Id> {
    set id | id in done && id in ds && ds[id].owner == r.owner
  }

  lemma RecordedMore(ds: map<Id, Delivery>, r: Record, done: set<Id>, id: Id)
    requires id !in done
    ensures id in ds ==> RecordedSome(ds, r, done)[id] == ds[id]
    ensures RecordedSome(ds, r, done + {id}) ==
            if id in ds && ds[id].owner == r.owner then RecordedSome(ds, r, done)[id := Apply(ds[id], r)] else RecordedSome(ds, r, done)
    ensures |WrittenAmong(ds, r, done + {id})| == |WrittenAmong(ds, r, done)| + if id in ds && ds[id].owner == r.owner then 1 else 0
  {
    assert WrittenAmong(ds, r, done + {id}) == WrittenAmong(ds, r, done) + if id in ds && ds[id].owner == r.owner then {id} else {};
  }

  lemma RecordedAll(ds: map<Id, Delivery>, r: Record)
    ensures RecordedSome(ds, r, r.ids) == AfterRecord(ds, r) && WrittenAmong(ds, r, r.ids) == Written(ds, r)
    ensures RecordedSome(ds, r, {}) == ds && WrittenAmong(ds, r, {}) == {}
  {
  }

  /** The lowest orphans, cut at the limit, are the ones a purge deletes. */
  lemma CutIsPurged(ns: map<Id, Notification>, ds: map<Id, Delivery>, limit: int, orphans: seq<Id>)
    requires Ascending(Less, orphans) && Lists(orphans, Orphans(ns, ds))
    ensures var cut := if 0 < limit < |orphans| then orphans[..limit] else orphans;
            Members(cut) == Purged(ns, ds, limit) && |cut| == |Purged(ns, ds, limit)|
  {
    StringsOrdered(Orphans(ns, ds));
    CutIsLowest(Less, orphans, Orphans(ns, ds), limit);
  }

  /** The first `i` of the claimed notifications have been leased. */
  ghost predicate Leasing(
      ns: map<Id, Notification>, was: map<Id, Delivery>, ds: map<Id, Delivery>, claim: Claim, due: seq<Id>, i: nat, cs: seq<P.Candidate>)
  {
    && i <= |due| && |cs| == i && ds == LeasedSome(was, Members(due[..i]), claim)
    && forall k :: 0 <= k < i ==> due[k] in ns && cs[k] == CandidateOf(ns[due[k]], Leased(Row(was, due[k]), claim))
  }

  lemma LeaseNext(
      ns: map<Id, Notification>, was: map<Id, Delivery>, ds: map<Id, Delivery>, claim: Claim, due: seq<Id>, i: nat, cs: seq<P.Candidate>)
    requires Filed(ns) && Ascending(Older(ns), due) && Leasing(ns, was, ds, claim, due, i, cs) && i < |due| && due[i] in ns
    ensures Row(ds, due[i]) == Row(was, due[i])
    ensures var d := Leased(Row(was, due[i]), claim);
            Leasing(ns, was, ds[due[i] := d], claim, due, i + 1, cs + [CandidateOf(ns[due[i]], d)])
  {
    assert due[..i + 1] == due[..i] + [due[i]];
    assert Members(due[..i + 1]) == Members(due[..i]) + {due[i]};
    if due[i] in due[..i] {
      var k :| 0 <= k < i && due[k] == due[i];
      assert Older(ns)(due[k], due[i]) && Before(ns[due[i]], ns[due[i]]);
      LessAsymmetric(ns[due[i]].id, ns[due[i]].id);
    }
    LeasedMore(was, Members(due[..i]), claim, due[i]);
  }

  lemma LeasedAll(
      ns: map<Id, Notification>, was: map<Id, Delivery>, ds: map<Id, Delivery>, claim: Claim, due: seq<Id>, cs: seq<P.Candidate>)
    requires Filed(ns) && Ascending(Older(ns), due) && Leasing(ns, was, ds, claim, due, |due|, cs)
    requires Members(due) == Taken(ns, was, claim)
    ensures ds == AfterClaim(ns, was, claim) && Claims(cs, ns, ds, Taken(ns, was, claim))
  {
    assert due[..|due|] == due;
    forall i, j | 0 <= i < j < |cs| ensures Before(cs[i].notification, cs[j].notification) {
      assert Older(ns)(due[i], due[j]);
    }
    forall i | 0 <= i < |cs| ensures cs[i].notification.id in Taken(ns, was, claim) {
      assert due[i] in Members(due);
    }
    forall id | id in Taken(ns, was, claim) ensures exists i :: 0 <= i < |cs| && cs[i].notification.id == id {
      assert id in Members(due);
      var i :| 0 <= i < |due| && due[i] == id;
      assert cs[i].notification.id == id;
    }
  }
}
