/** What a claim of notifications due for email takes and leaves alone (notify/memory_email.go). */
module EmailClaims {
  import opened Basics
  import opened Notifications
  import opened EmailRecords
  import opened Retention

  /** The notification is there to be mailed: unread, and created in the window the claim asks for. */
  predicate Wanted(n: Notification, claim: Claim) {
    n.state == Active && n.createdAt >= claim.createdFrom && n.createdAt <= claim.createdUntil
  }

  /** No dispatcher holds the row at the instant of the claim. */
  predicate Unheld(d: Delivery, now: Time) {
    d.leaseUntil.Some? ==> d.leaseUntil.value <= now
  }

  /**
   * A notification is due if and only if it is wanted and has no row, or a waiting row that nobody holds
   * and whose retry has come; or a send of it was left in doubt and nobody holds that.
   */
  lemma DueExactly(ns: map<Id, Notification>, ds: map<Id, Delivery>, claim: Claim, id: Id)
    ensures id in Due(ns, ds, claim) <==>
            id in ns &&
            (|| (id !in ds && Wanted(ns[id], claim))
             || (id in ds && Unheld(ds[id], claim.now) &&
                 (|| ds[id].status == Sending
                  || ((ds[id].status == Claimed || ds[id].status == Retry) && Wanted(ns[id], claim) &&
                      (ds[id].nextAttemptAt.Some? ==> ds[id].nextAttemptAt.value <= claim.now)))))
  {
  }

  /** A claim takes as many as its limit allows, and none before an older one that is due. */
  lemma {:induction false} TakesOldest(ns: map<Id, Notification>, ds: map<Id, Delivery>, claim: Claim)
    requires Filed(ns)
    ensures var due, taken := Due(ns, ds, claim), Taken(ns, ds, claim);
            && taken <= due
            && |taken| == (if 0 < claim.limit < |due| then claim.limit else |due|)
            && forall a, b :: a in taken && b in due && b !in taken ==>
                 ns[a].createdAt < ns[b].createdAt || (ns[a].createdAt == ns[b].createdAt && Less(a, b))
  {
    var due := Due(ns, ds, claim);
    if claim.limit > 0 {
      OldestCount(ns, due, claim.limit);
      forall a, b | a in Taken(ns, ds, claim) && b in due && b !in Taken(ns, ds, claim) ensures Before(ns[a], ns[b]) {
        LessConnected(a, b);
        if !Before(ns[a], ns[b]) {
          OldestFirst(ns, due, claim.limit, a, b);
        }
      }
    }
  }

  /** The row a claim leaves: held by the claimant till its lease ends, everything tried so far remembered. */
  lemma ClaimedRow(ns: map<Id, Notification>, ds: map<Id, Delivery>, claim: Claim, id: Id)
    requires id in Taken(ns, ds, claim)
    ensures id in AfterClaim(ns, ds, claim)
    ensures var d := AfterClaim(ns, ds, claim)[id];
            && d.owner == claim.owner && d.leaseUntil == Some(claim.now + claim.lease)
            && d.attempts == (if id in ds then ds[id].attempts else 0) && d.batchId == (if id in ds then ds[id].batchId else "")
            && d.status == (if id in ds && ds[id].status == Sending then Sending else Claimed)
  {
  }

  /** Until its lease ends no other claim takes a row, whatever becomes of the notification meanwhile. */
  lemma LeaseExcludes(
      ns: map<Id, Notification>, later: map<Id, Notification>, ds: map<Id, Delivery>, claim: Claim, other: Claim, id: Id)
    requires id in Taken(ns, ds, claim) && other.now < claim.now + claim.lease
    ensures id !in Taken(later, AfterClaim(ns, ds, claim), other)
  {
  }

  /** What an outcome leaves of a row: an attempt counted or not, a lease kept only while sending, a date only for a retry. */
  lemma RecordedRow(d: Delivery, r: Record)
    ensures var e := Apply(d, r);
            && e.status == r.status && e.updatedAt == r.at && e.attempts == d.attempts + (if r.attempt then 1 else 0)
            && (if r.status == Sending then e.owner == d.owner && e.leaseUntil == d.leaseUntil else e.owner == "" && e.leaseUntil.None?)
            && e.nextAttemptAt == (if r.status == Retry then r.nextAttemptAt else None)
            && e.sentAt == (if r.status == Sent then Some(r.at) else d.sentAt)
            && (r.batchId != "" ==> e.batchId == r.batchId) && (r.reason != "" ==> e.reason == r.reason)
  {
  }

  /** A notification whose email has ended is never claimed again. */
  lemma EndedNeverClaimed(ns: map<Id, Notification>, ds: map<Id, Delivery>, r: Record, claim: Claim, id: Id)
    requires id in Written(ds, r) && r.status != Claimed && r.status != Retry && r.status != Sending
    ensures id !in Taken(ns, AfterRecord(ds, r), claim)
  {
  }
}
