/** Email delivery rows and the three store operations on them, as values (notify/memory_email.go). */
module EmailRecords {
  import opened Basics
  import opened Notifications

  datatype Status = Claimed | Sending | Sent | Retry | Skipped | Failed | Abandoned

  datatype Delivery = Delivery(
    status: Status,
    batchId: string,
    owner: string,
    leaseUntil: Option<Time>,
    attempts: nat,
    nextAttemptAt: Option<Time>,
    reason: string,
    sentAt: Option<Time>,
    updatedAt: Time)

  datatype Claim = Claim(
    now: Time, owner: string, lease: Time, createdUntil: Time, createdFrom: Time, limit: int)

  datatype Record = Record(
    owner: string,
    ids: set<Id>,
    status: Status,
    batchId: string,
    reason: string,
    nextAttemptAt: Option<Time>,
    attempt: bool,
    at: Time)

  function Row(ds: map<Id, Delivery>, id: Id): Option<Delivery> {
    if id in ds then Some(ds[id]) else None
  }

  predicate LeaseFree(d: Delivery, now: Time) {
    d.leaseUntil.None? || d.leaseUntil.value <= now
  }

  predicate Qualifies(n: Notification, claim: Claim) {
    n.state == Active && claim.createdFrom <= n.createdAt <= claim.createdUntil
  }

  /** Whether a claim may take a notification (`claimable`). */
  predicate Claimable(n: Notification, row: Option<Delivery>, claim: Claim) {
    match row
    case None => Qualifies(n, claim)
    case Some(d) =>
      match d.status
      case Sending => LeaseFree(d, claim.now)
      case Claimed | Retry =>
        LeaseFree(d, claim.now) && Qualifies(n, claim) &&
        (d.nextAttemptAt.None? || d.nextAttemptAt.value <= claim.now)
      case _ => false
  }

  /** The row a claim leaves behind: a send in doubt stays SENDING, everything else becomes CLAIMED. */
  function Leased(row: Option<Delivery>, claim: Claim): Delivery {
    var until := Some(claim.now + claim.lease);
    match row
    case None => Delivery(Claimed, "", claim.owner, until, 0, None, "", None, claim.now)
    case Some(d) =>
      d.(status := if d.status == Sending then Sending else Claimed,
         owner := claim.owner, leaseUntil := until, updatedAt := claim.now)
  }

  ghost function Due(ns: map<Id, Notification>, ds: map<Id, Delivery>, claim: Claim): set<Id> {
    set id | id in ns && Claimable(ns[id], Row(ds, id), claim)
  }

  /** The notifications a claim takes: the oldest due ones, up to its limit. */
  ghost function Taken(ns: map<Id, Notification>, ds: map<Id, Delivery>, claim: Claim): set<Id> {
    Oldest(ns, Due(ns, ds, claim), claim.limit)
  }

  ghost function AfterClaim(ns: map<Id, Notification>, ds: map<Id, Delivery>, claim: Claim): map<Id, Delivery> {
    var taken := Taken(ns, ds, claim);
    map id | id in ds.Keys + taken :: if id in taken then Leased(Row(ds, id), claim) else ds[id]
  }

  /** `applyEmailRecord`: SENDING keeps the lease, every other status releases it. */
  function Apply(d: Delivery, r: Record): Delivery {
    var d1 := d.(status := r.status, updatedAt := r.at, nextAttemptAt := None,
                 batchId := if r.batchId != "" then r.batchId else d.batchId,
                 reason := if r.reason != "" then r.reason else d.reason,
                 attempts := if r.attempt then d.attempts + 1 else d.attempts);
    if r.status == Sending then d1
    else d1.(nextAttemptAt := if r.status == Retry then r.nextAttemptAt else None,
             sentAt := if r.status == Sent then Some(r.at) else d.sentAt,
             owner := "", leaseUntil := None)
  }

  /** The rows a record changes: those its owner still holds. */
  function Written(ds: map<Id, Delivery>, r: Record): set<Id> {
    set id | id in r.ids && id in ds && ds[id].owner == r.owner
  }

  function AfterRecord(ds: map<Id, Delivery>, r: Record): map<Id, Delivery> {
    map id | id in ds :: if id in r.ids && ds[id].owner == r.owner then Apply(ds[id], r) else ds[id]
  }

  /** Rows whose notification is gone. */
  function Orphans(ns: map<Id, Notification>, ds: map<Id, Delivery>): set<Id> {
    set id | id in ds && id !in ns
  }

  /** The orphans a purge deletes: the lowest identifiers, up to its limit. */
  ghost function Purged(ns: map<Id, Notification>, ds: map<Id, Delivery>, limit: int): set<Id> {
    var orphans := Orphans(ns, ds);
    if limit <= 0 then orphans
    else Lowest(Less, orphans, limit)
  }
}
