/** What reading and ageing do to a recipient's notifications (notify/memory.go). */
module NotificationReads {
  import opened Basics
  import opened Notifications
  import opened NotificationStore
  import opened NotificationRuns
  import opened Retention

  /** Some identifier is missing or another recipient's. */
  ghost predicate Foreign(ns: map<Id, Notification>, recipient: string, ids: seq<Id>) {
    exists id :: id in ids && (id !in ns || ns[id].recipient != recipient)
  }

  /**
   * Marking identifiers read marks nothing when one of them is not the recipient's. Otherwise each ACTIVE one
   * is READ since that instant, a CLOSED one that was never read remembers it, and nothing else changes.
   */
  lemma {:induction false} MarkReadExact(ns: map<Id, Notification>, recipient: string, ids: seq<Id>, at: Time)
    ensures var after := MarkRead(ns, recipient, ids, at);
            && after.Keys == ns.Keys
            && (Foreign(ns, recipient, ids) ==> after == ns)
            && (!Foreign(ns, recipient, ids) ==>
                  forall id :: id in ns ==>
                    after[id] == if id in ids && ns[id].state == Active
                                 then ns[id].(state := Read, readAt := Some(at), inactiveAt := Some(at))
                                 else if id in ids && ns[id].state == Closed && ns[id].readAt.None? then ns[id].(readAt := Some(at))
                                 else ns[id])
  {
  }

  /** Marking everything read up to an instant reaches exactly the recipient's ACTIVE notifications created by then. */
  lemma {:induction false} MarkAllReadExact(ns: map<Id, Notification>, recipient: string, through: Time, at: Time)
    ensures var after := MarkAllRead(ns, recipient, through, at);
            && after.Keys == ns.Keys
            && forall id :: id in ns ==>
                 after[id] == if ns[id].recipient == recipient && ns[id].state == Active && ns[id].createdAt <= through
                              then ns[id].(state := Read, readAt := Some(at), inactiveAt := Some(at)) else ns[id]
  {
  }

  /** Marking twice is marking once: the first read is the one remembered. */
  lemma {:induction false} MarkReadOnce(ns: map<Id, Notification>, recipient: string, ids: seq<Id>, at: Time, later: Time)
    ensures MarkRead(MarkRead(ns, recipient, ids, at), recipient, ids, later) == MarkRead(ns, recipient, ids, at)
  {
    var once := MarkRead(ns, recipient, ids, at);
    assert OwnedBy(once, recipient, ids) == OwnedBy(ns, recipient, ids);
  }

  /**
   * In every reachable store a prune keeps, of the notifications the count bound spares, exactly those that
   * are ACTIVE or have been inactive no longer than the age bound allows.
   */
  lemma {:induction false} AgeExact(states: seq<Store>, used: seq<set<Id>>, ops: seq<Op>, i: nat, req: PruneRequest, id: Id)
    requires IsRun(states, used, ops) && i <= |ops| && id in states[i].notifications && req.maxAge > 0
    ensures var n := states[i].notifications[id];
            id in Young(states[i].notifications, req) <==>
            n.state == Active || (n.inactiveAt.Some? && n.inactiveAt.value >= req.now - req.maxAge)
  {
    RunDated(states, used, ops, i);
  }
}
