/** What a prune pass removes and what it may never remove (notify/memory.go, `Prune`). */
module Retention {
  import opened Basics
  import opened Notifications
  import opened NotificationStore

  ghost predicate Filed(ns: map<Id, Notification>) {
    forall id :: id in ns ==> ns[id].id == id
  }

  /** `oldestFirst` on identifiers. */
  function Older(ns: map<Id, Notification>): (Id, Id) -> bool {
    (a, b) => a in ns && b in ns && Before(ns[a], ns[b])
  }

  lemma OlderOrders(ns: map<Id, Notification>, ids: set<Id>)
    requires Filed(ns) && ids <= ns.Keys
    ensures StrictOrder(Older(ns), ids)
  {
    var less := Older(ns);
    assert forall x, y :: x in ids && y in ids ==> less(x, y) == Before(ns[x], ns[y]);
    forall x, y | x in ids && y in ids ensures x == y || less(x, y) || less(y, x) { LessConnected(ns[x].id, ns[y].id); }
    forall x | x in ids ensures !less(x, x) { LessAsymmetric(ns[x].id, ns[x].id); }
    forall x, y, z | x in ids && y in ids && z in ids && less(x, y) && less(y, z) ensures less(x, z) {
      assert Before(ns[x], ns[y]) && Before(ns[y], ns[z]);
      BeforeTransitive(ns[x], ns[y], ns[z]);
    }
  }

  lemma BeforeTransitive(a: Notification, b: Notification, c: Notification)
    requires Before(a, b) && Before(b, c)
    ensures Before(a, c)
  {
    if a.createdAt == c.createdAt {
      LessTransitive(a.id, b.id, c.id);
    }
  }

  /** The oldest members are as many as asked for, or all there are. */
  lemma OldestCount(ns: map<Id, Notification>, ids: set<Id>, limit: int)
    requires Filed(ns) && ids <= ns.Keys && limit > 0
    ensures |Oldest(ns, ids, limit)| == if limit < |ids| then limit else |ids|
  {
    OlderOrders(ns, ids);
    LowestCount(Older(ns), ids, limit);
    OldestIsLowest(ns, ids, limit);
  }

  lemma OldestIsLowest(ns: map<Id, Notification>, ids: set<Id>, limit: int)
    requires ids <= ns.Keys && limit > 0
    ensures Oldest(ns, ids, limit) == Lowest(Older(ns), ids, limit)
  {
    forall id | id in ids ensures Below(Older(ns), ids, id) == Preceding(ns, ids, ns[id]) {
    }
  }

  /** Whatever is older than one of the oldest is one of the oldest. */
  lemma OldestFirst(ns: map<Id, Notification>, ids: set<Id>, limit: int, a: Id, b: Id)
    requires Filed(ns) && ids <= ns.Keys && limit > 0
    requires a in Oldest(ns, ids, limit) && b in ids && Before(ns[b], ns[a])
    ensures b in Oldest(ns, ids, limit)
  {
    OlderOrders(ns, ids);
    assert forall c :: c in ids && Before(ns[c], ns[b]) ==> Older(ns)(c, b) && Older(ns)(b, a) && Older(ns)(c, a);
    SubsetSize(Preceding(ns, ids, ns[b]), Preceding(ns, ids, ns[a]));
  }

  ghost function Young(ns: map<Id, Notification>, req: PruneRequest): map<Id, Notification> {
    Without(ns, AgedOut(ns, req))
  }

  /** What is left of the notifications after a prune. */
  ghost function Rest(ns: map<Id, Notification>, req: PruneRequest): map<Id, Notification> {
    var young := Young(ns, req);
    Without(young, TrimmedAll(young, req) + EvictedAll(young, req))
  }

  lemma WithoutSize(ns: map<Id, Notification>, gone: set<Id>)
    requires gone <= ns.Keys
    ensures |ns| == |Without(ns, gone)| + |gone|
  {
    assert Without(ns, gone).Keys == ns.Keys - gone;
    assert |ns| == |ns.Keys| && |Without(ns, gone)| == |Without(ns, gone).Keys|;
  }

  /** Before a pass equals after it plus its three counters. */
  lemma Conserved(ns: map<Id, Notification>, req: PruneRequest)
    requires Filed(ns)
    ensures |ns| == |Rest(ns, req)| + |AgedOut(ns, req)| +
                    |TrimmedAll(Young(ns, req), req)| + |EvictedAll(Young(ns, req), req)|
  {
    var young := Young(ns, req);
    WithoutSize(ns, AgedOut(ns, req));
    var trimmed, evicted := TrimmedAll(young, req), EvictedAll(young, req);
    WithoutSize(young, trimmed + evicted);
    forall id | id in trimmed ensures id !in evicted { LostAreHeld(young, young[id].recipient, req); }
    assert trimmed !! evicted;
    assert |trimmed + evicted| == |trimmed| + |evicted|;
  }

  /** How many inactive and how many ACTIVE notifications a recipient loses to the count bound. */
  lemma Losses(ns: map<Id, Notification>, r: string, req: PruneRequest)
    requires Filed(ns) && req.maxPerRecipient > 0 && Excess(ns, r, req) > 0
    ensures |Held(ns, r)| == |HeldAs(ns, r, true)| + |HeldAs(ns, r, false)|
    ensures |Trimmed(ns, r, req)| ==
            if Excess(ns, r, req) < |HeldAs(ns, r, false)| then Excess(ns, r, req) else |HeldAs(ns, r, false)|
    ensures |Evicted(ns, r, req)| ==
            if req.strategy == EvictOldestActive then Excess(ns, r, req) - |Trimmed(ns, r, req)| else 0
  {
    assert Held(ns, r) == HeldAs(ns, r, true) + HeldAs(ns, r, false);
    OldestCount(ns, HeldAs(ns, r, false), Excess(ns, r, req));
    var still := Excess(ns, r, req) - |Trimmed(ns, r, req)|;
    if still > 0 {
      OldestCount(ns, HeldAs(ns, r, true), still);
    }
  }

  lemma HeldAfter(ns: map<Id, Notification>, r: string, req: PruneRequest)
    ensures Held(Without(ns, TrimmedAll(ns, req) + EvictedAll(ns, req)), r) ==
            Held(ns, r) - (Trimmed(ns, r, req) + Evicted(ns, r, req))
  {
  }

  lemma LostAreHeld(ns: map<Id, Notification>, r: string, req: PruneRequest)
    ensures Trimmed(ns, r, req) <= HeldAs(ns, r, false) && Evicted(ns, r, req) <= HeldAs(ns, r, true)
    ensures Trimmed(ns, r, req) !! Evicted(ns, r, req)
  {
    assert HeldAs(ns, r, false) !! HeldAs(ns, r, true);
  }

  /** Each recipient ends with exactly as many as the bound and the strategy allow. */
  lemma WithinBound(ns: map<Id, Notification>, req: PruneRequest, r: string)
    requires Filed(ns) && req.maxPerRecipient > 0
    ensures var held := |Held(Young(ns, req), r)|;
            |Held(Rest(ns, req), r)| ==
              if held <= req.maxPerRecipient then held
              else if req.strategy == EvictOldestActive then req.maxPerRecipient
              else Max(req.maxPerRecipient, |HeldAs(Young(ns, req), r, true)|)
  {
    var young := Young(ns, req);
    var held, lost := Held(young, r), Trimmed(young, r, req) + Evicted(young, r, req);
    HeldAfter(young, r, req);
    if Excess(young, r, req) > 0 {
      LostAreHeld(young, r, req);
      Losses(young, r, req);
      assert |lost| == |Trimmed(young, r, req)| + |Evicted(young, r, req)|;
      assert lost <= held;
      assert |held - lost| == |held| - |lost|;
    } else {
      assert held - lost == held;
    }
  }

  /** RetainActive loses no ACTIVE notification. */
  lemma ActiveRetained(ns: map<Id, Notification>, req: PruneRequest, r: string)
    requires req.strategy == RetainActive
    ensures HeldAs(Rest(ns, req), r, true) == HeldAs(ns, r, true)
  {
    var young := Young(ns, req);
    LostAreHeld(young, r, req);
    forall id | id in HeldAs(ns, r, true) ensures id in Rest(ns, req) {
      assert id in young && id !in HeldAs(young, r, false);
    }
  }

  /** Age never removes an ACTIVE notification; the count bound does only when no inactive one is left. */
  lemma ActiveLast(ns: map<Id, Notification>, req: PruneRequest, id: Id)
    requires Filed(ns) && id in ns && ns[id].state == Active && id !in Rest(ns, req)
    ensures req.maxPerRecipient > 0 && req.strategy == EvictOldestActive
    ensures HeldAs(Rest(ns, req), ns[id].recipient, false) == {}
    ensures forall b :: b in ns && ns[b].recipient == ns[id].recipient && ns[b].state == Active &&
                        (ns[b].createdAt < ns[id].createdAt || (ns[b].createdAt == ns[id].createdAt && Less(b, id))) ==>
              b !in Rest(ns, req)
  {
    var young, r := Young(ns, req), ns[id].recipient;
    assert id in young;
    LostAreHeld(young, r, req);
    assert id in Evicted(young, r, req);
    Losses(young, r, req);
    var trimmed, inactive := Trimmed(young, r, req), HeldAs(young, r, false);
    assert trimmed == inactive by { SubsetSize(trimmed, inactive); }
    forall b | b in ns && ns[b].recipient == r && ns[b].state == Active && Before(ns[b], ns[id]) ensures b !in Rest(ns, req) {
      assert b in HeldAs(young, r, true);
      OldestFirst(young, HeldAs(young, r, true), Excess(young, r, req) - |trimmed|, id, b);
    }
  }

  /** The count bound removes the oldest inactive notifications. */
  lemma OldestInactiveFirst(ns: map<Id, Notification>, req: PruneRequest, id: Id, b: Id)
    requires Filed(ns) && id in TrimmedAll(Young(ns, req), req)
    requires b in Young(ns, req) && ns[b].recipient == ns[id].recipient && ns[b].state != Active
    requires ns[b].createdAt < ns[id].createdAt || (ns[b].createdAt == ns[id].createdAt && Less(b, id))
    ensures b in TrimmedAll(Young(ns, req), req)
  {
    var young, r := Young(ns, req), ns[id].recipient;
    OldestFirst(young, HeldAs(young, r, false), Excess(young, r, req), id, b);
  }
}
