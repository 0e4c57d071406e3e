/**
 * The in-memory store with its indexes (notify/memory.go, notify/memory_email.go): every method leaves
 * the store the scanning operations of `NotificationStore` and `EmailRecords` give, and keeps the
 * indexes equal to what a scan would find.
 */
module MemoryStore {
  import opened Basics
  import opened Notifications
  import opened NotificationStore
  import opened NotificationView
  import opened Retention
  import opened StoreSteps
  import opened EmailSteps
  import E = EmailRecords
  import EmailGroups

  datatype PruneResult = PruneResult(
    deletedForAge: nat, deletedForCount: nat, evictedActive: nat, watermarksDeleted: nat, recipients: seq<string>)

  class MemoryStore {
    var notifications: map<Id, Notification>
    var watermarks: map<Key, Mark>
    var sources: map<(string, string), Id>
    var subjects: map<string, set<Id>>
    var deliveries: map<Id, E.Delivery>

    ghost predicate Valid() reads this {
      Indexed(notifications, sources, subjects)
    }

    /** The store without its indexes. */
    ghost function Abs(): Store reads this {
      Store(notifications, watermarks)
    }

    constructor ()
      ensures Valid() && Abs() == Store(map[], map[]) && deliveries == map[]
    {
      notifications, watermarks, sources, subjects, deliveries := map[], map[], map[], map[], map[];
    }

    method FloorOf(subject: string, kind: string) returns (floor: int)
      ensures floor == Floor(watermarks, subject, kind)
    {
      floor := -1;
      var keys := [(subject, kind), (subject, ALL_KINDS)];
      for i := 0 to |keys|
        invariant i == 0 ==> floor == -1
        invariant i == 1 ==> floor == Max(-1, MarkVersion(watermarks, keys[0]))
        invariant i == 2 ==> floor == Floor(watermarks, subject, kind)
      {
        if keys[i] in watermarks && watermarks[keys[i]].version > floor {
          floor := watermarks[keys[i]].version;
        }
      }
    }

    method HasOpenNow(recipient: string, subject: string, kind: string) returns (open: bool)
      requires Valid()
      ensures open == HasOpen(notifications, recipient, subject, kind)
    {
      ListedIsScan(notifications, subjects, subject);
      var ids := Listed(subjects, subject);
      while ids != {}
        invariant ids <= OnSubject(notifications, subject)
        invariant forall id :: id in OnSubject(notifications, subject) - ids ==>
                    !(notifications[id].recipient == recipient && notifications[id].kind == kind && Open(notifications[id]))
      {
        var id :| id in ids;
        var n := notifications[id];
        if n.recipient == recipient && n.kind == kind && n.state != Closed {
          return true;
        }
        ids := ids - {id};
      }
      return false;
    }

    method Put(n: Notification)
      requires Valid() && n.id !in notifications && KeyOf(n) !in sources
      modifies this`notifications, this`sources, this`subjects
      ensures Valid() && notifications == old(notifications)[n.id := n]
    {
      PutIndexed(notifications, sources, subjects, n);
      notifications := notifications[n.id := n];
      sources := sources[KeyOf(n) := n.id];
      subjects := subjects[n.subject := Listed(subjects, n.subject) + {n.id}];
    }

    method Remove(n: Notification)
      requires Valid() && n.id in notifications && notifications[n.id] == n
      modifies this`notifications, this`sources, this`subjects
      ensures Valid() && notifications == old(notifications) - {n.id}
    {
      RemoveIndexed(notifications, sources, subjects, n.id);
      notifications := notifications - {n.id};
      sources := sources - {KeyOf(n)};
      var ids := subjects[n.subject] - {n.id};
      subjects := if ids == {} then subjects - {n.subject} else subjects[n.subject := ids];
    }

    method EnsureWatermark(key: Key, at: Time)
      modifies this`watermarks
      ensures watermarks == Ensure(old(watermarks), key, at)
    {
      if key !in watermarks {
        watermarks := watermarks[key := Mark(-1, at)];
      }
    }

    /** Suppression, coalescing and idempotency in that order; duplicates are found through the index. */
    method InsertNext(n: Notification, coalesce: bool, sofar: InsertResult) returns (result: InsertResult)
      requires Valid() && n.id !in notifications
      modifies this`notifications, this`watermarks, this`sources, this`subjects
      ensures Valid() && Abs() == InsertOne(old(Abs()), n, coalesce)
      ensures result == Tallied(sofar, FateOf(old(Abs()), n, coalesce), n)
    {
      result := sofar;
      var floor := FloorOf(n.subject, n.kind);
      var open := HasOpenNow(n.recipient, n.subject, n.kind);
      DuplicateIndexed(notifications, sources, KeyOf(n));
      if n.version < floor {
        result := result.(suppressed := result.suppressed + 1);
      } else if coalesce && open {
        result := result.(coalesced := result.coalesced + 1);
      } else if KeyOf(n) in sources {
        result := result.(duplicates := result.duplicates + 1);
      } else {
        Put(n);
        result := result.(created := result.created + [n]);
        EnsureWatermark((n.subject, ALL_KINDS), n.createdAt);
      }
    }

    method InsertAll(subject: string, ins: seq<Insertion>) returns (result: InsertResult)
      requires Valid() && Minted(notifications, ins)
      modifies this`notifications, this`watermarks, this`sources, this`subjects
      ensures Valid() && Abs() == Insert(old(Abs()), subject, ins)
      ensures Tallies(result, Fates(old(Abs()), subject, ins)) && Creates(old(notifications), result.created, notifications)
    {
      ghost var was := Abs();
      result := InsertResult([], 0, 0, 0);
      for i := 0 to |ins|
        invariant Valid() && Inserted(was, Abs(), subject, ins, i, result)
      {
        InsertedStep(was, Abs(), subject, ins, i, result);
        result := InsertNext(ins[i].notification.(subject := subject), ins[i].coalesce, result);
      }
      assert ins[..|ins|] == ins;
    }

    /** The first half of `Close`: the subject's close record exists and the closed keys are raised. */
    method RaiseMarks(req: CloseRequest, at: Time)
      modifies this`watermarks
      ensures watermarks == CloseMarks(old(watermarks), req, at)
    {
      EnsureWatermark((req.subject, ALL_KINDS), at);
      ghost var base := watermarks;
      var keys := [(req.subject, ALL_KINDS)];
      if |req.kinds| > 0 {
        keys := [];
        for i := 0 to |req.kinds|
          invariant |keys| == i && forall k :: 0 <= k < i ==> keys[k] == (req.subject, req.kinds[k])
        {
          keys := keys + [(req.subject, req.kinds[i])];
        }
      }
      for i := 0 to |keys|
        invariant watermarks == RaisedMarks(base, keys[..i], req.version, at)
      {
        var key := keys[i];
        RaiseOne(base, keys, i, req.version, at);
        watermarks := watermarks[key := Mark(
          if key !in watermarks || watermarks[key].version < req.version then req.version else watermarks[key].version, at)];
      }
      assert keys[..|keys|] == keys;
      forall key ensures key in keys <==> key in ClosedKeys(req) {
        if req.kinds != [] && key in ClosedKeys(req) {
          var k :| 0 <= k < |req.kinds| && key == (req.subject, req.kinds[k]);
          assert keys[k] == key;
        }
      }
    }

    method CloseIfReached(id: Id, req: CloseRequest, at: Time) returns (hit: bool)
      requires id in notifications && notifications[id].subject == req.subject
      modifies this`notifications
      ensures hit == Reached(old(notifications)[id], req)
      ensures notifications == if hit then old(notifications)[id := CloseOne(old(notifications)[id], req, at)] else old(notifications)
    {
      var n := notifications[id];
      if n.state == Closed || n.version > req.version {
        return false;
      }
      if |req.kinds| > 0 && n.kind !in req.kinds {
        return false;
      }
      if req.except != "" && n.recipient == req.except {
        return false;
      }
      n := n.(state := Closed, closedReason := req.reason, closedAt := Some(at));
      if n.inactiveAt.None? {
        n := n.(inactiveAt := Some(at));
      }
      notifications := notifications[id := n];
      return true;
    }

    /** The loop over the subject's notifications. */
    method CloseEach(all: set<Id>, req: CloseRequest, at: Time) returns (closed: nat, recipients: set<string>)
      requires all <= notifications.Keys && forall id :: id in all ==> notifications[id].subject == req.subject
      modifies this`notifications
      ensures ClosedSoFar(old(notifications), notifications, all, req, at, closed, recipients)
    {
      ghost var was, done := notifications, {};
      var ids := all;
      closed, recipients := 0, {};
      while ids != {}
        invariant done <= all && ids == all - done
        invariant ClosedSoFar(was, notifications, done, req, at, closed, recipients)
      {
        var id :| id in ids;
        CloseNext(was, notifications, done, req, at, closed, recipients, id);
        var recipient := notifications[id].recipient;
        var hit := CloseIfReached(id, req, at);
        if hit {
          closed := closed + 1;
          recipients := recipients + {recipient};
        }
        TakeOne(all, done, id);
        ids, done := ids - {id}, done + {id};
      }
      assert done == all;
    }

    /** Closing through the subject index reaches what a scan of every notification would. */
    method CloseReached(req: CloseRequest, at: Time) returns (closed: nat, recipients: set<string>)
      requires Valid()
      modifies this`notifications
      ensures Valid() && notifications == CloseAll(old(notifications), req, at)
      ensures recipients == ClosedRecipients(old(notifications), req)
      ensures closed == |set id | id in old(notifications) && Reached(old(notifications)[id], req)|
    {
      ghost var was := notifications;
      ListedIsScan(notifications, subjects, req.subject);
      closed, recipients := CloseEach(Listed(subjects, req.subject), req, at);
      ClosedAll(was, notifications, req, at, closed, recipients);
      ChangedInPlace(was, notifications, sources, subjects);
    }

    /** The successors of a close, through the ordinary insert path. */
    method Succeed(req: CloseRequest, recipients: seq<string>, at: Time, ids: string -> Id)
      returns (created: seq<Notification>, suppressed: nat)
      requires Valid() && NoRepeats(recipients) && Mints(ids, Stampable(req, recipients), notifications)
      requires (req.subject, ALL_KINDS) in watermarks
      modifies this`notifications, this`watermarks, this`sources, this`subjects
      ensures Valid() && watermarks == old(watermarks) && Creates(old(notifications), created, notifications)
      ensures notifications == AddSuccessors(old(notifications), req, Accepted(old(Abs()), req, recipients), at, ids)
    {
      var successors := SuccessorInsertions(req, recipients, at, ids);
      StampsMinted(req, recipients, at, ids, notifications);
      SuccessorsInserted(Abs(), req, recipients, at, ids);
      created, suppressed := [], 0;
      if |successors| > 0 {
        var inserted := InsertAll(req.subject, successors);
        created, suppressed := inserted.created, inserted.suppressed;
      }
    }

    /** `Close`: watermarks, notifications and successors in one step. */
    method CloseSubject(req: CloseRequest, at: Time, ids: string -> Id) returns (result: CloseResult)
      requires Valid()
      requires Mints(ids, ClosedRecipients(notifications, req), notifications)
      modifies this`notifications, this`watermarks, this`sources, this`subjects
      ensures Valid() && Abs() == Close(old(Abs()), req, at, ids)
      ensures result.closed == |set id | id in old(notifications) && Reached(old(notifications)[id], req)|
      ensures Ascending(Less, result.recipients) && Lists(result.recipients, ClosedRecipients(old(notifications), req))
      ensures Creates(CloseAll(old(notifications), req, at), result.successors, notifications)
    {
      ghost var was := Abs();
      RaiseMarks(req, at);
      var closed, recipients := CloseReached(req, at);
      StringsOrdered(recipients);
      var sorted := SortSet(recipients, Less);
      AscendingDistinct(sorted);
      CloseAssembled(was, req, at, ids, Abs(), sorted);
      var created, suppressed := Succeed(req, sorted, at, ids);
      result := CloseResult(closed, sorted, created, suppressed);
    }

    /** Another recipient's notification is not found, like a missing one. */
    method Get(recipient: string, id: Id) returns (n: Option<Notification>)
      ensures n.Some? <==> id in notifications && notifications[id].recipient == recipient
      ensures n.Some? ==> n.value == notifications[id]
    {
      if id !in notifications || notifications[id].recipient != recipient {
        return None;
      }
      return Some(notifications[id]);
    }

    method CountActive(recipient: string) returns (count: nat)
      ensures count == |HeldAs(notifications, recipient, true)|
    {
      count := 0;
      ghost var done := {};
      var ids := notifications.Keys;
      while ids != {}
        invariant done <= notifications.Keys && ids == notifications.Keys - done
        invariant count == |ActiveFor(notifications, done, recipient)|
      {
        var id :| id in ids;
        TakeOne(notifications.Keys, done, id);
        ActiveForMore(notifications, done, recipient, id);
        if notifications[id].recipient == recipient && notifications[id].state == Active {
          count := count + 1;
        }
        ids, done := ids - {id}, done + {id};
      }
      assert done == notifications.Keys;
      assert HeldAs(notifications, recipient, true) == ActiveFor(notifications, done, recipient);
    }

    /** Marks each identifier once; the count is the notifications that left ACTIVE. */
    method MarkEach(all: set<Id>, at: Time) returns (marked: nat)
      requires all <= notifications.Keys
      modifies this`notifications
      ensures notifications == MarkedSome(old(notifications), all, at)
      ensures marked == |ActiveAmong(old(notifications), all)|
    {
      marked := 0;
      ghost var was, done := notifications, {};
      var ids := all;
      while ids != {}
        invariant done <= all && ids == all - done
        invariant notifications == MarkedSome(was, done, at) && marked == |ActiveAmong(was, done)|
      {
        var id :| id in ids;
        TakeOne(all, done, id);
        MarkedMore(was, done, at, id);
        ActiveMore(was, done, id);
        var n := notifications[id];
        match n.state {
          case Active =>
            n := n.(state := Read, readAt := Some(at), inactiveAt := Some(at));
            marked := marked + 1;
          case Closed =>
            if n.readAt.None? {
              n := n.(readAt := Some(at));
            }
          case Read =>
        }
        notifications := notifications[id := n];
        ids, done := ids - {id}, done + {id};
      }
      assert done == all;
    }

    /** `MarkRead`: all of the recipient's, or nothing. */
    method MarkReadIds(recipient: string, ids: seq<Id>, at: Time) returns (marked: Option<nat>)
      requires Valid()
      modifies this`notifications
      ensures Valid() && notifications == MarkRead(old(notifications), recipient, ids, at)
      ensures marked.Some? <==> OwnedBy(old(notifications), recipient, ids)
      ensures marked.Some? ==> marked.value == |ActiveAmong(old(notifications), Distinct(ids))|
    {
      for i := 0 to |ids|
        invariant OwnedBy(notifications, recipient, ids[..i])
      {
        if ids[i] !in notifications || notifications[ids[i]].recipient != recipient {
          assert ids[i] in ids;
          return None;
        }
      }
      assert ids[..|ids|] == ids;
      ghost var was := notifications;
      MarkedIsMarkRead(was, recipient, ids, at);
      var count := MarkEach(Distinct(ids), at);
      ChangedInPlace(was, notifications, sources, subjects);
      return Some(count);
    }

    method MarkAllReadThrough(recipient: string, through: Time, at: Time) returns (marked: nat)
      requires Valid()
      modifies this`notifications
      ensures Valid() && notifications == MarkAllRead(old(notifications), recipient, through, at)
      ensures marked == |UnreadBy(old(notifications), recipient, through)|
    {
      ghost var was := notifications;
      MarkedIsMarkAll(was, recipient, through, at);
      marked := MarkEach(UnreadBy(notifications, recipient, through), at);
      ChangedInPlace(was, notifications, sources, subjects);
    }

    // ---------------------------------------------------------------- retention

    method RemoveEach(all: set<Id>)
      requires Valid() && all <= notifications.Keys
      modifies this`notifications, this`sources, this`subjects
      ensures Valid() && notifications == Without(old(notifications), all)
    {
      ghost var was, done := notifications, {};
      var ids := all;
      assert Without(was, done) == was;
      while ids != {}
        invariant done <= all && ids == all - done
        invariant Valid() && notifications == Without(was, done)
      {
        var id :| id in ids;
        TakeOne(all, done, id);
        WithoutMore(was, done, id);
        FiledAt(notifications, id);
        Remove(notifications[id]);
        ids, done := ids - {id}, done + {id};
      }
      assert done == all;
    }

    /** `evict`: up to `n` of the held notifications of one class, oldest first. */
    method Evict(snapshot: map<Id, Notification>, held: seq<Id>, n: nat, active: bool) returns (removed: nat)
      requires Valid() && Ascending(Older(snapshot), held) && Filed(snapshot)
      requires forall id :: id in held ==> id in snapshot
      requires forall id :: id in held && (snapshot[id].state == Active) == active ==>
                 id in notifications && notifications[id] == snapshot[id]
      modifies this`notifications, this`sources, this`subjects
      ensures Valid()
      ensures var sifted := Sift(snapshot, held, active);
              removed == (if n < |sifted| then n else |sifted|) &&
              notifications == Without(old(notifications), Members(sifted[..removed]))
    {
      ghost var was := notifications;
      removed := 0;
      var i := 0;
      assert Without(was, {}) == was;
      while i < |held| && removed < n
        invariant 0 <= i <= |held| && removed <= n && removed == |Sift(snapshot, held[..i], active)|
        invariant Valid() && notifications == Without(was, Members(Sift(snapshot, held[..i], active)))
      {
        var candidate := snapshot[held[i]];
        SiftStep(snapshot, held, i, active);
        if (candidate.state == Active) == active {
          SiftFresh(snapshot, held, i, active);
          WithoutMore(was, Members(Sift(snapshot, held[..i], active)), held[i]);
          Remove(candidate);
          removed := removed + 1;
        }
        i := i + 1;
      }
      SiftPrefix(snapshot, held, i, active);
      assert held[..|held|] == held;
    }

    /** Evicting from everything a recipient held takes the oldest of the class. */
    method EvictOldest(snapshot: map<Id, Notification>, held: seq<Id>, r: string, n: nat, active: bool) returns (removed: nat)
      requires Valid() && Filed(snapshot) && n > 0
      requires Ascending(Older(snapshot), held) && Lists(held, Held(snapshot, r))
      requires forall id :: id in HeldAs(snapshot, r, active) ==> id in notifications && notifications[id] == snapshot[id]
      modifies this`notifications, this`sources, this`subjects
      ensures Valid() && notifications == Without(old(notifications), Oldest(snapshot, HeldAs(snapshot, r, active), n))
      ensures removed == if n < |HeldAs(snapshot, r, active)| then n else |HeldAs(snapshot, r, active)|
    {
      SiftOldest(snapshot, held, r, active, n);
      removed := Evict(snapshot, held, n, active);
    }

    /** The ACTIVE notifications the bound still asks for, once the inactive ones are gone. */
    method EvictRest(snapshot: map<Id, Notification>, held: seq<Id>, r: string, still: nat, req: PruneRequest) returns (evicted: nat)
      requires Valid() && Filed(snapshot) && req.maxPerRecipient > 0 && Excess(snapshot, r, req) > 0
      requires Ascending(Older(snapshot), held) && Lists(held, Held(snapshot, r))
      requires forall id :: id in HeldAs(snapshot, r, true) ==> id in notifications && notifications[id] == snapshot[id]
      requires still == Excess(snapshot, r, req) - |Trimmed(snapshot, r, req)|
      modifies this`notifications, this`sources, this`subjects
      ensures Valid() && notifications == Without(old(notifications), Evicted(snapshot, r, req))
      ensures evicted == |Evicted(snapshot, r, req)|
    {
      Losses(snapshot, r, req);
      if req.strategy != EvictOldestActive || still == 0 {
        WithoutNone(notifications);
        return 0;
      }
      evicted := EvictOldest(snapshot, held, r, still, true);
    }

    method TrimExcess(snapshot: map<Id, Notification>, held: seq<Id>, r: string, req: PruneRequest) returns (trimmed: nat, evicted: nat)
      requires Valid() && Filed(snapshot) && req.maxPerRecipient > 0 && Excess(snapshot, r, req) > 0
      requires Ascending(Older(snapshot), held) && Lists(held, Held(snapshot, r))
      requires forall id :: id in Held(snapshot, r) ==> id in notifications && notifications[id] == snapshot[id]
      modifies this`notifications, this`sources, this`subjects
      ensures Valid() && notifications == Without(old(notifications), Trimmed(snapshot, r, req) + Evicted(snapshot, r, req))
      ensures trimmed == |Trimmed(snapshot, r, req)| && evicted == |Evicted(snapshot, r, req)|
    {
      TrimThenEvict(snapshot, notifications, r, req);
      trimmed := EvictOldest(snapshot, held, r, Excess(snapshot, r, req), false);
      evicted := EvictRest(snapshot, held, r, Excess(snapshot, r, req) - trimmed, req);
    }

    /** The count bound for one recipient, inactive notifications first. */
    method TrimRecipient(snapshot: map<Id, Notification>, r: string, req: PruneRequest) returns (trimmed: nat, evicted: nat)
      requires Valid() && Filed(snapshot) && req.maxPerRecipient > 0
      requires forall id :: id in Held(snapshot, r) ==> id in notifications && notifications[id] == snapshot[id]
      modifies this`notifications, this`sources, this`subjects
      ensures Valid() && notifications == Without(old(notifications), Trimmed(snapshot, r, req) + Evicted(snapshot, r, req))
      ensures trimmed == |Trimmed(snapshot, r, req)| && evicted == |Evicted(snapshot, r, req)|
    {
      if Excess(snapshot, r, req) <= 0 {
        WithoutNone(notifications);
        return 0, 0;
      }
      var held := SortHeld(snapshot, r);
      trimmed, evicted := TrimExcess(snapshot, held, r, req);
    }

    /** One recipient's turn, added to the counters so far. */
    method TrimNext(snapshot: map<Id, Notification>, r: string, req: PruneRequest, ghost done: set<string>, was: (nat, nat))
      returns (now: (nat, nat), loses: bool)
      requires Valid() && Filed(snapshot) && req.maxPerRecipient > 0 && r !in done
      requires TrimmedSoFar(snapshot, notifications, req, done, was.0, was.1)
      modifies this`notifications, this`sources, this`subjects
      ensures Valid() && TrimmedSoFar(snapshot, notifications, req, done + {r}, now.0, now.1)
      ensures loses == LosesActive(snapshot, req, r)
    {
      TrimmedNext(snapshot, notifications, req, done, was.0, was.1, r);
      var trimmed, evicted := TrimRecipient(snapshot, r, req);
      now, loses := (was.0 + trimmed, was.1 + evicted), evicted > 0;
    }

    /** `pruneCount`: every recipient within the bound, and who lost ACTIVE notifications, in order. */
    method PruneCount(req: PruneRequest) returns (counts: (nat, nat), losers: seq<string>)
      requires Valid() && req.maxPerRecipient > 0
      modifies this`notifications, this`sources, this`subjects
      ensures Valid() && TrimmedSoFar(old(notifications), notifications, req, Recipients(old(notifications)), counts.0, counts.1)
      ensures Ascending(Less, losers)
      ensures forall r :: r in losers <==> r in Recipients(old(notifications)) && LosesActive(old(notifications), req, r)
    {
      var snapshot := notifications;
      StringsOrdered(Recipients(snapshot));
      var recipients := SortSet(Recipients(snapshot), Less);
      counts, losers := (0, 0), [];
      TrimmedNone(snapshot, req);
      for i := 0 to |recipients|
        invariant Valid() && TrimmedSoFar(snapshot, notifications, req, Members(recipients[..i]), counts.0, counts.1)
        invariant Picked(losers, recipients[..i], snapshot, req)
      {
        NextMember(recipients, i);
        PickOne(losers, recipients, i, snapshot, req);
        var loses;
        counts, loses := TrimNext(snapshot, recipients[i], req, Members(recipients[..i]), counts);
        if loses {
          losers := losers + [recipients[i]];
        }
      }
      assert recipients[..|recipients|] == recipients && Members(recipients) == Recipients(snapshot);
    }

    /** `pruneWatermarks`: a close record expires when its subject has nothing left, by the index. */
    method PruneWatermarks(req: PruneRequest) returns (deleted: nat)
      requires Valid() && req.watermarkRetention > 0
      modifies this`watermarks
      ensures watermarks == KeptMarks(notifications, old(watermarks), req)
      ensures deleted == |old(watermarks)| - |watermarks|
    {
      ghost var was, done := watermarks, {};
      var keys := watermarks.Keys;
      deleted := 0;
      KeptNone(notifications, was, req);
      while keys != {}
        invariant done <= was.Keys && keys == was.Keys - done
        invariant watermarks == KeptSome(notifications, was, req, done) && deleted == |was| - |watermarks|
      {
        var key :| key in keys;
        KeptMore(notifications, was, req, done, key);
        ListedIsScan(notifications, subjects, key.0);
        if key.0 !in subjects && watermarks[key].updatedAt < req.now - req.watermarkRetention {
          watermarks := watermarks - {key};
          deleted := deleted + 1;
        }
        keys, done := keys - {key}, done + {key};
      }
      assert done == was.Keys;
    }

    /** The count bound, when there is one. */
    method BoundCount(req: PruneRequest) returns (counts: (nat, nat), losers: seq<string>)
      requires Valid()
      modifies this`notifications, this`sources, this`subjects
      ensures Valid()
      ensures notifications == Without(old(notifications), TrimmedAll(old(notifications), req) + EvictedAll(old(notifications), req))
      ensures counts == (|TrimmedAll(old(notifications), req)|, |EvictedAll(old(notifications), req)|)
      ensures Ascending(Less, losers)
      ensures forall r :: r in losers <==> r in Recipients(old(notifications)) && LosesActive(old(notifications), req, r)
    {
      LostAll(notifications, req);
      NothingLost(notifications, req);
      if req.maxPerRecipient > 0 {
        counts, losers := PruneCount(req);
      } else {
        counts, losers := (0, 0), [];
      }
    }

    /** `Prune`: age, then count, then watermarks; the three counters account for what is gone. */
    method PruneAll(req: PruneRequest) returns (result: PruneResult)
      requires Valid()
      modifies this`notifications, this`watermarks, this`sources, this`subjects
      ensures Valid() && Abs() == Prune(old(Abs()), req)
      ensures Counts(result, old(notifications), req) && result.watermarksDeleted == |old(watermarks)| - |watermarks|
      ensures |old(notifications)| == |notifications| + result.deletedForAge + result.deletedForCount + result.evictedActive
    {
      Conserved(notifications, req);
      var aged := AgedOut(notifications, req);
      RemoveEach(aged);
      var counts, losers := BoundCount(req);
      var deleted := 0;
      KeptAll(notifications, watermarks, req);
      if req.watermarkRetention > 0 {
        deleted := PruneWatermarks(req);
      }
      result := PruneResult(|aged|, counts.0, counts.1, deleted, losers);
    }

    // ---------------------------------------------------------------- email rows

    /** `ClaimEmails`: leases the oldest due notifications up to the limit and returns them oldest first. */
    method ClaimEmails(claim: E.Claim) returns (candidates: seq<EmailGroups.Candidate>)
      requires Valid()
      modifies this`deliveries
      ensures deliveries == E.AfterClaim(notifications, old(deliveries), claim)
      ensures Claims(candidates, notifications, deliveries, E.Taken(notifications, old(deliveries), claim))
    {
      ghost var was := deliveries;
      var due := SortDue(notifications, deliveries, claim);
      candidates := [];
      assert Members(due[..0]) == {} && LeasedSome(was, {}, claim) == was;
      for i := 0 to |due|
        invariant Leasing(notifications, was, deliveries, claim, due, i, candidates)
      {
        var id := due[i];
        assert id in Members(due);
        LeaseNext(notifications, was, deliveries, claim, due, i, candidates);
        var delivery := E.Leased(E.Row(deliveries, id), claim);
        deliveries := deliveries[id := delivery];
        candidates := candidates + [CandidateOf(notifications[id], delivery)];
      }
      LeasedAll(notifications, was, deliveries, claim, due, candidates);
    }

    /** `RecordEmails`: writes an outcome on the rows its owner still holds, each once. */
    method RecordEmails(record: E.Record) returns (changed: nat)
      modifies this`deliveries
      ensures deliveries == E.AfterRecord(old(deliveries), record) && changed == |E.Written(old(deliveries), record)|
    {
      ghost var was, done := deliveries, {};
      var ids := record.ids;
      changed := 0;
      RecordedAll(was, record);
      while ids != {}
        invariant done <= record.ids && ids == record.ids - done
        invariant deliveries == RecordedSome(was, record, done) && changed == |WrittenAmong(was, record, done)|
      {
        var id :| id in ids;
        RecordedMore(was, record, done, id);
        TakeOne(record.ids, done, id);
        if id in deliveries && deliveries[id].owner == record.owner {
          deliveries := deliveries[id := E.Apply(deliveries[id], record)];
          changed := changed + 1;
        }
        ids, done := ids - {id}, done + {id};
      }
      assert done == record.ids;
    }

    /** `PurgeEmailRecords`: deletes rows whose notification is gone, lowest identifiers first. */
    method PurgeEmailRecords(limit: int) returns (purged: nat)
      modifies this`deliveries
      ensures deliveries == old(deliveries) - E.Purged(notifications, old(deliveries), limit)
      ensures purged == |E.Purged(notifications, old(deliveries), limit)|
    {
      ghost var was := deliveries;
      var orphans := SortOrphans(notifications, deliveries, limit);
      for i := 0 to |orphans|
        invariant deliveries == was - Members(orphans[..i])
      {
        assert orphans[..i + 1] == orphans[..i] + [orphans[i]];
        assert Members(orphans[..i + 1]) == Members(orphans[..i]) + {orphans[i]};
        deliveries := deliveries - {orphans[i]};
      }
      assert orphans[..|orphans|] == orphans;
      purged := |orphans|;
    }
  }

  /** The rows without a notification, lowest identifier first, cut at the limit. */
  method SortOrphans(ns: map<Id, Notification>, ds: map<Id, E.Delivery>, limit: int) returns (orphans: seq<Id>)
    ensures Members(orphans) == E.Purged(ns, ds, limit) && |orphans| == |E.Purged(ns, ds, limit)|
  {
    StringsOrdered(E.Orphans(ns, ds));
    orphans := SortSet(E.Orphans(ns, ds), Less);
    CutIsPurged(ns, ds, limit, orphans);
    if 0 < limit < |orphans| {
      orphans := orphans[..limit];
    }
  }

  /** The due notifications, oldest first, cut at the claim's limit. */
  method SortDue(ns: map<Id, Notification>, ds: map<Id, E.Delivery>, claim: E.Claim) returns (due: seq<Id>)
    requires Filed(ns)
    ensures Ascending(Older(ns), due) && Members(due) == E.Taken(ns, ds, claim)
  {
    var all := set id | id in ns && E.Claimable(ns[id], E.Row(ds, id), claim);
    assert all == E.Due(ns, ds, claim);
    OlderOrders(ns, all);
    due := SortSet(all, Older(ns));
    CutIsTaken(ns, ds, claim, due);
    if 0 < claim.limit < |due| {
      due := due[..claim.limit];
    }
  }

  /** What each notification counter of a pass stands for, and who lost ACTIVE notifications. */
  ghost predicate Counts(r: PruneResult, was: map<Id, Notification>, req: PruneRequest) {
    && r.deletedForAge == |AgedOut(was, req)|
    && r.deletedForCount == |TrimmedAll(Young(was, req), req)|
    && r.evictedActive == |EvictedAll(Young(was, req), req)|
    && Ascending(Less, r.recipients)
    && forall x :: x in r.recipients <==> x in Recipients(Young(was, req)) && LosesActive(Young(was, req), req, x)
  }

  /** A recipient's notifications, oldest first. */
  method SortHeld(ns: map<Id, Notification>, r: string) returns (held: seq<Id>)
    requires Filed(ns)
    ensures Ascending(Older(ns), held) && Lists(held, Held(ns, r))
  {
    OlderOrders(ns, Held(ns, r));
    held := SortSet(Held(ns, r), Older(ns));
  }
}
