/**
 * What the loops of the in-memory store need: its two indexes, and the store's value after part of an
 * insert, a close or an eviction.
 */
module StoreSteps {
  import opened Basics
  import opened Notifications
  import opened NotificationStore
  import opened NotificationView
  import opened Retention

  datatype InsertResult = InsertResult(created: seq<Notification>, duplicates: nat, suppressed: nat, coalesced: nat)

  datatype CloseResult = CloseResult(
    closed: nat, recipients: seq<string>, successors: seq<Notification>, successorsSuppressed: nat)

  // ---------------------------------------------------------------- the indexes

  function OnSubject(ns: map<Id, Notification>, subject: string): set<Id> {
    set id | id in ns && ns[id].subject == subject
  }

  /** `sources` finds a notification by source and recipient, and no two share them. */
  ghost predicate SourcesIndex(ns: map<Id, Notification>, sources: map<(string, string), Id>) {
    && (forall id :: id in ns ==> KeyOf(ns[id]) in sources && sources[KeyOf(ns[id])] == id)
    && (forall k :: k in sources ==> sources[k] in ns && KeyOf(ns[sources[k]]) == k)
  }

  /** `subjects` lists exactly the subjects that have notifications, with those notifications. */
  ghost predicate SubjectsIndex(ns: map<Id, Notification>, subjects: map<string, set<Id>>) {
    && (forall s :: s in subjects ==> subjects[s] == OnSubject(ns, s) && subjects[s] != {})
    && (forall id :: id in ns ==> ns[id].subject in subjects)
  }

  ghost predicate Indexed(ns: map<Id, Notification>, sources: map<(string, string), Id>, subjects: map<string, set<Id>>) {
    Filed(ns) && SourcesIndex(ns, sources) && SubjectsIndex(ns, subjects)
  }

  function Listed(subjects: map<string, set<Id>>, subject: string): set<Id> {
    if subject in subjects then subjects[subject] else {}
  }

  lemma ListedIsScan(ns: map<Id, Notification>, subjects: map<string, set<Id>>, subject: string)
    requires SubjectsIndex(ns, subjects)
    ensures Listed(subjects, subject) == OnSubject(ns, subject)
    ensures subject in subjects <==> Occupied(ns, subject)
  {
    if subject in subjects {
      var id :| id in subjects[subject];
    }
  }

  lemma PutIndexed(ns: map<Id, Notification>, sources: map<(string, string), Id>, subjects: map<string, set<Id>>, n: Notification)
    requires Indexed(ns, sources, subjects) && n.id !in ns && KeyOf(n) !in sources
    ensures Indexed(ns[n.id := n], sources[KeyOf(n) := n.id], subjects[n.subject := Listed(subjects, n.subject) + {n.id}])
  {
    var ms := ns[n.id := n];
    ListedIsScan(ns, subjects, n.subject);
    assert OnSubject(ms, n.subject) == OnSubject(ns, n.subject) + {n.id};
    assert forall s :: s != n.subject ==> OnSubject(ms, s) == OnSubject(ns, s);
  }

  lemma RemoveIndexed(ns: map<Id, Notification>, sources: map<(string, string), Id>, subjects: map<string, set<Id>>, id: Id)
    requires Indexed(ns, sources, subjects) && id in ns
    ensures var rest := subjects[ns[id].subject] - {id};
            Indexed(ns - {id}, sources - {KeyOf(ns[id])},
                    if rest == {} then subjects - {ns[id].subject} else subjects[ns[id].subject := rest])
  {
    var ms, n := ns - {id}, ns[id];
    ListedIsScan(ns, subjects, n.subject);
    assert OnSubject(ms, n.subject) == OnSubject(ns, n.subject) - {id};
    assert forall s :: s != n.subject ==> OnSubject(ms, s) == OnSubject(ns, s);
  }

  /** The same notifications under the same keys and subjects. */
  ghost predicate SamePlaces(was: map<Id, Notification>, ns: map<Id, Notification>) {
    && ns.Keys == was.Keys
    && forall id :: id in ns ==> ns[id].id == was[id].id && KeyOf(ns[id]) == KeyOf(was[id]) && ns[id].subject == was[id].subject
  }

  /** Changing notifications without moving them keeps the indexes. */
  lemma ChangedInPlace(was: map<Id, Notification>, ns: map<Id, Notification>, sources: map<(string, string), Id>, subjects: map<string, set<Id>>)
    requires Indexed(was, sources, subjects) && SamePlaces(was, ns)
    ensures Indexed(ns, sources, subjects)
  {
    forall s ensures OnSubject(ns, s) == OnSubject(was, s) {
    }
  }

  /** Moving one member from what is left to what is done. */
  lemma TakeOne(all: set<Id>, done: set<Id>, id: Id)
    requires id in all - done
    ensures all - done - {id} == all - (done + {id})
  {
  }

  // ---------------------------------------------------------------- fates

  /** What becomes of each insertion in turn. */
  function Fates(s: Store, subject: string, ins: seq<Insertion>): seq<Fate> {
    if ins == [] then []
    else
      var init, last := ins[..|ins| - 1], ins[|ins| - 1];
      Fates(s, subject, init) + [FateOf(Insert(s, subject, init), last.notification.(subject := subject), last.coalesce)]
  }

  ghost predicate Tallies(r: InsertResult, fates: seq<Fate>) {
    && |r.created| == multiset(fates)[Created] && r.duplicates == multiset(fates)[Repeated]
    && r.suppressed == multiset(fates)[Suppressed] && r.coalesced == multiset(fates)[Coalesced]
  }

  /** Insertions carry identifiers no notification has. */
  ghost predicate Minted(ns: map<Id, Notification>, ins: seq<Insertion>) {
    && (forall i :: 0 <= i < |ins| ==> ins[i].notification.id !in ns)
    && (forall i, j :: 0 <= i < j < |ins| ==> ins[i].notification.id != ins[j].notification.id)
  }


  // ---------------------------------------------------------------- raising watermarks

  function RaisedMarks(ws: map<Key, Mark>, keys: seq<Key>, version: int, at: Time): map<Key, Mark> {
    map key | key in ws.Keys + (set k | k in keys) :: if key in keys then Raised(ws, key, version, at) else ws[key]
  }

  lemma RaiseOne(ws: map<Key, Mark>, keys: seq<Key>, i: nat, version: int, at: Time)
    requires i < |keys|
    ensures var marks, key := RaisedMarks(ws, keys[..i], version, at), keys[i];
            RaisedMarks(ws, keys[..i + 1], version, at) ==
            marks[key := Mark(if key !in marks || marks[key].version < version then version else marks[key].version, at)]
  {
    assert keys[..i + 1] == keys[..i] + [keys[i]];
  }

  // ---------------------------------------------------------------- the closing loop

  ghost predicate ClosedSoFar(
      was: map<Id, Notification>, ns: map<Id, Notification>, done: set<Id>, req: CloseRequest, at: Time,
      closed: nat, recipients: set<string>)
  {
    && ns.Keys == was.Keys && done <= was.Keys
    && (forall id :: id in ns ==> ns[id] == if id in done && Reached(was[id], req) then CloseOne(was[id], req, at) else was[id])
    && closed == |Hit(was, done, req)| && recipients == HitRecipients(was, done, req)
  }

  lemma CloseNext(
      was: map<Id, Notification>, ns: map<Id, Notification>, done: set<Id>, req: CloseRequest, at: Time,
      closed: nat, recipients: set<string>, id: Id)
    requires ClosedSoFar(was, ns, done, req, at, closed, recipients) && id in ns && id !in done
    ensures ns[id] == was[id]
    ensures Reached(was[id], req) ==>
              ClosedSoFar(was, ns[id := CloseOne(ns[id], req, at)], done + {id}, req, at, closed + 1, recipients + {ns[id].recipient})
    ensures !Reached(was[id], req) ==> ClosedSoFar(was, ns, done + {id}, req, at, closed, recipients)
  {
    HitsNext(was, done, req, id);
  }

  lemma HitsNext(was: map<Id, Notification>, done: set<Id>, req: CloseRequest, id: Id)
    requires done <= was.Keys && id in was && id !in done
    ensures Hit(was, done + {id}, req) == if Reached(was[id], req) then Hit(was, done, req) + {id} else Hit(was, done, req)
    ensures HitRecipients(was, done + {id}, req) ==
            HitRecipients(was, done, req) + if Reached(was[id], req) then {was[id].recipient} else {}
  {
  }

  /** The notifications among some that a close reaches, and their recipients. */
  function Hit(was: map<Id, Notification>, done: set<Id>, req: CloseRequest): set<Id>
    requires done <= was.Keys
  {
    set id | id in done && Reached(was[id], req)
  }

  function HitRecipients(was: map<Id, Notification>, done: set<Id>, req: CloseRequest): set<string>
    requires done <= was.Keys
  {
    set id | id in done && Reached(was[id], req) :: was[id].recipient
  }

  lemma ClosedAll(
      was: map<Id, Notification>, ns: map<Id, Notification>, req: CloseRequest, at: Time, closed: nat, recipients: set<string>)
    requires ClosedSoFar(was, ns, OnSubject(was, req.subject), req, at, closed, recipients)
    ensures ns == CloseAll(was, req, at) && recipients == ClosedRecipients(was, req)
    ensures closed == |set id | id in was && Reached(was[id], req)|
  {
    assert (set id | id in was && Reached(was[id], req)) == Hit(was, OnSubject(was, req.subject), req);
  }

  // ---------------------------------------------------------------- successors

  /** The successor insertions for recipients, in order. */
  function Stamps(req: CloseRequest, recipients: seq<string>, at: Time, ids: string -> Id): seq<Insertion> {
    if recipients == [] || req.successor.None? then []
    else
      var k := |recipients| - 1;
      var init := Stamps(req, recipients[..k], at, ids);
      if recipients[k] in req.successorSkip then init
      else init + [Insertion(Stamp(req, req.successor.value, recipients[k], ids(recipients[k]), at), false)]
  }

  method SuccessorInsertions(req: CloseRequest, recipients: seq<string>, at: Time, ids: string -> Id) returns (out: seq<Insertion>)
    ensures out == Stamps(req, recipients, at, ids)
  {
    if req.successor.None? {
      return [];
    }
    out := [];
    for i := 0 to |recipients|
      invariant out == Stamps(req, recipients[..i], at, ids)
    {
      assert recipients[..i + 1][..i] == recipients[..i];
      if recipients[i] !in req.successorSkip {
        out := out + [Insertion(Stamp(req, req.successor.value, recipients[i], ids(recipients[i]), at), false)];
      }
    }
    assert recipients[..|recipients|] == recipients;
  }

  ghost predicate NoRepeats(xs: seq<string>) {
    forall i, j :: 0 <= i < j < |xs| ==> xs[i] != xs[j]
  }

  lemma AscendingDistinct(xs: seq<string>)
    requires Ascending(Less, xs)
    ensures NoRepeats(xs)
  {
    forall i, j | 0 <= i < j < |xs| ensures xs[i] != xs[j] {
      LessAsymmetric(xs[i], xs[j]);
    }
  }

  /** The recipients among the first ones who are stamped a successor. */
  function Stampable(req: CloseRequest, recipients: seq<string>): set<string> {
    set r | r in recipients && r !in req.successorSkip
  }

  lemma {:induction false} StampsOf(req: CloseRequest, recipients: seq<string>, at: Time, ids: string -> Id)
    requires NoRepeats(recipients) && req.successor.Some?
    ensures forall i :: 0 <= i < |Stamps(req, recipients, at, ids)| ==>
              Stamps(req, recipients, at, ids)[i].notification.recipient in Stampable(req, recipients) &&
              Stamps(req, recipients, at, ids)[i].notification.id == ids(Stamps(req, recipients, at, ids)[i].notification.recipient)
    ensures forall i, j :: 0 <= i < j < |Stamps(req, recipients, at, ids)| ==>
              Stamps(req, recipients, at, ids)[i].notification.recipient != Stamps(req, recipients, at, ids)[j].notification.recipient
  {
    if recipients != [] {
      var k := |recipients| - 1;
      StampsOf(req, recipients[..k], at, ids);
      assert recipients == recipients[..k] + [recipients[k]];
    }
  }

  lemma StampsMinted(req: CloseRequest, recipients: seq<string>, at: Time, ids: string -> Id, ns: map<Id, Notification>)
    requires NoRepeats(recipients) && Mints(ids, Stampable(req, recipients), ns)
    ensures Minted(ns, Stamps(req, recipients, at, ids))
  {
    if req.successor.Some? {
      StampsOf(req, recipients, at, ids);
      var ins := Stamps(req, recipients, at, ids);
      forall i, j | 0 <= i < j < |ins| ensures ins[i].notification.id != ins[j].notification.id {
        assert ins[i].notification.recipient != ins[j].notification.recipient;
      }
    }
  }

  /** The stamped recipients an insert accepts. */
  ghost function Accepted(s: Store, req: CloseRequest, recipients: seq<string>): set<string> {
    if req.successor.None? || req.successor.value.version < Floor(s.watermarks, req.subject, req.successor.value.kind) then {}
    else set r | r in Stampable(req, recipients) && !Duplicate(s.notifications, req.successor.value.sourceId, r)
  }

  /** Inserting the stamps adds exactly the accepted successors. */
  lemma {:induction false} SuccessorsInserted(s: Store, req: CloseRequest, recipients: seq<string>, at: Time, ids: string -> Id)
    requires NoRepeats(recipients) && Mints(ids, Stampable(req, recipients), s.notifications)
    requires (req.subject, ALL_KINDS) in s.watermarks
    ensures Insert(s, req.subject, Stamps(req, recipients, at, ids)) ==
            s.(notifications := AddSuccessors(s.notifications, req, Accepted(s, req, recipients), at, ids))
  {
    if recipients == [] || req.successor.None? {
      assert Accepted(s, req, recipients) == {};
      assert AddSuccessors(s.notifications, req, {}, at, ids) == s.notifications;
    } else {
      var k := |recipients| - 1;
      var init, r := recipients[..k], recipients[k];
      assert recipients == init + [r];
      SuccessorsInserted(s, req, init, at, ids);
      var t := Insert(s, req.subject, Stamps(req, init, at, ids));
      if r in req.successorSkip {
        assert Accepted(s, req, recipients) == Accepted(s, req, init);
      } else {
        var n := Stamp(req, req.successor.value, r, ids(r), at);
        var stamps := Stamps(req, recipients, at, ids);
        assert stamps[..|stamps| - 1] == Stamps(req, init, at, ids);
        assert n.(subject := req.subject) == n;
        AddedDuplicate(s.notifications, req, Accepted(s, req, init), at, ids, r);
        if r in Accepted(s, req, recipients) {
          assert Accepted(s, req, recipients) == Accepted(s, req, init) + {r};
          AddOne(s.notifications, req, Accepted(s, req, init), at, ids, r);
        } else {
          assert Accepted(s, req, recipients) == Accepted(s, req, init);
        }
      }
    }
  }

  /** A successor for others does not make one for `r` a duplicate. */
  lemma AddedDuplicate(ns: map<Id, Notification>, req: CloseRequest, rs: set<string>, at: Time, ids: string -> Id, r: string)
    requires req.successor.Some? && Mints(ids, rs, ns) && r !in rs
    ensures Duplicate(AddSuccessors(ns, req, rs, at, ids), req.successor.value.sourceId, r) <==>
            Duplicate(ns, req.successor.value.sourceId, r)
  {
    var ms, source := AddSuccessors(ns, req, rs, at, ids), req.successor.value.sourceId;
    if Duplicate(ns, source, r) {
      var id :| id in ns && ns[id].sourceId == source && ns[id].recipient == r;
      assert id in ms && ms[id] == ns[id];
    }
    if Duplicate(ms, source, r) {
      var id :| id in ms && ms[id].sourceId == source && ms[id].recipient == r;
      assert id in ns;
    }
  }

  lemma AddOne(ns: map<Id, Notification>, req: CloseRequest, rs: set<string>, at: Time, ids: string -> Id, r: string)
    requires req.successor.Some? && Mints(ids, rs + {r}, ns) && r !in rs
    ensures AddSuccessors(ns, req, rs + {r}, at, ids) ==
            AddSuccessors(ns, req, rs, at, ids)[ids(r) := Stamp(req, req.successor.value, r, ids(r), at)]
  {
    StampOne(ns, req, rs, at, ids, r);
  }

  lemma StampOne(ns: map<Id, Notification>, req: CloseRequest, rs: set<string>, at: Time, ids: string -> Id, r: string)
    requires req.successor.Some? && Mints(ids, rs + {r}, ns) && r !in rs
    ensures StampedFor(req, rs + {r}, at, ids) ==
            StampedFor(req, rs, at, ids)[ids(r) := Stamp(req, req.successor.value, r, ids(r), at)]
  {
    assert Names(rs + {r}, ids) == Names(rs, ids) + {ids(r)};
    forall id | id in Names(rs, ids) ensures RecipientOf(rs + {r}, ids, id) == RecipientOf(rs, ids, id) {
    }
    assert RecipientOf(rs + {r}, ids, ids(r)) == r;
  }

  lemma CloseAssembled(was: Store, req: CloseRequest, at: Time, ids: string -> Id, s: Store, recipients: seq<string>)
    requires s == Store(CloseAll(was.notifications, req, at), CloseMarks(was.watermarks, req, at))
    requires Lists(recipients, ClosedRecipients(was.notifications, req))
    ensures s.(notifications := AddSuccessors(s.notifications, req, Accepted(s, req, recipients), at, ids)) ==
            Close(was, req, at, ids)
  {
    if req.successor.Some? {
      var source := req.successor.value.sourceId;
      forall r ensures Duplicate(s.notifications, source, r) <==> Duplicate(was.notifications, source, r) {
        if Duplicate(was.notifications, source, r) {
          var id :| id in was.notifications && was.notifications[id].sourceId == source && was.notifications[id].recipient == r;
          assert s.notifications[id].sourceId == source && s.notifications[id].recipient == r;
        }
      }
    }
    assert Accepted(s, req, recipients) == Succeeded(was.notifications, s.watermarks, req);
  }

  function Tallied(r: InsertResult, fate: Fate, n: Notification): InsertResult {
    match fate
    case Created => r.(created := r.created + [n])
    case Suppressed => r.(suppressed := r.suppressed + 1)
    case Coalesced => r.(coalesced := r.coalesced + 1)
    case Repeated => r.(duplicates := r.duplicates + 1)
  }

  /** The listed notifications are exactly what was added. */
  ghost predicate Creates(was: map<Id, Notification>, created: seq<Notification>, ns: map<Id, Notification>) {
    && (forall id :: id in was ==> id in ns && ns[id] == was[id])
    && (forall n :: n in created ==> n.id in ns && ns[n.id] == n)
    && (forall id :: id in ns && id !in was ==> ns[id] in created)
  }

  /** The first `i` insertions have been made. */
  ghost predicate Inserted(was: Store, s: Store, subject: string, ins: seq<Insertion>, i: nat, r: InsertResult) {
    && i <= |ins| && s == Insert(was, subject, ins[..i]) && Tallies(r, Fates(was, subject, ins[..i]))
    && Creates(was.notifications, r.created, s.notifications) && Minted(s.notifications, ins[i..])
  }

  lemma InsertedStep(was: Store, s: Store, subject: string, ins: seq<Insertion>, i: nat, r: InsertResult)
    requires Inserted(was, s, subject, ins, i, r) && i < |ins|
    ensures ins[i].notification.id !in s.notifications
    ensures var n := ins[i].notification.(subject := subject);
            Inserted(was, InsertOne(s, n, ins[i].coalesce), subject, ins, i + 1, Tallied(r, FateOf(s, n, ins[i].coalesce), n))
  {
    var n := ins[i].notification.(subject := subject);
    assert ins[..i + 1][..i] == ins[..i];
    assert ins[i..][0] == ins[i] && ins[i..][1..] == ins[i + 1..];
    InsertedOne(was, s, n, ins[i].coalesce, r, Fates(was, subject, ins[..i]), ins[i + 1..]);
    assert Fates(was, subject, ins[..i + 1]) == Fates(was, subject, ins[..i]) + [FateOf(s, n, ins[i].coalesce)];
  }

  /** One more insertion keeps the tallies and the list of what was created. */
  lemma InsertedOne(was: Store, s: Store, n: Notification, coalesce: bool, r: InsertResult, fates: seq<Fate>, rest: seq<Insertion>)
    requires n.id !in s.notifications && Tallies(r, fates) && Creates(was.notifications, r.created, s.notifications)
    requires Minted(s.notifications, rest) && forall i :: 0 <= i < |rest| ==> rest[i].notification.id != n.id
    ensures var fate := FateOf(s, n, coalesce);
            Tallies(Tallied(r, fate, n), fates + [fate]) &&
            Creates(was.notifications, Tallied(r, fate, n).created, InsertOne(s, n, coalesce).notifications)
    ensures Minted(InsertOne(s, n, coalesce).notifications, rest)
  {
  }

  lemma DuplicateIndexed(ns: map<Id, Notification>, sources: map<(string, string), Id>, k: (string, string))
    requires SourcesIndex(ns, sources)
    ensures k in sources <==> Duplicate(ns, k.0, k.1)
  {
    if Duplicate(ns, k.0, k.1) {
      var id :| id in ns && ns[id].sourceId == k.0 && ns[id].recipient == k.1;
      assert KeyOf(ns[id]) == k;
    }
  }

  // ---------------------------------------------------------------- marking

  /** The notifications with those under `done` marked. */
  function MarkedSome(ns: map<Id, Notification>, done: set<Id>, at: Time): map<Id, Notification> {
    map id | id in ns :: if id in done then MarkOne(ns[id], at) else ns[id]
  }

  lemma MarkedMore(ns: map<Id, Notification>, done: set<Id>, at: Time, id: Id)
    requires id in ns && id !in done
    ensures MarkedSome(ns, done + {id}, at) == MarkedSome(ns, done, at)[id := MarkOne(ns[id], at)]
  {
  }

  /** Those of some notifications a mark moves from ACTIVE to READ. */
  function ActiveAmong(ns: map<Id, Notification>, ids: set<Id>): set<Id> {
    set id | id in ids && id in ns && ns[id].state == Active
  }

  lemma ActiveMore(ns: map<Id, Notification>, done: set<Id>, id: Id)
    requires id !in done && id in ns
    ensures |ActiveAmong(ns, done + {id})| == |ActiveAmong(ns, done)| + if ns[id].state == Active then 1 else 0
  {
    assert ActiveAmong(ns, done + {id}) == ActiveAmong(ns, done) + if ns[id].state == Active then {id} else {};
  }

  lemma MarkedIsMarkRead(ns: map<Id, Notification>, recipient: string, ids: seq<Id>, at: Time)
    requires OwnedBy(ns, recipient, ids)
    ensures MarkedSome(ns, Distinct(ids), at) == MarkRead(ns, recipient, ids, at)
    ensures SamePlaces(ns, MarkRead(ns, recipient, ids, at))
  {
  }

  /** `slices.Compact` of the sorted identifiers: each once. */
  function Distinct(ids: seq<Id>): set<Id> {
    set id | id in ids
  }

  function UnreadBy(ns: map<Id, Notification>, recipient: string, through: Time): set<Id> {
    set id | id in ns && Unread(ns[id], recipient, through)
  }

  lemma MarkedIsMarkAll(ns: map<Id, Notification>, recipient: string, through: Time, at: Time)
    ensures MarkedSome(ns, UnreadBy(ns, recipient, through), at) == MarkAllRead(ns, recipient, through, at)
    ensures SamePlaces(ns, MarkAllRead(ns, recipient, through, at))
    ensures ActiveAmong(ns, UnreadBy(ns, recipient, through)) == UnreadBy(ns, recipient, through)
  {
  }

  /** A recipient's ACTIVE notifications among some. */
  function ActiveFor(ns: map<Id, Notification>, done: set<Id>, recipient: string): set<Id> {
    set id | id in done && id in HeldAs(ns, recipient, true)
  }

  lemma ActiveForMore(ns: map<Id, Notification>, done: set<Id>, recipient: string, id: Id)
    requires id in ns && id !in done
    ensures |ActiveFor(ns, done + {id}, recipient)| ==
            |ActiveFor(ns, done, recipient)| + if ns[id].recipient == recipient && ns[id].state == Active then 1 else 0
  {
    assert ActiveFor(ns, done + {id}, recipient) ==
           ActiveFor(ns, done, recipient) + if ns[id].recipient == recipient && ns[id].state == Active then {id} else {};
  }

  // ---------------------------------------------------------------- evicting

  /** The ids of held notifications that are ACTIVE, or that are not, in order. */
  function Sift(ns: map<Id, Notification>, held: seq<Id>, active: bool): seq<Id> {
    if held == [] then []
    else
      var k := |held| - 1;
      var init := Sift(ns, held[..k], active);
      if held[k] in ns && (ns[held[k]].state == Active) == active then init + [held[k]] else init
  }

  lemma {:induction false} SiftOrdered(ns: map<Id, Notification>, held: seq<Id>, active: bool)
    requires Ascending(Older(ns), held)
    ensures Ascending(Older(ns), Sift(ns, held, active))
    ensures forall id :: id in Sift(ns, held, active) <==> id in held && id in ns && (ns[id].state == Active) == active
  {
    if held != [] {
      var k := |held| - 1;
      SiftOrdered(ns, held[..k], active);
      assert held == held[..k] + [held[k]];
      var init := Sift(ns, held[..k], active);
      forall i | 0 <= i < |init| ensures Older(ns)(init[i], held[k]) {
        assert init[i] in held[..k];
        var j :| 0 <= j < k && held[j] == init[i];
      }
    }
  }

  lemma FiledAt(ns: map<Id, Notification>, id: Id)
    requires Filed(ns) && id in ns
    ensures ns[id].id == id
  {
  }

  lemma SiftStep(ns: map<Id, Notification>, held: seq<Id>, i: nat, active: bool)
    requires i < |held|
    ensures var more := held[i] in ns && (ns[held[i]].state == Active) == active;
            Sift(ns, held[..i + 1], active) == (if more then Sift(ns, held[..i], active) + [held[i]] else Sift(ns, held[..i], active)) &&
            Members(Sift(ns, held[..i + 1], active)) ==
              (if more then Members(Sift(ns, held[..i], active)) + {held[i]} else Members(Sift(ns, held[..i], active)))
  {
    assert held[..i + 1][..i] == held[..i];
  }

  /** The next held notification is not among those already sifted. */
  lemma SiftFresh(ns: map<Id, Notification>, held: seq<Id>, i: nat, active: bool)
    requires i < |held| && Ascending(Older(ns), held) && Filed(ns) && held[i] in ns
    ensures held[i] !in Members(Sift(ns, held[..i], active))
  {
    SiftOrdered(ns, held[..i], active);
    if held[i] in held[..i] {
      var j :| 0 <= j < i && held[j] == held[i];
      assert Older(ns)(held[j], held[i]) && Before(ns[held[i]], ns[held[i]]);
      LessAsymmetric(ns[held[i]].id, ns[held[i]].id);
    }
  }

  lemma {:induction false} SiftPrefix(ns: map<Id, Notification>, held: seq<Id>, i: nat, active: bool)
    requires i <= |held|
    ensures |Sift(ns, held[..i], active)| <= |Sift(ns, held, active)|
    ensures Sift(ns, held, active)[..|Sift(ns, held[..i], active)|] == Sift(ns, held[..i], active)
    decreases |held| - i
  {
    if i == |held| {
      assert held[..i] == held;
    } else {
      SiftStep(ns, held, i, active);
      SiftPrefix(ns, held, i + 1, active);
    }
  }

  /** The first few of the sifted ones, in order of age, are the oldest of their class. */
  lemma SiftOldest(ns: map<Id, Notification>, held: seq<Id>, r: string, active: bool, n: nat)
    requires Filed(ns) && Ascending(Older(ns), held) && Lists(held, Held(ns, r)) && n > 0
    ensures var sifted := Sift(ns, held, active);
            Members(sifted[..if n < |sifted| then n else |sifted|]) == Oldest(ns, HeldAs(ns, r, active), n)
    ensures |Sift(ns, held, active)| == |HeldAs(ns, r, active)|
    ensures forall id :: id in Sift(ns, held, active) ==> id in HeldAs(ns, r, active)
  {
    var sifted, ids := Sift(ns, held, active), HeldAs(ns, r, active);
    SiftOrdered(ns, held, active);
    assert Members(sifted) == ids;
    OlderOrders(ns, ids);
    CutIsLowest(Older(ns), sifted, ids, n);
    OldestIsLowest(ns, ids, n);
    AscendingSize(Older(ns), sifted);
    assert sifted[..|sifted|] == sifted;
  }

  lemma WithoutMore(ns: map<Id, Notification>, gone: set<Id>, id: Id)
    ensures Without(ns, gone) - {id} == Without(ns, gone + {id})
  {
  }

  // ---------------------------------------------------------------- the count bound, recipient by recipient

  /** What the count bound takes from some recipients. */
  ghost function TrimmedOf(ns: map<Id, Notification>, req: PruneRequest, done: set<string>): set<Id> {
    set id | id in ns && ns[id].recipient in done && id in Trimmed(ns, ns[id].recipient, req)
  }

  ghost function EvictedOf(ns: map<Id, Notification>, req: PruneRequest, done: set<string>): set<Id> {
    set id | id in ns && ns[id].recipient in done && id in Evicted(ns, ns[id].recipient, req)
  }

  lemma TrimmedMore(ns: map<Id, Notification>, req: PruneRequest, done: set<string>, r: string)
    requires r !in done
    ensures TrimmedOf(ns, req, done + {r}) == TrimmedOf(ns, req, done) + Trimmed(ns, r, req)
    ensures |TrimmedOf(ns, req, done + {r})| == |TrimmedOf(ns, req, done)| + |Trimmed(ns, r, req)|
  {
    var before, more := TrimmedOf(ns, req, done), Trimmed(ns, r, req);
    LostAreHeld(ns, r, req);
    assert forall id :: id in more ==> id in ns && ns[id].recipient == r;
    forall id ensures id in TrimmedOf(ns, req, done + {r}) <==> id in before || id in more {
      if id in ns && ns[id].recipient != r {
        assert ns[id].recipient in done + {r} <==> ns[id].recipient in done;
      }
    }
    assert before !! more;
    assert TrimmedOf(ns, req, done + {r}) == before + more;
  }

  lemma EvictedMore(ns: map<Id, Notification>, req: PruneRequest, done: set<string>, r: string)
    requires r !in done
    ensures EvictedOf(ns, req, done + {r}) == EvictedOf(ns, req, done) + Evicted(ns, r, req)
    ensures |EvictedOf(ns, req, done + {r})| == |EvictedOf(ns, req, done)| + |Evicted(ns, r, req)|
  {
    LostAreHeld(ns, r, req);
    assert EvictedOf(ns, req, done) !! Evicted(ns, r, req);
    assert EvictedOf(ns, req, done + {r}) == EvictedOf(ns, req, done) + Evicted(ns, r, req);
  }

  function Recipients(ns: map<Id, Notification>): set<string> {
    set id | id in ns :: ns[id].recipient
  }

  /** The recipients who lose an ACTIVE notification. */
  ghost predicate LosesActive(ns: map<Id, Notification>, req: PruneRequest, r: string) {
    Evicted(ns, r, req) != {}
  }

  /** What a recipient still holds of a snapshot while others are trimmed. */
  lemma StillHeld(ns: map<Id, Notification>, req: PruneRequest, done: set<string>, r: string)
    requires r !in done
    ensures var rest := Without(ns, TrimmedOf(ns, req, done) + EvictedOf(ns, req, done));
            forall id :: id in Held(ns, r) ==> id in rest && rest[id] == ns[id]
  {
  }

  lemma WithoutTwice(ns: map<Id, Notification>, a: set<Id>, b: set<Id>)
    ensures Without(Without(ns, a), b) == Without(ns, a + b)
  {
  }

  lemma WithoutTrimmed(ns: map<Id, Notification>, req: PruneRequest, done: set<string>, r: string)
    requires r !in done
    ensures Without(Without(ns, TrimmedOf(ns, req, done) + EvictedOf(ns, req, done)), Trimmed(ns, r, req) + Evicted(ns, r, req)) ==
            Without(ns, TrimmedOf(ns, req, done + {r}) + EvictedOf(ns, req, done + {r}))
  {
    TrimmedMore(ns, req, done, r);
    EvictedMore(ns, req, done, r);
    WithoutTwice(ns, TrimmedOf(ns, req, done) + EvictedOf(ns, req, done), Trimmed(ns, r, req) + Evicted(ns, r, req));
    assert TrimmedOf(ns, req, done) + EvictedOf(ns, req, done) + (Trimmed(ns, r, req) + Evicted(ns, r, req)) ==
           TrimmedOf(ns, req, done + {r}) + EvictedOf(ns, req, done + {r});
  }

  lemma LostAll(ns: map<Id, Notification>, req: PruneRequest)
    ensures TrimmedOf(ns, req, Recipients(ns)) == TrimmedAll(ns, req)
    ensures EvictedOf(ns, req, Recipients(ns)) == EvictedAll(ns, req)
  {
  }

  /** The listed recipients who lose ACTIVE notifications, in order. */
  ghost predicate Picked(losers: seq<string>, recipients: seq<string>, ns: map<Id, Notification>, req: PruneRequest) {
    && Ascending(Less, losers)
    && (forall r :: r in losers <==> r in recipients && LosesActive(ns, req, r))
  }

  lemma PickOne(losers: seq<string>, recipients: seq<string>, i: nat, ns: map<Id, Notification>, req: PruneRequest)
    requires i < |recipients| && Ascending(Less, recipients) && Picked(losers, recipients[..i], ns, req)
    ensures Picked(if LosesActive(ns, req, recipients[i]) then losers + [recipients[i]] else losers, recipients[..i + 1], ns, req)
  {
    assert recipients[..i + 1] == recipients[..i] + [recipients[i]];
    forall k | 0 <= k < |losers| ensures Less(losers[k], recipients[i]) {
      assert losers[k] in recipients[..i];
      var j :| 0 <= j < i && recipients[j] == losers[k];
    }
  }

  /** Some recipients have been brought within the bound. */
  ghost predicate TrimmedSoFar(
      snapshot: map<Id, Notification>, ns: map<Id, Notification>, req: PruneRequest, done: set<string>, trimmed: nat, evicted: nat)
  {
    && ns == Without(snapshot, TrimmedOf(snapshot, req, done) + EvictedOf(snapshot, req, done))
    && trimmed == |TrimmedOf(snapshot, req, done)| && evicted == |EvictedOf(snapshot, req, done)|
  }

  lemma TrimmedNone(snapshot: map<Id, Notification>, req: PruneRequest)
    ensures TrimmedSoFar(snapshot, snapshot, req, {}, 0, 0)
  {
    assert TrimmedOf(snapshot, req, {}) == {} && EvictedOf(snapshot, req, {}) == {};
    assert Without(snapshot, {}) == snapshot;
  }

  lemma TrimmedNext(
      snapshot: map<Id, Notification>, ns: map<Id, Notification>, req: PruneRequest, done: set<string>, trimmed: nat, evicted: nat, r: string)
    requires TrimmedSoFar(snapshot, ns, req, done, trimmed, evicted) && r !in done
    ensures forall id :: id in Held(snapshot, r) ==> id in ns && ns[id] == snapshot[id]
    ensures TrimmedSoFar(snapshot, Without(ns, Trimmed(snapshot, r, req) + Evicted(snapshot, r, req)), req, done + {r},
                         trimmed + |Trimmed(snapshot, r, req)|, evicted + |Evicted(snapshot, r, req)|)
  {
    StillHeld(snapshot, req, done, r);
    WithoutTrimmed(snapshot, req, done, r);
    TrimmedMore(snapshot, req, done, r);
    EvictedMore(snapshot, req, done, r);
  }

  lemma WithoutNone(ns: map<Id, Notification>)
    ensures Without(ns, {}) == ns
  {
  }

  lemma NextMember(xs: seq<string>, i: nat)
    requires Ascending(Less, xs) && i < |xs|
    ensures xs[i] !in Members(xs[..i]) && Members(xs[..i + 1]) == Members(xs[..i]) + {xs[i]}
  {
    assert xs[..i + 1] == xs[..i] + [xs[i]];
    AscendingDistinct(xs);
  }

  /** Trimming the inactive ones leaves the ACTIVE ones to evict. */
  lemma TrimThenEvict(snapshot: map<Id, Notification>, ns: map<Id, Notification>, r: string, req: PruneRequest)
    requires Filed(snapshot) && req.maxPerRecipient > 0 && Excess(snapshot, r, req) > 0
    requires forall id :: id in Held(snapshot, r) ==> id in ns && ns[id] == snapshot[id]
    ensures forall id :: id in HeldAs(snapshot, r, false) ==> id in ns && ns[id] == snapshot[id]
    ensures var rest := Without(ns, Trimmed(snapshot, r, req));
            (forall id :: id in HeldAs(snapshot, r, true) ==> id in rest && rest[id] == snapshot[id]) &&
            Without(rest, Evicted(snapshot, r, req)) == Without(ns, Trimmed(snapshot, r, req) + Evicted(snapshot, r, req))
    ensures |Trimmed(snapshot, r, req)| <= Excess(snapshot, r, req)
    ensures |Trimmed(snapshot, r, req)| ==
            if Excess(snapshot, r, req) < |HeldAs(snapshot, r, false)| then Excess(snapshot, r, req) else |HeldAs(snapshot, r, false)|
  {
    Losses(snapshot, r, req);
    LostAreHeld(snapshot, r, req);
    WithoutTwice(ns, Trimmed(snapshot, r, req), Evicted(snapshot, r, req));
    assert HeldAs(snapshot, r, false) <= Held(snapshot, r) && HeldAs(snapshot, r, true) <= Held(snapshot, r);
    assert HeldAs(snapshot, r, true) !! Trimmed(snapshot, r, req);
  }

  /** With no count bound nothing is trimmed. */
  lemma NothingLost(ns: map<Id, Notification>, req: PruneRequest)
    ensures req.maxPerRecipient <= 0 ==> TrimmedAll(ns, req) == {} && EvictedAll(ns, req) == {}
    ensures req.maxPerRecipient <= 0 ==> forall r :: !LosesActive(ns, req, r)
    ensures Without(ns, {}) == ns
  {
    WithoutNone(ns);
  }

  // ---------------------------------------------------------------- expiring watermarks

  function KeptSome(ns: map<Id, Notification>, ws: map<Key, Mark>, req: PruneRequest, done: set<Key>): map<Key, Mark> {
    map key | key in ws && !(key in done && Expired(ns, key, ws[key], req)) :: ws[key]
  }

  lemma KeptNone(ns: map<Id, Notification>, ws: map<Key, Mark>, req: PruneRequest)
    ensures KeptSome(ns, ws, req, {}) == ws && KeptSome(ns, ws, req, ws.Keys) == KeptMarks(ns, ws, req)
  {
  }

  lemma KeptMore(ns: map<Id, Notification>, ws: map<Key, Mark>, req: PruneRequest, done: set<Key>, key: Key)
    requires key in ws && key !in done
    ensures key in KeptSome(ns, ws, req, done) && KeptSome(ns, ws, req, done)[key] == ws[key]
    ensures KeptSome(ns, ws, req, done + {key}) ==
            if Expired(ns, key, ws[key], req) then KeptSome(ns, ws, req, done) - {key} else KeptSome(ns, ws, req, done)
    ensures |KeptSome(ns, ws, req, done) - {key}| == |KeptSome(ns, ws, req, done)| - 1
    ensures ws.Keys - done - {key} == ws.Keys - (done + {key})
  {
    var kept := KeptSome(ns, ws, req, done);
    assert (kept - {key}).Keys == kept.Keys - {key};
    assert |kept - {key}| == |(kept - {key}).Keys| && |kept| == |kept.Keys|;
  }

  lemma KeptAll(ns: map<Id, Notification>, ws: map<Key, Mark>, req: PruneRequest)
    ensures req.watermarkRetention <= 0 ==> KeptMarks(ns, ws, req) == ws
  {
  }
}
