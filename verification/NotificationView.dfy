/**
 * What a replay must not change: every notification's subject, kind, version, state and closing
 * reason, keyed by the source and recipient that identify it across runs, and the watermark
 * versions. The store's operations act on this view alone, whatever identifiers and times they use.
 */
module NotificationView {
  import opened Basics
  import opened Notifications
  import opened NotificationStore

  datatype Row = Row(subject: string, kind: string, version: int, state: State, reason: string)

  /** Rows by source and recipient; watermark versions by subject and kind. */
  datatype View = View(rows: map<(string, string), Row>, marks: map<Key, int>)

  datatype Draft = Draft(
    recipient: string, sourceId: string, subject: string, kind: string, version: int, body: string, coalesce: bool)

  datatype Step = CloseStep(req: CloseRequest) | PublishStep(drafts: seq<Draft>)

  function Level(marks: map<Key, int>, key: Key): int {
    if key in marks then marks[key] else -1
  }

  function ViewFloor(marks: map<Key, int>, subject: string, kind: string): int {
    Max(-1, Max(Level(marks, (subject, kind)), Level(marks, (subject, ALL_KINDS))))
  }

  ghost predicate ViewOpen(v: View, recipient: string, subject: string, kind: string) {
    exists source :: Holds(v, source, recipient, subject, kind)
  }

  predicate Holds(v: View, source: string, recipient: string, subject: string, kind: string) {
    (source, recipient) in v.rows &&
    v.rows[(source, recipient)].subject == subject && v.rows[(source, recipient)].kind == kind &&
    v.rows[(source, recipient)].state != Closed
  }

  function EnsureLevel(marks: map<Key, int>, key: Key): map<Key, int> {
    if key in marks then marks else marks[key := -1]
  }

  /** A draft that can no longer create anything. */
  ghost predicate DraftDone(v: View, d: Draft) {
    || d.version < ViewFloor(v.marks, d.subject, d.kind)
    || (d.sourceId, d.recipient) in v.rows
    || (d.coalesce && ViewOpen(v, d.recipient, d.subject, d.kind))
  }

  ghost function PublishOne(v: View, d: Draft): View {
    if DraftDone(v, d) then v
    else View(v.rows[(d.sourceId, d.recipient) := Row(d.subject, d.kind, d.version, Active, "")],
              EnsureLevel(v.marks, (d.subject, ALL_KINDS)))
  }

  ghost function Publish(v: View, ds: seq<Draft>): View {
    if ds == [] then v else PublishOne(Publish(v, ds[..|ds| - 1]), ds[|ds| - 1])
  }

  predicate RowReached(recipient: string, r: Row, req: CloseRequest) {
    && r.subject == req.subject
    && r.state != Closed
    && r.version <= req.version
    && (req.kinds == [] || r.kind in req.kinds)
    && !(req.except != "" && recipient == req.except)
  }

  function CloseLevels(marks: map<Key, int>, req: CloseRequest): map<Key, int> {
    var marks1 := EnsureLevel(marks, (req.subject, ALL_KINDS));
    map key | key in marks1.Keys + ClosedKeys(req) ::
      if key !in ClosedKeys(req) then marks1[key]
      else if key in marks1 then Max(marks1[key], req.version) else req.version
  }

  /** The recipients who get a successor. */
  ghost function ViewSucceeded(v: View, req: CloseRequest): set<string> {
    if req.successor.None? ||
       req.successor.value.version < ViewFloor(CloseLevels(v.marks, req), req.subject, req.successor.value.kind) then {}
    else set k | k in v.rows && RowReached(k.1, v.rows[k], req) && k.1 !in req.successorSkip &&
                 (req.successor.value.sourceId, k.1) !in v.rows :: k.1
  }

  function ClosedRows(rows: map<(string, string), Row>, req: CloseRequest): map<(string, string), Row> {
    map k | k in rows :: if RowReached(k.1, rows[k], req) then rows[k].(state := Closed, reason := req.reason) else rows[k]
  }

  function SuccessorRows(req: CloseRequest, rs: set<string>): map<(string, string), Row>
    requires req.successor.Some?
  {
    map k | k in SuccessorKeys(req.successor.value, rs) ::
      Row(req.subject, req.successor.value.kind, req.successor.value.version, Active, "")
  }

  ghost function CloseView(v: View, req: CloseRequest): View {
    View(if req.successor.None? then ClosedRows(v.rows, req)
         else ClosedRows(v.rows, req) + SuccessorRows(req, ViewSucceeded(v, req)),
         CloseLevels(v.marks, req))
  }

  function SuccessorKeys(s: Successor, rs: set<string>): set<(string, string)> {
    set r | r in rs :: (s.sourceId, r)
  }

  ghost function Exec(v: View, s: Step): View {
    match s
    case CloseStep(req) => CloseView(v, req)
    case PublishStep(ds) => Publish(v, ds)
  }

  // ---------------------------------------------------------------- stores and their views

  function KeyOf(n: Notification): (string, string) {
    (n.sourceId, n.recipient)
  }

  function RowOf(n: Notification): Row {
    Row(n.subject, n.kind, n.version, n.state, if n.state == Closed then n.closedReason else "")
  }

  ghost predicate Shown(ns: map<Id, Notification>, k: (string, string)) {
    exists id :: id in ns && KeyOf(ns[id]) == k
  }

  /** `rows` shows each notification under its key, and nothing else. */
  ghost predicate ShowsRows(ns: map<Id, Notification>, rows: map<(string, string), Row>) {
    && (forall id :: id in ns ==> KeyOf(ns[id]) in rows && rows[KeyOf(ns[id])] == RowOf(ns[id]))
    && (forall k :: k in rows ==> Shown(ns, k))
  }

  ghost predicate ShowsMarks(ws: map<Key, Mark>, marks: map<Key, int>) {
    marks.Keys == ws.Keys && forall key :: key in marks ==> marks[key] == ws[key].version
  }

  ghost predicate Views(s: Store, v: View) {
    ShowsRows(s.notifications, v.rows) && ShowsMarks(s.watermarks, v.marks)
  }

  function Drafted(d: Draft, id: Id, at: Time): Notification {
    Notification(id, d.recipient, d.sourceId, d.subject, d.version, d.kind, Active, "", d.body, at, None, None, None)
  }

  lemma SameOpen(s: Store, v: View, recipient: string, subject: string, kind: string)
    requires Views(s, v)
    ensures ViewOpen(v, recipient, subject, kind) == HasOpen(s.notifications, recipient, subject, kind)
  {
    if HasOpen(s.notifications, recipient, subject, kind) {
      var id :| id in s.notifications && Open(s.notifications[id]) && s.notifications[id].recipient == recipient &&
                s.notifications[id].subject == subject && s.notifications[id].kind == kind;
      assert Holds(v, s.notifications[id].sourceId, recipient, subject, kind);
    }
    if ViewOpen(v, recipient, subject, kind) {
      var source :| Holds(v, source, recipient, subject, kind);
      assert Shown(s.notifications, (source, recipient));
    }
  }

  lemma SameDuplicate(ns: map<Id, Notification>, rows: map<(string, string), Row>, source: string, recipient: string)
    requires ShowsRows(ns, rows)
    ensures ((source, recipient) in rows) == Duplicate(ns, source, recipient)
  {
    if (source, recipient) in rows {
      assert Shown(ns, (source, recipient));
    }
  }

  lemma SameFate(s: Store, v: View, d: Draft, id: Id, at: Time)
    requires Views(s, v)
    ensures DraftDone(v, d) <==> FateOf(s, Drafted(d, id, at), d.coalesce) != Created
  {
    SameOpen(s, v, d.recipient, d.subject, d.kind);
    SameDuplicate(s.notifications, v.rows, d.sourceId, d.recipient);
  }

  lemma PutShows(ns: map<Id, Notification>, rows: map<(string, string), Row>, n: Notification)
    requires ShowsRows(ns, rows) && n.id !in ns && KeyOf(n) !in rows
    ensures ShowsRows(ns[n.id := n], rows[KeyOf(n) := RowOf(n)])
  {
    var ms := ns[n.id := n];
    forall k | k in rows || k == KeyOf(n) ensures Shown(ms, k) {
      if k == KeyOf(n) {
        assert ms[n.id] == n;
      } else {
        assert Shown(ns, k);
        var id :| id in ns && KeyOf(ns[id]) == k;
        assert ms[id] == ns[id];
      }
    }
  }

  /** Inserting a draft does to the store's view what publishing it does to a view. */
  lemma InsertShows(s: Store, v: View, d: Draft, id: Id, at: Time)
    requires Views(s, v) && id !in s.notifications
    ensures Views(InsertOne(s, Drafted(d, id, at), d.coalesce), PublishOne(v, d))
  {
    SameFate(s, v, d, id, at);
    if !DraftDone(v, d) {
      PutShows(s.notifications, v.rows, Drafted(d, id, at));
    }
  }

  /** `Service.Publish` stamps each draft with an identifier and an instant. */
  function Stamped(ds: seq<Draft>, ids: seq<Id>, at: Time): seq<Insertion>
    requires |ids| == |ds|
  {
    seq(|ds|, i requires 0 <= i < |ds| => Insertion(Drafted(ds[i], ids[i], at), ds[i].coalesce))
  }

  ghost predicate Unused(ids: seq<Id>, ns: map<Id, Notification>) {
    && (forall i, j :: 0 <= i < j < |ids| ==> ids[i] != ids[j])
    && (forall i :: 0 <= i < |ids| ==> ids[i] !in ns)
  }

  lemma {:induction false} PublishShows(s: Store, v: View, subject: string, ds: seq<Draft>, ids: seq<Id>, at: Time)
    requires Views(s, v) && |ids| == |ds| && Unused(ids, s.notifications)
    requires forall d :: d in ds ==> d.subject == subject
    ensures Views(Insert(s, subject, Stamped(ds, ids, at)), Publish(v, ds))
    ensures forall id :: id in Insert(s, subject, Stamped(ds, ids, at)).notifications ==> id in s.notifications || id in ids
  {
    if ds != [] {
      var k := |ds| - 1;
      PublishShows(s, v, subject, ds[..k], ids[..k], at);
      assert Stamped(ds, ids, at)[..k] == Stamped(ds[..k], ids[..k], at);
      InsertShows(Insert(s, subject, Stamped(ds[..k], ids[..k], at)), Publish(v, ds[..k]), ds[k], ids[k], at);
      assert Drafted(ds[k], ids[k], at).(subject := subject) == Drafted(ds[k], ids[k], at);
    }
  }

  /** The rows a close leaves, before any successor. */
  lemma CloseAllShows(ns: map<Id, Notification>, rows: map<(string, string), Row>, req: CloseRequest, at: Time)
    requires ShowsRows(ns, rows)
    ensures ShowsRows(CloseAll(ns, req, at), ClosedRows(rows, req))
  {
    var ms, closed := CloseAll(ns, req, at), ClosedRows(rows, req);
    forall id | id in ms ensures KeyOf(ms[id]) in closed && closed[KeyOf(ms[id])] == RowOf(ms[id]) {
      assert KeyOf(ms[id]) == KeyOf(ns[id]);
      assert Reached(ns[id], req) == RowReached(ns[id].recipient, RowOf(ns[id]), req);
    }
    forall k | k in closed ensures Shown(ms, k) {
      assert Shown(ns, k);
      var id :| id in ns && KeyOf(ns[id]) == k;
      assert KeyOf(ms[id]) == k;
    }
  }

  lemma CloseMarksShow(ws: map<Key, Mark>, marks: map<Key, int>, req: CloseRequest, at: Time)
    requires ShowsMarks(ws, marks)
    ensures ShowsMarks(CloseMarks(ws, req, at), CloseLevels(marks, req))
  {
  }

  /** A recipient is closed exactly when one of its rows is reached. */
  lemma SameRecipients(ns: map<Id, Notification>, rows: map<(string, string), Row>, req: CloseRequest, r: string)
    requires ShowsRows(ns, rows)
    ensures r in ClosedRecipients(ns, req) <==> exists k :: k in rows && RowReached(k.1, rows[k], req) && k.1 == r
  {
    if r in ClosedRecipients(ns, req) {
      var id :| id in ns && Reached(ns[id], req) && ns[id].recipient == r;
      assert RowReached(KeyOf(ns[id]).1, rows[KeyOf(ns[id])], req);
    }
    if k :| k in rows && RowReached(k.1, rows[k], req) && k.1 == r {
      assert Shown(ns, k);
      var id :| id in ns && KeyOf(ns[id]) == k;
      assert Reached(ns[id], req);
    }
  }

  lemma SameSucceeded(s: Store, v: View, req: CloseRequest, at: Time)
    requires Views(s, v)
    ensures ViewSucceeded(v, req) == Succeeded(s.notifications, CloseMarks(s.watermarks, req, at), req)
  {
    CloseMarksShow(s.watermarks, v.marks, req, at);
    if req.successor.Some? {
      var source := req.successor.value.sourceId;
      forall r ensures r in ViewSucceeded(v, req) <==> r in Succeeded(s.notifications, CloseMarks(s.watermarks, req, at), req) {
        SameRecipients(s.notifications, v.rows, req, r);
        SameDuplicate(s.notifications, v.rows, source, r);
      }
    }
  }

  /** The identifiers minted for successors are new and differ from each other. */
  ghost predicate Mints(ids: string -> Id, rs: set<string>, ns: map<Id, Notification>) {
    && (forall r :: r in rs ==> ids(r) !in ns)
    && (forall r, q :: r in rs && q in rs && ids(r) == ids(q) ==> r == q)
  }

  lemma AddShows(ns: map<Id, Notification>, rows: map<(string, string), Row>, req: CloseRequest, rs: set<string>,
                 at: Time, ids: string -> Id)
    requires ShowsRows(ns, rows) && req.successor.Some? && Mints(ids, rs, ns)
    requires forall r :: r in rs ==> (req.successor.value.sourceId, r) !in rows
    ensures ShowsRows(AddSuccessors(ns, req, rs, at, ids), rows + SuccessorRows(req, rs))
  {
    var ms, all := AddSuccessors(ns, req, rs, at, ids), rows + SuccessorRows(req, rs);
    forall id | id in ms ensures KeyOf(ms[id]) in all && all[KeyOf(ms[id])] == RowOf(ms[id]) {
      if id in Names(rs, ids) {
        assert RecipientOf(rs, ids, id) in rs;
      }
    }
    forall k | k in all ensures Shown(ms, k) {
      if k in rows {
        assert Shown(ns, k);
        var id :| id in ns && KeyOf(ns[id]) == k;
        assert id in ms && ms[id] == ns[id];
      } else {
        assert KeyOf(ms[ids(k.1)]) == k;
      }
    }
  }

  /** Closing does to the store's view what it does to a view. */
  lemma CloseShows(s: Store, v: View, req: CloseRequest, at: Time, ids: string -> Id)
    requires Views(s, v) && Mints(ids, ViewSucceeded(v, req), s.notifications)
    ensures Views(Close(s, req, at, ids), CloseView(v, req))
  {
    var ns, rows := CloseAll(s.notifications, req, at), ClosedRows(v.rows, req);
    var rs := ViewSucceeded(v, req);
    SameSucceeded(s, v, req, at);
    CloseMarksShow(s.watermarks, v.marks, req, at);
    assert ShowsRows(AddSuccessors(ns, req, rs, at, ids), CloseView(v, req).rows) by {
      CloseAllShows(s.notifications, v.rows, req, at);
      if req.successor.Some? {
        AddShows(ns, rows, req, rs, at, ids);
      } else {
        assert AddSuccessors(ns, req, rs, at, ids) == ns;
      }
    }
    assert Close(s, req, at, ids).notifications == AddSuccessors(ns, req, rs, at, ids);
  }
}
