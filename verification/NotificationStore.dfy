/**
 * The notification store as a value, without its indexes: what each operation of
 * notify/memory.go does, decided by scanning every notification.
 */
module NotificationStore {
  import opened Basics
  import opened Notifications

  /** A watermark's subject and kind. */
  type Key = (string, string)

  datatype Mark = Mark(version: int, updatedAt: Time)

  /** The watermark kind of a close of every kind. */
  const ALL_KINDS := "*"

  datatype Store = Store(notifications: map<Id, Notification>, watermarks: map<Key, Mark>)

  datatype Insertion = Insertion(notification: Notification, coalesce: bool)

  datatype Successor = Successor(sourceId: string, kind: string, version: int, body: string)

  datatype CloseRequest = CloseRequest(
    subject: string,
    kinds: seq<string>,
    version: int,
    reason: string,
    except: string,
    successor: Option<Successor>,
    successorSkip: seq<string>)

  function MarkVersion(ws: map<Key, Mark>, key: Key): int {
    if key in ws then ws[key].version else -1
  }

  function Max(a: int, b: int): int {
    if a < b then b else a
  }

  /** The version below which a notification of a kind on a subject is suppressed (`floor`). */
  function Floor(ws: map<Key, Mark>, subject: string, kind: string): int {
    Max(-1, Max(MarkVersion(ws, (subject, kind)), MarkVersion(ws, (subject, ALL_KINDS))))
  }

  predicate Open(n: Notification) {
    n.state != Closed
  }

  predicate HasOpen(ns: map<Id, Notification>, recipient: string, subject: string, kind: string) {
    exists id :: id in ns && Open(ns[id]) && ns[id].recipient == recipient && ns[id].subject == subject && ns[id].kind == kind
  }

  predicate Duplicate(ns: map<Id, Notification>, source: string, recipient: string) {
    exists id :: id in ns && ns[id].sourceId == source && ns[id].recipient == recipient
  }

  /** `ensureWatermark`. */
  function Ensure(ws: map<Key, Mark>, key: Key, at: Time): map<Key, Mark> {
    if key in ws then ws else ws[key := Mark(-1, at)]
  }

  datatype Fate = Created | Suppressed | Coalesced | Repeated

  function FateOf(s: Store, n: Notification, coalesce: bool): Fate {
    if n.version < Floor(s.watermarks, n.subject, n.kind) then Suppressed
    else if coalesce && HasOpen(s.notifications, n.recipient, n.subject, n.kind) then Coalesced
    else if Duplicate(s.notifications, n.sourceId, n.recipient) then Repeated
    else Created
  }

  /** One insertion: suppression, coalescing and idempotency, in that order. */
  function InsertOne(s: Store, n: Notification, coalesce: bool): Store {
    if FateOf(s, n, coalesce) != Created then s
    else Store(s.notifications[n.id := n], Ensure(s.watermarks, (n.subject, ALL_KINDS), n.createdAt))
  }

  function Insert(s: Store, subject: string, ins: seq<Insertion>): Store
    decreases |ins|
  {
    if ins == [] then s
    else
      var last := ins[|ins| - 1];
      InsertOne(Insert(s, subject, ins[..|ins| - 1]), last.notification.(subject := subject), last.coalesce)
  }

  /** The watermarks a close raises. */
  function ClosedKeys(req: CloseRequest): set<Key> {
    if req.kinds == [] then {(req.subject, ALL_KINDS)}
    else set kind <- req.kinds :: (req.subject, kind)
  }

  function Raised(ws: map<Key, Mark>, key: Key, version: int, at: Time): Mark {
    Mark(if key in ws && ws[key].version >= version then ws[key].version else version, at)
  }

  function CloseMarks(ws: map<Key, Mark>, req: CloseRequest, at: Time): map<Key, Mark> {
    var ws1 := Ensure(ws, (req.subject, ALL_KINDS), at);
    map key | key in ws1.Keys + ClosedKeys(req) ::
      if key in ClosedKeys(req) then Raised(ws1, key, req.version, at) else ws1[key]
  }

  /** The notifications a close reaches. */
  predicate Reached(n: Notification, req: CloseRequest) {
    && n.subject == req.subject
    && Open(n)
    && n.version <= req.version
    && (req.kinds == [] || n.kind in req.kinds)
    && !(req.except != "" && n.recipient == req.except)
  }

  function CloseOne(n: Notification, req: CloseRequest, at: Time): Notification {
    n.(state := Closed, closedReason := req.reason, closedAt := Some(at),
       inactiveAt := if n.inactiveAt.None? then Some(at) else n.inactiveAt)
  }

  function CloseAll(ns: map<Id, Notification>, req: CloseRequest, at: Time): map<Id, Notification> {
    map id | id in ns :: if Reached(ns[id], req) then CloseOne(ns[id], req, at) else ns[id]
  }

  function ClosedRecipients(ns: map<Id, Notification>, req: CloseRequest): set<string> {
    set id | id in ns && Reached(ns[id], req) :: ns[id].recipient
  }

  /** The successor stamped for one recipient. */
  function Stamp(req: CloseRequest, s: Successor, recipient: string, id: Id, at: Time): Notification {
    Notification(id, recipient, s.sourceId, req.subject, s.version, s.kind, Active, "", s.body, at, None, None, None)
  }

  /** The recipients who get a successor: those just closed, not skipped, and without it already. */
  ghost function Succeeded(ns: map<Id, Notification>, ws: map<Key, Mark>, req: CloseRequest): set<string> {
    if req.successor.None? || req.successor.value.version < Floor(ws, req.subject, req.successor.value.kind) then {}
    else set r | r in ClosedRecipients(ns, req) && r !in req.successorSkip &&
                 !Duplicate(ns, req.successor.value.sourceId, r)
  }

  /** `Close`, with `ids` naming the identifier minted for each recipient's successor. */
  ghost function Close(s: Store, req: CloseRequest, at: Time, ids: string -> Id): Store {
    var ws := CloseMarks(s.watermarks, req, at);
    var rs := Succeeded(s.notifications, ws, req);
    Store(AddSuccessors(CloseAll(s.notifications, req, at), req, rs, at, ids), ws)
  }

  ghost function AddSuccessors(ns: map<Id, Notification>, req: CloseRequest, rs: set<string>, at: Time, ids: string -> Id)
    : map<Id, Notification>
    requires rs != {} ==> req.successor.Some?
  {
    if rs == {} then ns else ns + StampedFor(req, rs, at, ids)
  }

  function Names(rs: set<string>, ids: string -> Id): set<Id> {
    set r | r in rs :: ids(r)
  }

  ghost function StampedFor(req: CloseRequest, rs: set<string>, at: Time, ids: string -> Id): map<Id, Notification>
    requires req.successor.Some?
  {
    map id | id in Names(rs, ids) :: Stamp(req, req.successor.value, RecipientOf(rs, ids, id), id, at)
  }

  ghost function RecipientOf(rs: set<string>, ids: string -> Id, id: Id): string
    requires exists r :: r in rs && ids(r) == id
  {
    var r :| r in rs && ids(r) == id;
    r
  }

  // ---------------------------------------------------------------- reading

  function Opened(n: Notification, at: Time): Notification {
    n.(state := Read, readAt := Some(at), inactiveAt := Some(at))
  }

  /** Marking one notification: only ACTIVE becomes READ; a CLOSED one remembers its first read. */
  function MarkOne(n: Notification, at: Time): Notification {
    match n.state
    case Active => Opened(n, at)
    case Closed => if n.readAt.None? then n.(readAt := Some(at)) else n
    case Read => n
  }

  predicate OwnedBy(ns: map<Id, Notification>, recipient: string, ids: seq<Id>) {
    forall id :: id in ids ==> id in ns && ns[id].recipient == recipient
  }

  /** `MarkRead`: nothing is marked unless every identifier is the recipient's. */
  function MarkRead(ns: map<Id, Notification>, recipient: string, ids: seq<Id>, at: Time): map<Id, Notification> {
    if !OwnedBy(ns, recipient, ids) then ns
    else map id | id in ns :: if id in ids then MarkOne(ns[id], at) else ns[id]
  }

  predicate Unread(n: Notification, recipient: string, through: Time) {
    n.recipient == recipient && n.state == Active && n.createdAt <= through
  }

  function MarkAllRead(ns: map<Id, Notification>, recipient: string, through: Time, at: Time): map<Id, Notification> {
    map id | id in ns :: if Unread(ns[id], recipient, through) then Opened(ns[id], at) else ns[id]
  }

  // ---------------------------------------------------------------- retention

  datatype Strategy = RetainActive | EvictOldestActive

  datatype PruneRequest = PruneRequest(
    now: Time, maxPerRecipient: int, maxAge: Time, strategy: Strategy, watermarkRetention: Time)

  predicate Aged(n: Notification, req: PruneRequest) {
    req.maxAge > 0 && n.state != Active && n.inactiveAt.Some? && n.inactiveAt.value < req.now - req.maxAge
  }

  function Without(ns: map<Id, Notification>, gone: set<Id>): map<Id, Notification> {
    map id | id in ns && id !in gone :: ns[id]
  }

  function AgedOut(ns: map<Id, Notification>, req: PruneRequest): set<Id> {
    set id | id in ns && Aged(ns[id], req)
  }

  function Held(ns: map<Id, Notification>, recipient: string): set<Id> {
    set id | id in ns && ns[id].recipient == recipient
  }

  /** A recipient's ACTIVE notifications, or the inactive ones. */
  function HeldAs(ns: map<Id, Notification>, recipient: string, active: bool): set<Id> {
    set id | id in ns && ns[id].recipient == recipient && (ns[id].state == Active) == active
  }

  function Excess(ns: map<Id, Notification>, recipient: string, req: PruneRequest): int {
    if req.maxPerRecipient > 0 then |Held(ns, recipient)| - req.maxPerRecipient else 0
  }

  /** The inactive notifications the count bound deletes. */
  ghost function Trimmed(ns: map<Id, Notification>, recipient: string, req: PruneRequest): set<Id> {
    var excess := Excess(ns, recipient, req);
    if excess <= 0 then {} else Oldest(ns, HeldAs(ns, recipient, false), excess)
  }

  /** The ACTIVE notifications the count bound evicts. */
  ghost function Evicted(ns: map<Id, Notification>, recipient: string, req: PruneRequest): set<Id> {
    var still := Excess(ns, recipient, req) - |Trimmed(ns, recipient, req)|;
    if still <= 0 || req.strategy != EvictOldestActive then {} else Oldest(ns, HeldAs(ns, recipient, true), still)
  }

  ghost function TrimmedAll(ns: map<Id, Notification>, req: PruneRequest): set<Id> {
    set id | id in ns && id in Trimmed(ns, ns[id].recipient, req)
  }

  ghost function EvictedAll(ns: map<Id, Notification>, req: PruneRequest): set<Id> {
    set id | id in ns && id in Evicted(ns, ns[id].recipient, req)
  }

  predicate Occupied(ns: map<Id, Notification>, subject: string) {
    exists id :: id in ns && ns[id].subject == subject
  }

  predicate Expired(ns: map<Id, Notification>, key: Key, mark: Mark, req: PruneRequest) {
    req.watermarkRetention > 0 && !Occupied(ns, key.0) && mark.updatedAt < req.now - req.watermarkRetention
  }

  function KeptMarks(ns: map<Id, Notification>, ws: map<Key, Mark>, req: PruneRequest): map<Key, Mark> {
    map key | key in ws && !Expired(ns, key, ws[key], req) :: ws[key]
  }

  ghost function Prune(s: Store, req: PruneRequest): Store {
    var young := Without(s.notifications, AgedOut(s.notifications, req));
    var rest := Without(young, TrimmedAll(young, req) + EvictedAll(young, req));
    Store(rest, KeptMarks(rest, s.watermarks, req))
  }
}
