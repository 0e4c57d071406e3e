/** The values the notification library stores (notify/notification.go). */
module Notifications {
  import opened Basics

  type Id = string

  datatype State = Active | Read | Closed

  /** One notification for one recipient. `body` stands for the publisher's title, links and data. */
  datatype Notification = Notification(
    id: Id,
    recipient: string,
    sourceId: string,
    subject: string,
    version: int,
    kind: string,
    state: State,
    closedReason: string,
    body: string,
    createdAt: Time,
    readAt: Option<Time>,
    closedAt: Option<Time>,
    inactiveAt: Option<Time>)

  /** The order of `oldestFirst`: by creation, then by identifier. */
  predicate Before(a: Notification, b: Notification) {
    a.createdAt < b.createdAt || (a.createdAt == b.createdAt && Less(a.id, b.id))
  }

  /** The members of `ids` that fewer than `limit` others precede; a limit of zero or less is no limit. */
  ghost function Oldest(ns: map<Id, Notification>, ids: set<Id>, limit: int): set<Id>
    requires ids <= ns.Keys
  {
    if limit <= 0 then ids
    else set id | id in ids && |Preceding(ns, ids, ns[id])| < limit
  }

  /** The members of `ids` older than `n`. */
  ghost function Preceding(ns: map<Id, Notification>, ids: set<Id>, n: Notification): set<Id>
    requires ids <= ns.Keys
  {
    set e | e in ids && Before(ns[e], n)
  }
}
