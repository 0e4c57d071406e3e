# hmntsk in Dafny

A Dafny 4.11 model of the protocols at the heart of hmntsk, a human-task engine with a notification
library, and proofs about every run of them. `dafny verify dfyconfig.toml` checks all of it.

The repository's hard parts are six small protocols over in-memory stores. Each is modelled twice where
the source works by changing things: as a value-level specification (functions over maps, sequences and
datatypes) and as the imperative code itself (classes and loops) proved equal to it. Runs, with their
interleavings, crashes and stale writes, are state machines over the value-level functions.

| files | what they model |
|---|---|
| `Basics`, `Keyset` | Go's string order, sorting, the lowest members of a set, keyset paging in general |
| `EmailRecords`, `EmailClaims`, `EmailAutomaton`, `EmailProtocol`, `EmailTheorems` | email delivery rows, what a claim takes, what one AtMostOnce dispatcher may do, every interleaving of dispatchers |
| `EmailGroups`, `EmailFates`, `EmailStanding`, `EmailRounds`, `EmailPass`, `EmailSteps`, `EmailPassRuns` | the dispatcher's own code: grouping, what the host's answers demand of each notification, where a pass stands, its rounds, the code itself, the claim that starts it, and its passes as runs |
| `Notifications`, `NotificationStore`, `StoreSteps`, `MemoryStore`, `Retention`, `NotificationReads`, `NotificationLists` | the notification store by scanning, the same store with its indexes, retention, reading, listing |
| `NotificationRuns`, `Watermarks`, `NotificationView`, `Replay`, `Projection`, `ProjectionEffects`, `Redelivery`, `ClosedForGood`, `RecordedEvents` | runs of the store, what its floors remember, what a replay must not change, the default rules and what each event does, redelivery, closed subjects, and all of it for the events an engine records |
| `Outbox`, `RelayProtocol`, `RelayPass` | outbox rows, every interleaving of relays, one relay pass |
| `Lifecycle`, `Eligibility`, `TaskDb`, `TaskInvariants`, `TaskAgreement`, `Requests`, `TaskStore`, `TaskService`, `Sweeps` | the task state machine, who may act, the service pipeline, which requests are accepted from whom, staged transactions, sweeps |
| `TaskQueries`, `PagedRuns` | the four orderings, queries and paging while the engine runs |
| `Uuid`, `Schema`, `SchemaNegation`, `SchemaDrafts` | the identifier generator, draft schemas |

Conventions. Time is a whole number of microseconds. JSON payloads, titles and links are opaque strings
except in `Schema`. Cursors are datatypes. Identifier generators are total and never repeat themselves.
Whatever the environment answers (clocks, directories, mailers, sinks, schema checks, refused writes) is
an arbitrary function or parameter. Each locked method of a store is one atomic step.

Where the code and its documentation part ways, the model follows the code:

- `"*"` is both the watermark key of a close of every kind and a legal kind (`notify/memory.go:13`).
  `NamedStarBreaksFloor` shows a close that lists it leaving an open notification below its floor, and
  `CloseKeepsFloor` says exactly when a close keeps the floors.
- Settlements do not ask who holds the lease (`memstore/outbox.go:153-208`). `StaleSettlementRevives` is a
  run in which a late settlement makes a dead letter pending again; `TerminalKept` says when one does not,
  and the run claims about relays ask for leases that outlast the work, as `relayport.go:8-14` does.
- `SuspendedFrom` is documented as set only while a task is SUSPENDED (`task.go:68-70`), but `Cancel` keeps
  it (`transitions.go:289-302`). `RunSuspendedFrom` says exactly which tasks have it: the SUSPENDED ones, and
  the EXITED ones whose last record leaves SUSPENDED.
- The emitted time of an identifier can lead the last clock reading by any amount once the clock steps
  back (`LeadUnbounded`). `LeadExact` says for which readings the bound of a millisecond per 4096
  identifiers holds against the last one; against the latest time read so far it always does
  (`LeadBounded`).
- Under `not`, relaxing a schema can tighten it, so a draft of a valid document may be refused
  (`NegationTightens`). `NegationExact` and `DraftsPassExactly` say of which documents all drafts pass:
  those whose emptied form (every object `{}`) each relaxed negation refuses.

## Model

| member | source | states |
|---|---|---|
| `EmailTheorems.EmailedAtMostOnce` | notify/email_dispatcher.go:583-718 | in every run of AtMostOnce dispatchers, with crashes, stolen leases, unsynchronised clocks, record writes that fail having written all, some or none of their rows, and notifications read, closed, pruned or purged meanwhile, two send calls for one notification are never both accepted, in doubt or cut off |
| `EmailTheorems.SendsWithinBudget` | notify/email_dispatcher.go:530-563 | a notification is handed to the mailer at most maxAttempts times over any such run |
| `EmailTheorems.SentIsTrue` | notify/memory_email.go:93-147 | in any such run a row recorded as sent had a send call that was accepted |
| `EmailProtocol.StepKeeps` | notify/memory_email.go:25-147 | every enabled step of any dispatcher or of the environment, a failed write that reached any part of its rows included, keeps the protocol's invariant |
| `EmailPass.Dispatcher.Dispatch` | notify/email_dispatcher.go:356-413 | whatever the store and the host answer, a pass takes only steps the protocol permits, each write under its own owner and each retry dated by its attempts; every claimed notification meets the fate the host's answers demand; each counter is the number that met its fate; each recipient due a message got exactly one, with exactly what it had to hold; and with nothing unrecorded each is counted or handed back |
| `EmailRounds.SkipsExact` | notify/email_dispatcher.go:500-528 | each skip counter counts exactly the notifications the filter refused, those without an address, and those no longer ACTIVE on the last read |
| `EmailRounds.OnlyReadySent` | notify/email_dispatcher.go:612-718 | no message holds a notification the filter did not let through, without an address, or not ACTIVE |
| `EmailPass.Dispatcher.Record` | notify/email_dispatcher.go:469-489 | a write is logged with whether it was whole, sets the fate of exactly its notifications, and a pass that lost rows counts them as unrecorded |
| `EmailPass.Dispatcher.Retry` | notify/email_dispatcher.go:530-563 | exactly the candidates out of attempts are given up and all others rescheduled, and so counted |
| `EmailPass.Dispatcher.ResolveDoubt` | notify/email_dispatcher.go:583-609 | sends in doubt are abandoned, never sent again, and counted |
| `EmailPass.Dispatcher.Deliver` | notify/email_dispatcher.go:612-658 | what the filter refuses is skipped, what it cannot answer for is retried, the rest goes to the recipient's address up to the batch limit, and one message with exactly those still ACTIVE is started |
| `EmailPass.Dispatcher.Send` | notify/email_dispatcher.go:661-718 | the message holds exactly the candidates found ACTIVE; its start is recorded before the mailer is called; each candidate ends as the render, the identifier, that record and the mailer's answer say |
| `EmailPass.Dispatcher.Recheck` | notify/email_dispatcher.go:722-750 | exactly the candidates found ACTIVE go on, in order; the others are skipped or retried |
| `EmailGroups.GroupBy` | notify/email_dispatcher.go:356-413 | grouping keeps every candidate once, in order within its group |
| `EmailPass.Delay` | notify/email_dispatcher.go:568-580 | the doubling loop is the backoff times a power of two, capped at the ceiling |
| `EmailSteps.ClaimStartsPass` | notify/memory_email.go:24-66 | the candidates a claim returns are distinct and are exactly the pass the protocol starts |
| `EmailClaims.DueExactly` | notify/memory_email.go:68-90 | a notification is due if and only if it is wanted and untried, or waiting, unheld and its retry has come, or was left in doubt and is unheld |
| `EmailClaims.TakesOldest` | notify/memory_email.go:24-66 | a claim takes as many as its limit allows, and none before an older one that is due |
| `EmailClaims.ClaimedRow` | notify/memory_email.go:46-66 | a claimed row is the claimant's till its lease ends, with its attempts, and a send in doubt stays in doubt |
| `EmailClaims.LeaseExcludes` | notify/memory_email.go:72-90 | until a lease ends no other claim takes its row |
| `EmailClaims.RecordedRow` | notify/memory_email.go:114-147 | an outcome keeps the lease only while sending, counts an attempt only when told, and dates only a retry |
| `EmailClaims.EndedNeverClaimed` | notify/memory_email.go:68-147 | a notification whose email has ended is never claimed again |
| `EmailPassRuns.PassIsRun` | notify/email_dispatcher.go:356-413 | after any run, a claim and then what a pass of the code did, interleaved with the steps of others and cut off anywhere, is again a run of the protocol |
| `EmailPassRuns.WeaveRuns` | notify/email_dispatcher.go:469-489 | so is any weaving of a permitted trace, its failed writes having reached any of their rows |
| `MemoryStore.MemoryStore.ClaimEmails` | notify/memory_email.go:24-66 | leases the oldest due notifications up to the limit and returns them oldest first with their new rows |
| `MemoryStore.MemoryStore.RecordEmails` | notify/memory_email.go:92-112 | writes an outcome on exactly the rows its owner still holds and counts them |
| `MemoryStore.MemoryStore.PurgeEmailRecords` | notify/memory_email.go:149-173 | deletes rows without a notification, lowest identifiers first, up to the limit |
| `Redelivery.ReplayInsensitive` | tasknotify/deliver.go:48-75 | events of any tasks delivered in version order per task, repeated, cut short and interleaved with redeliveries and reads: the store ends alike to one that ran each step the first time only |
| `Redelivery.SameAsEachOnce` | tasknotify/rules.go:85-199 | however one task's complete deliveries are repeated and cut short, recipients, kinds, versions, states, reasons and watermarks end as after delivering each event once |
| `Redelivery.RunShows` | notify/memory.go:80-246 | whatever identifiers and instants calls draw, a run of the store shows the same as a run of its view |
| `Replay.RepeatsChangeNothing` | tasknotify/rules.go:10-20 | for any plans whose steps are compatible, dropping every repeated step from an in-order schedule changes nothing |
| `Replay.OneTaskDelivered` | tasknotify/deliver.go:48-75 | every complete delivery of one task leaves what running each plan once leaves |
| `Replay.DoneChangesNothing` | notify/memory.go:80-112 | a step that has nothing left to do changes nothing: suppression, coalescing and idempotency absorb it |
| `Replay.Survives` | notify/memory.go:177-246 | a step that has nothing left to do still has nothing left after a compatible later step |
| `Projection.ChroniclesCoherent` | tasknotify/rules.go:85-199 | the default rules' steps for events of strictly increasing versions are compatible, within a task and across tasks |
| `Projection.DefaultPlanCoherent` | tasknotify/rules.go:85-199 | each plan's steps name the event's task and version and do not undo each other |
| `Projection.ActorNotNotified` | tasknotify/rules.go:80-81 | a plan that spares an actor never adds a notification for them |
| `Projection.PlanSpares` | tasknotify/input.go:46-59 | no step the default rules plan addresses the actor of its event |
| `Projection.Project` | tasknotify/deliver.go:48-75 | an attempt makes a prefix of the plan's calls, all of them exactly when it succeeds, none when the plan is invalid |
| `Projection.DefaultPlanValid` | tasknotify/deliver.go:77-101 | the default rules' plans pass the projector's own check |
| `Projection.BatchingInvisible` | tasknotify/deliver.go:115-124 | publishing in batches of bounded size leaves what publishing at once would |
| `ProjectionEffects.CreationEffect` | tasknotify/rules.go:96-104 | a pooled creation offers the task to every resolved actor but its own, a reserved one tells its holder, and nothing else changes |
| `ProjectionEffects.ClaimEffect` | tasknotify/rules.go:106-119 | a claim ends every offer of the task up to its version and tells exactly those whose offer it ended, but the claimant, that it was taken |
| `ProjectionEffects.ReleaseEffect` | tasknotify/rules.go:121-131 | a release leaves no taken or assigned notification open up to its version, and offers the task again |
| `ProjectionEffects.DelegationEffect` | tasknotify/rules.go:133-144 | a delegation leaves only the new holder's assignment open, and tells them unless they did it |
| `ProjectionEffects.EscalationEffect` | tasknotify/rules.go:146-151 | widening a pooled task leaves every eligible actor but its own with an open offer |
| `ProjectionEffects.ClosingEffect` | tasknotify/rules.go:89-93 | a closing status ends every notification of the task with its own reason and adds none |
| `ProjectionEffects.OtherEffect` | tasknotify/rules.go:153-155 | every other event changes nothing |
| `ClosedForGood.ClosedStaysClosed` | tasknotify/rules.go:89-93 | once a task's final event has been projected, all its notifications stay closed under any order and repetition of any tasks' events, reads and prunes, while its watermark is kept |
| `ClosedForGood.StaysShut` | notify/memory.go:87-91 | after a close of every kind at a version no later publish reaches, nothing on the subject is open again |
| `RecordedEvents.RunEventsOrdered` | transitions.go:314-398 | in every committed state a later event of a task has a higher version than an earlier one, and an event of a closed status is the task's last |
| `RecordedEvents.EngineClosedStaysClosed` | tasknotify/rules.go:85-93 | so for any events an engine records, projected in any order and number, a task's notifications stay closed once its closing event was projected, while its watermark is kept |
| `RecordedEvents.EngineReplay` | tasknotify/deliver.go:48-75 | and redelivering a task's recorded events leaves what delivering each once would |
| `NotificationView.CloseShows` | notify/memory.go:177-246 | a close acts on recipients, kinds, versions, states and watermarks alone, successors included |
| `NotificationView.PublishShows` | notify/service.go:119-174 | so does a publish, whatever identifiers and instant it stamps |
| `NotificationRuns.RunFloored` | notify/memory.go:80-154 | in every reachable store an open notification is at or above its floor unless a close spared its recipient |
| `NotificationRuns.CloseKeepsFloor` | notify/memory.go:177-246 | a close keeps the floors if and only if it does not list "*" as a kind while another kind is open below it |
| `NotificationRuns.NamedStarBreaksFloor` | notify/memory.go:185-201 | such a close does leave an open notification below its floor |
| `NotificationRuns.FloorFalls` | notify/memory.go:501-510 | a floor falls only when a prune finds the subject without notifications |
| `NotificationRuns.RunForward` | notify/memory.go:207-230 | between any two moments of any run a notification only moved forward: nothing returns to ACTIVE, and each instant is written once |
| `NotificationRuns.RunDated` | notify/memory.go:357-415 | in every reachable store InactiveAt is set exactly when inactive and ClosedAt exactly when closed |
| `Watermarks.FloorIsHighestClose` | notify/memory.go:142-201 | in every run without pruning a kind's floor is the highest version at which it was closed |
| `Watermarks.InsertedExactly` | notify/memory.go:80-112 | a notification comes to exist if and only if its kind was not closed at a later version, its source has not notified the recipient, and, coalescing, none of its kind is open |
| `NotificationReads.MarkReadExact` | notify/memory.go:357-391 | nothing is marked unless all identifiers are the recipient's; then ACTIVE ones become READ, a CLOSED one remembers its first read, and nothing else changes |
| `NotificationReads.MarkAllReadExact` | notify/memory.go:394-415 | exactly the recipient's ACTIVE notifications created by then become READ |
| `NotificationReads.MarkReadOnce` | notify/memory.go:357-391 | marking twice is marking once |
| `NotificationReads.AgeExact` | notify/memory.go:418-444 | the age bound keeps exactly the ACTIVE ones and those inactive no longer than it allows |
| `MemoryStore.MemoryStore.constructor` | notify/memory.go:60-68 | an empty store with sound indexes |
| `MemoryStore.MemoryStore.FloorOf` | notify/memory.go:144-154 | the higher of the kind's and the subject's watermarks, at least -1 |
| `MemoryStore.MemoryStore.HasOpenNow` | notify/memory.go:158-166 | looking through the subject index finds an open notification exactly when a scan of all would |
| `MemoryStore.MemoryStore.Put` | notify/memory.go:115-126 | keeps both indexes equal to what a scan gives |
| `MemoryStore.MemoryStore.Remove` | notify/memory.go:130-140 | keeps both indexes equal to what a scan gives |
| `MemoryStore.MemoryStore.InsertAll` | notify/memory.go:80-112 | suppression, coalescing and idempotency as by scanning, with exact tallies and the list of what was created |
| `MemoryStore.MemoryStore.RaiseMarks` | notify/memory.go:183-201 | every closed key ends at the higher of its version and the close's |
| `MemoryStore.MemoryStore.CloseSubject` | notify/memory.go:177-246 | closing through the index, then the successors, is the close by scanning; the recipients are sorted and exact |
| `StoreSteps.SuccessorInsertions` | notify/store.go:160-186 | one stamped insertion per recipient that is not skipped, in order |
| `StoreSteps.SuccessorsInserted` | notify/memory.go:232-243 | inserting the stamps adds a successor for exactly the closed recipients not skipped, not suppressed and without it |
| `MemoryStore.MemoryStore.Get` | notify/memory.go:249-259 | another recipient's notification is missing like one that does not exist |
| `MemoryStore.MemoryStore.CountActive` | notify/memory.go:341-354 | the number of the recipient's ACTIVE notifications |
| `MemoryStore.MemoryStore.MarkReadIds` | notify/memory.go:357-391 | all of the identifiers are the recipient's, each marked once, or nothing is marked |
| `MemoryStore.MemoryStore.MarkAllReadThrough` | notify/memory.go:394-415 | marks exactly the recipient's ACTIVE notifications created by then |
| `MemoryStore.MemoryStore.Evict` | notify/memory.go:478-494 | removes the first of its class, up to the number asked, and nothing else |
| `MemoryStore.MemoryStore.PruneCount` | notify/memory.go:448-473 | trims every recipient as specified and lists, sorted, who lost ACTIVE notifications |
| `MemoryStore.MemoryStore.PruneWatermarks` | notify/memory.go:501-510 | deletes exactly the old watermarks of subjects without notifications |
| `MemoryStore.MemoryStore.PruneAll` | notify/memory.go:418-444 | the pass as specified, with counters that account for every notification gone |
| `Retention.Conserved` | notify/memory.go:418-497 | before a pass equals after it plus its three counters |
| `Retention.WithinBound` | notify/memory.go:448-473 | each recipient ends with exactly as many as the bound and the strategy allow |
| `Retention.ActiveRetained` | notify/memory.go:466-468 | RetainActive loses no ACTIVE notification |
| `Retention.ActiveLast` | notify/memory.go:464-471 | age never removes an ACTIVE notification; the count bound does only under EvictOldestActive, with no inactive one left, oldest first |
| `Retention.OldestInactiveFirst` | notify/memory.go:475-494 | the inactive ones removed are the oldest |
| `NotificationLists.List` | notify/memory.go:262-301 | the next page of matches, newest first, with a cursor exactly when there is more; another listing's cursor is refused |
| `NotificationLists.ListingExact` | notify/store.go:276-283 | pages taken during any run repeat nothing and miss nothing that matched throughout |
| `RelayProtocol.TruthfulDelivery` | relay/relay.go:414-422 | under every interleaving, stale settlements and crashes included, a recorded acceptance was real and a published event was taken by every configured sink |
| `RelayProtocol.AcceptedGrows` | memstore/outbox.go:107-208 | when claims are settled within their leases, accepted sets only grow and a terminal event never changes again |
| `RelayProtocol.NeverOfferedAgain` | relay/relay.go:511-573 | then no sink is offered an event once its acceptance was recorded |
| `RelayProtocol.TakenIsRecorded` | relay/relay.go:438-449 | when a sink takes an event and that attempt is recorded, whatever the others answered, its acceptance is on the row from then on and it is never called for the event again |
| `Outbox.SettledExactly` | memstore/outbox.go:153-208 | a settlement leaves every acceptance so far, one more attempt, no lease, and the delivery, the end or the next instant the attempt came to |
| `Outbox.DueExactly` | memstore/outbox.go:107-150 | an event is due exactly when it is not ended, its instant has come and no relay holds it |
| `RelayProtocol.TerminalInTime` | relay/relay.go:403-459 | then every event is terminal within maxAttempts settled attempts |
| `RelayProtocol.TerminalKept` | memstore/outbox.go:153-208 | a settlement written over a terminal row keeps it terminal if and only if the row is delivered or the attempt ended in delivery or a dead letter |
| `RelayProtocol.StaleSettlementRevives` | memstore/outbox.go:153-163 | a run in which a settlement that outlived its lease revives a dead letter |
| `RelayPass.NameSinks` | relay/relay.go:236-267 | refuses exactly no sinks, an unnamed one and two of one name |
| `RelayPass.Relay.FanOut` | relay/relay.go:511-573 | offers the event to exactly the sinks that have not taken it, one tally per sink |
| `RelayPass.Relay.SettleEvent` | relay/relay.go:397-472 | told from the sinks' answers alone: every sink that took the event is on its row, it is delivered when all have it, dead when one refused it or attempts ran out, due again otherwise, and one counter says which |
| `RelayPass.DecisionMeans` | relay/relay.go:403-459 | the decision over a fan-out comes to that |
| `RelayPass.Relay.RelayBatch` | relay/relay.go:336-365 | claimed is the sum of delivered, retried, dead-lettered and unsettled; each sink's five tallies are how often it took, failed or already had an event; each event is settled as its sinks answered |
| `RelayPass.PassFollowsProtocol` | relay/relay.go:511-573 | offering sink by sink in the protocol builds the fan-out the pass computes |
| `RelayPass.RetryBounds` | relay/relay.go:603-616 | a retry is never in the past and within the jitter fraction of its scheduled delay |
| `RelayPass.RetryDoubles` | relay/relay.go:597-607 | the first retry waits the backoff, each later one twice as long up to the ceiling |
| `Lifecycle.IndexIsTable` | transition_table.go:36-90 | the lookup answers exactly what the table of legal transitions lists |
| `TaskInvariants.StepGood` | transitions.go:26-398 | every accepted request keeps the lifecycle invariant, the constants, and a truthful record and event of an operation that leads from where the task was to where it is |
| `TaskInvariants.StepFrame` | transitions.go:324-398 | only claims, delegations and releases change the holder; pool, draft and output change only by their own requests |
| `TaskInvariants.AssignGood` | assignment.go:240-270 | a new task is always placed: RESERVED for someone in its pool, READY, or ERROR |
| `TaskInvariants.TerminalAcceptsNothing` | transition_table.go:36-90 | a closed task accepts no request |
| `TaskInvariants.ResumeUndoesSuspend` | transitions.go:187-240 | resuming restores the suspended task except its version and update time |
| `TaskInvariants.SuspendedFromExact` | transitions.go:187-302 | an accepted request leaves SuspendedFrom set if and only if it leaves the task SUSPENDED or cancels a suspended one, which keeps the state it was suspended from |
| `Requests.Accepted` | transitions.go:26-302 | a request is accepted if and only if it comes in time, from someone who may make it, with a payload that holds up; only the holder releases, starts, saves, delegates, completes or fails |
| `Requests.RefusedAs` | transitions.go:304-322 | the status is looked at first, then the actor, then the rest |
| `Requests.StepLeaves` | transitions.go:26-398 | the status, operation, reason, start, end, actor and words each accepted request leaves |
| `Requests.PlacedExactly` | assignment.go:240-270 | a new task goes to the chosen actor of its pool, to the pool, or to ERROR exactly when nobody can do it or the choice is no candidate |
| `Requests.RunAuthorized` | transitions.go:324-398 | in every committed state each recorded event was caused by someone entitled to it, whoever held the task then |
| `Requests.RunEnds` | transition_table.go:36-90 | in every committed state a closed task's last record is of the operation that closes that way |
| `TaskAgreement.RunAgrees` | service.go:660-736 | in every committed state each history is a legal From/To chain from CREATED with increasing versions ending at the task, the version is records plus silent saves, the outbox holds exactly one event per record but a save's start, in order, and every task is good |
| `TaskAgreement.RunSuspendedFrom` | task.go:68-70 | in every committed state a task has SuspendedFrom if and only if it is SUSPENDED, or EXITED with a last record that leaves SUSPENDED |
| `TaskAgreement.RunNamed` | service.go:281-287 | no committed state holds a task under the empty identifier |
| `TaskAgreement.StepKeeps` | memstore/memstore.go:112-133 | every request, lease and relay write keeps that agreement |
| `TaskStore.Tx.Get` | memstore/memstore.go:252-265 | a scope reads its own writes over the committed ones |
| `TaskStore.Tx.Create` | memstore/memstore.go:218-231 | an identifier in use is a conflict and stages nothing |
| `TaskStore.Tx.Update` | memstore/memstore.go:270-290 | the write happens if and only if the version is the expected one, and a stale one reports the current version |
| `TaskStore.Tx.AppendHistory` | memstore/memstore.go:293-309 | the record follows everything the scope sees for its task |
| `TaskStore.Tx.Append` | memstore/memstore.go:182-201 | the event follows everything the scope sees, due when it occurred |
| `TaskStore.Tx.Commit` | memstore/memstore.go:112-133 | the committed state becomes exactly what the scope saw |
| `TaskStore.Tx.ClaimOverdue` | memstore/memstore.go:588-629 | leases exactly the overdue, unleased tasks of lowest identifier, up to the limit, and returns those copies in order |
| `TaskStore.Tx.ClaimDueEvents` | memstore/outbox.go:107-150 | leases exactly the oldest due events, up to the limit, oldest first |
| `TaskStore.Tx.EditOutbox` | memstore/outbox.go:220-254 | settles the one row of an event, committed or staged, and reports an unknown event |
| `TaskService.MutateIn` | service.go:660-713 | inside a scope a request does exactly what the specification says, or is refused and stages nothing |
| `TaskService.CreateIn` | service.go:271-323 | so does a creation |
| `TaskService.PersistOutcome` | service.go:717-736 | the record and the stamped event, each if there is one |
| `TaskService.PlaceTask` | assignment.go:240-270 | deciding over the resolved candidates is the specified placement |
| `TaskService.Service.Scope` | memstore/memstore.go:85-176 | a host's transaction is its requests and creations one after another, or nothing when rolled back, and the committed agreement holds either way |
| `TaskService.Service.CreateTask` | service.go:271-323 | the committed state takes the specified step and keeps the agreement |
| `TaskService.Service.LeaseTasks` | sweep.go:256-283 | leases are committed on their own and change nothing else |
| `TaskService.Service.LeaseEvents` | relayport.go:27-54 | claims are committed on their own and keep every event |
| `TaskService.Service.SettleEvent` | relayport.go:56-78 | a settlement changes one row's delivery state and keeps every event |
| `Sweeps.SweepBatch` | sweep.go:144-199 | one conditional request per task that is not exempt, in order, with exact counts |
| `Sweeps.RunAdvances` | transitions.go:324-398 | over any stretch of a run identifier, priority and due date are constant, a closed task does not change, and an unchanged version means only the lease changed |
| `Sweeps.SweepDecisionHolds` | sweep.go:158-189 | however late, an accepted sweep escalates a task that is still not exempt |
| `Sweeps.SweepsWithinLimit` | sweep.go:232-247 | sweeps alone never take a task beyond the escalations its policy allows |
| `Sweeps.LeasesApart` | memstore/memstore.go:588-629 | two leases on one task start at least the first one's duration apart |
| `Sweeps.SweepsExactly` | sweep.go:232-247 | a sweep asks for exactly the escalations of live tasks whose policy does not spare started work and has escalations left |
| `Sweeps.SweepAccepted` | sweep.go:158-189 | while the stored task is the leased copy such a request is accepted, unless it would supersede started work |
| `Sweeps.LeaseTakes` | memstore/memstore.go:588-629 | a lease is for tasks past their deadline, live, of the types asked for and held by no running lease |
| `Sweeps.LeaseExact` | memstore/memstore.go:588-629 | it takes the lowest identifiers, up to its limit and as many as there are |
| `Sweeps.LeaseChanges` | memstore/memstore.go:588-629 | it changes nothing but who holds a task till when |
| `Eligibility.EligibilityAgrees` | memstore/memstore.go:557-583 | for a READY task and a consistent directory, eligibility, the resolved candidates, the candidate query and an accepted claim coincide |
| `Eligibility.ResolveCandidates` | assignment.go:184-221 | exactly the actors in the pool, sorted, or a failure exactly when some group cannot be expanded |
| `Eligibility.NewStaticAssignment` | assignment.go:72-91 | builds the inverse of the group map, so the directory is consistent |
| `Eligibility.WideningAdds` | transitions.go:246-272 | widening adds exactly the named actors who are not excluded |
| `Eligibility.AppendMissingHolds` | transitions.go:467-478 | the base stays a prefix, and each missing entry is added once |
| `Eligibility.AppendEach` | transitions.go:467-478 | the loop over the growing slice is that function |
| `TaskQueries.CompareOrders` | memstore/memstore.go:437-466 | every ordering and direction is a strict total order on tasks with distinct identifiers |
| `TaskQueries.AscendingKeys` | memstore/memstore.go:437-466 | ascending, the four orderings are by identifier, by priority, by deadline, and by priority then deadline, each with the identifier last |
| `TaskQueries.DescendingReverses` | memstore/memstore.go:438-450 | descending is ascending turned round, wherever no missing deadline decides |
| `TaskQueries.AnswerInOrder` | memstore/memstore.go:437-466 | in an answer the ordering's keys never run against its direction |
| `TaskQueries.NoDeadlineLast` | memstore/memstore.go:452-463 | a task without a deadline comes last in both directions |
| `TaskQueries.RunQuery` | memstore/memstore.go:349-405 | the next page of matches, its keys in order, with a cursor exactly when there is more; a cursor of another ordering or direction is refused |
| `TaskQueries.Count` | memstore/memstore.go:408-418 | the number of matching tasks |
| `TaskQueries.FollowCursors` | memstore/memstore.go:349-418 | following cursors ends, and yields the matches once each, their keys in order, as many as the count, over any store without an empty identifier, as every store of the engine is (`RunNamed`) |
| `PagedRuns.NoRepeats` | query.go:136-141 | pages taken at successive moments of any run never return a task twice |
| `PagedRuns.NoGaps` | query.go:136-141 | and return every task that matched whenever a page was taken |
| `Keyset.WalkIsSorted` | memstore/memstore.go:349-405 | over items that do not change, the pages are exactly the sorted items |
| `Uuid.IdentifiersIncrease` | id.go:65-126 | whatever the clock reads, later identifiers are greater as strings while the milliseconds fit 48 bits |
| `Uuid.LeadBounded` | id.go:84-109 | the emitted time leads the latest time read by at most one millisecond per 4096 identifiers |
| `Uuid.LeadUnbounded` | id.go:95-106 | against the last reading itself, one step back leaves any lead |
| `Uuid.StampExact` | id.go:84-109 | time and counter together are the highest of the number of identifiers and each reading moved on by the identifiers since |
| `Uuid.LeadExact` | id.go:84-109 | the lead over the last reading is within one millisecond per 4096 identifiers if and only if that reading is not negative and no earlier one, moved on by the identifiers since, is further ahead |
| `Uuid.TextOrders` | id.go:112-126 | the text orders as the bytes do |
| `Uuid.BytesSay` | id.go:65-80 | the bytes say the milliseconds, version 7, the counter, the variant and the random bits |
| `Uuid.TextGroups` | id.go:112-126 | the text is five groups of digits, 8-4-4-4-12, with hyphens between |
| `Uuid.Generator.NextTick` | id.go:84-109 | the fields follow the readings |
| `Uuid.Generator.NewTaskID` | id.go:65-80 | the bytes and text of the state reached, milliseconds truncated to 48 bits |
| `Uuid.FormatUUID` | id.go:112-126 | the 36 characters written in place are the hyphenated hex of the bytes |
| `Schema.DraftsPass` | schema.go:161-197 | on the fragment, a document with members deleted at any depth from a valid one satisfies the relaxed schema |
| `SchemaDrafts.RelaxMeans` | schema.go:161-197 | for every schema and document, the relaxed schema accepts exactly what satisfies the schema but for completeness at every depth |
| `Schema.RelaxIdempotent` | schema.go:171-227 | relaxing twice is relaxing once, on every document |
| `Schema.PropertiesKept` | schema.go:143-148 | a property named like a keyword is kept, with its schema relaxed |
| `Schema.RelaxSchema` | schema.go:171-197 | the walk that fills a fresh map is the relaxation |
| `SchemaNegation.NegationTightens` | schema.go:136-141 | under a negation relaxing can refuse what the schema accepted |
| `SchemaNegation.NegationExact` | schema.go:161-197 | under a negation of the fragment all drafts of a document pass if and only if the relaxed inner schema refuses the emptied document |
| `SchemaNegation.DraftsPassExactly` | schema.go:161-197 | for negations under properties, items and allOf at any depth, all drafts of a valid document pass if and only if each relaxed negation refuses the emptied part of the document it applies to |

## Left out

- The AtLeastOnce email guarantee: its batch key is lost on some retry paths, so the safety claims are for AtMostOnce.
- EmailTheorems.EmailedAtMostOnce: dispatchers have distinct, non-empty owners and one owner's passes are serial, as the dispatcher asks of its host.
- Redelivery.ReplayInsensitive: no pruning between deliveries, and the directory answers the same for an event each time; both are needed for the claim.
- EmailPass.Delay: without the random part of the delay.
- Projection.Project: a failed call counts as the last one made; whether it took effect is covered by redelivery, which allows either prefix.
- TaskStore.Tx.ClaimDueEvents: in a transaction of its own, as the relay uses it; a row appended and claimed in one open scope is filed where that scope does not see it (`memstore/outbox.go:80-86`).
- TaskService.Service.Scope: identifier generation does not fail; a failure after the task was staged would leave the host's scope half written.
- MemoryStore.MemoryStore.CloseSubject: identifier generation does not fail; the source mutates before it stamps successors.
- TaskQueries.RunQuery: the owner and activity filters are one predicate over the task's correlation, and a malformed cursor is one datatype case rather than text.
- NotificationLists.List: the cursor carries its filters rather than a truncated hash of them.
- Schema.DraftsPass: the validity of keywords outside type, properties, additionalProperties, items, allOf, anyOf, not and the four completeness keywords.
- Webhook, Redis and NATS sinks, HTTP handlers, streams and the broadcaster: network I/O; a sink is an arbitrary outcome per attempt.
- The SQL stores and their dialects: they rest on database behaviour that is not part of this model.
- Configuration options, error texts, titles, links and payload rendering: single-branch facts.
- In-process dispatch to handlers, count buckets and the history read: they only repeat what is proved of their parts.
