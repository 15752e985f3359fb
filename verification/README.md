# Proofs about a transactional outbox

`django_domain_events` records an event and one delivery row for each durable
receiver in the transaction that changed the data, and delivers those rows
afterwards, at least once, from relays, task workers and the firing process.
This project models that outbox in Dafny and proves what it promises: that a
receiver's work commits once each time a row is owed, that owed work is never
lost, that nothing that takes effect ran early, that the loops which drive it end
and share fairly, and that pruning changes no answer anybody reads.

`dafny verify dfyconfig.toml` checks the whole project.

## How it is laid out

The rows as values, and everything that acts on them at once:

- `Rows` is a delivery row and what each conditional UPDATE writes to it: claim,
  take, lease, outcome, hand-back, withdrawal, reopening. Times are whole
  microseconds.
- `Protocol` is one row with its workers, its task messages and its history, as a
  state machine. Each step is one statement, or one transaction, that the database
  serialises. `CellOk` is its invariant.
- `Retention` says when an event is due for deletion, and what the newest-success
  table must keep of the rows deleted.
- `World` is every row at once, with the event locks, the prune's re-check and
  delete as separate steps, the newest-success table, and a history of every
  success ever recorded. A run is any sequence of its steps.
- `Guarantees` holds the theorems over every run; `Early` is a run that starts a
  receiver before its row is due.
- `Steps` shows that the claims, hand-backs, hand-offs, operators and prunes written
  below do what those steps do.

The loops and the objects that change in place, on the tables of `Store.Outbox`:

- `Registry` is what is declared: lanes and claim leases. `Serving` is which lanes a
  caller serves and how many rows its claims take.
- `Claims` is claiming a batch and handing back; `Deliver` is one delivery and one
  hand-off.
- `Drain` is `deliver_pending` told a fixed `now`; `Shares` is the same call under a
  limit, on any clock and whatever else is going on, with what one turn does to the
  rows; `Relay` is `run_relay`.
- `Budget` is the prune's walk over truncated counts, `Prune` its loops, and `Quiet`
  is `quiet_receivers`.
- `Replay`, `Operators` and `Fire` are replaying, cancelling, requeueing and firing.
  `Health` is `outbox_health`.

## What the proofs take for granted

- Workers at work at the same time have distinct ids, each works through one batch at
  a time, and every pair of a worker and a claim time is new. Two processes under one
  worker id, and `deliver_one` called directly on a row nobody claimed, are outside
  the fence, and nothing is said of them. A worker that stops counts as `Drop`.
- One clock, and it does not run backwards (`World.Possible` and `Relay.Forward`). A
  claim, a take, a start and an outcome are written at the reading of the clock they
  record; a fire, a replay and a requeue may write a time read long before, or any other.
- A row has at least one attempt (`Rows.Fresh`); the decorator does not check it.
- A deferral that does not count asks for more than no time at all, and a `NotYet`
  names a time after the run began (`Protocol.Sound`).
- Only the commit is exclusive, not the start: a worker whose row was stolen, and
  failed by the thief, may start it again once its backoff is over. It finds the
  fence changed and rolls back, which is what `Guarantees.LosersRollBack` says.
- `Drain.DeliverPending` ends if, from some delivery on, no task run inside its own
  hand-off defers without counting. `Drain.UnheardDeferralsSpendNothing` shows why
  something must be known: such a delivery leaves the row as claimable as it was, spends
  nothing, and tells the caller nothing, until the task's own clock reaches the
  receiver's give-up bound and the row is dead. So a clock that reaches that bound is
  enough (`Drain.ClocksQuietQueues`), whatever the receivers do.

## Where a simple reading fails

A receiver may be started before its row is due. A worker that reads a row nobody has
claimed checks only what it read: the lease check, which would find the row changed, is
skipped for such a row (django_domain_events/delivery/deliver.py:131-163). If the row is
claimed and rescheduled by another worker between the read and the start, the start is
early (`Early.StartsEarly` is such a run, 979 moments early). Where the row was read
claimed, and so wherever a claim was not lost, a start is never early of the row as it
stands (`Guarantees.NeverEarly`); and an early start never takes effect: every outcome
that lands is of a run that read its row claimed and began when the row was due
(`Guarantees.EarlyRunsNeverLand`).

The relay's documentation bounds a lane's wait by one batch of each other lane it
shares the relay with (django_domain_events/delivery/run_relay.py:93-99). That holds
turn by turn, and `Relay.FairTurns` is what holds of every run: between two turns of a
lane every other lane has exactly one turn more than it. It does not follow that
between two consecutive claims of a lane every other lane is claimed at most once. That
is so exactly when pauses skipped no more turns of the lane than of the other in between
(`Relay.FairClaims`); and beforehand it is known of a relay no delivery of which defers
without counting: then every other lane is claimed exactly once
(`Relay.UndeferredClaimsAlternate`). `Relay.PausesUnbalanceClaims` is all that a relay
told one deferral does in three passes: the one lane is paused, and the other claimed
twice meanwhile. `Relay.RunIsDetermined` makes it the only trace that relay can return.

A `limit` to `requeue_dead` is never exceeded, but it may be left unused while there are
dead rows left: a row named again in a later chunk is found, and counted against the
limit, again (django_domain_events/operations/requeue_dead.py:105-112). Of two dead rows
named as `a`, `a` and `b`, a chunk of one and a limit of two reopen `a` alone
(`Operators.RepeatsUseUpTheLimit`). A limit is used up exactly when the rows found first,
as many as it allows, are distinct or are every eligible row (`Operators.LimitIsUsedUp`);
every limit is, exactly when the first rows found, as many as are eligible, are distinct
(`Operators.EveryLimitIsUsedUp`); and nothing is found twice exactly when no dead row is
named in two chunks (`Operators.ListedOnce`).

## Model

| member | source | states |
|---|---|---|
| Rows.FailuresWaitTheirBackoff | django_domain_events/delivery/deliver.py:673-725 | a counted failure spends one attempt, is dead when it is permanent or was the last, and otherwise waits the share of that attempt's window that its jitter draws, to the microsecond |
| Rows.RequestsAreGranted | django_domain_events/delivery/deliver.py:728-824 | a requested delay is granted up to the ceiling when it counts, and between that and twice that when it does not, until the give-up bound dead-letters the row with its attempts unspent |
| Rows.BackoffBounds | django_domain_events/delivery/backoff.py:6-21 | the wait is the share of its window that the jitter draws, to the microsecond; the window starts at the base, doubles with each attempt until the cap, and never shrinks; nor does the wait for one jitter, though each attempt draws its own and may wait less than the one before |
| Rows.FullJitterWaitsTheWindow | django_domain_events/delivery/backoff.py:6-21 | a jitter of one waits the whole window |
| Rows.SpreadBounds | django_domain_events/delivery/deliver.py:801-810 | an uncounted deferral comes back no earlier than it asked and no later than twice that, under the ceiling, and later than asked by the share of that which the jitter draws, to the microsecond |
| Rows.OutcomesSettle | django_domain_events/delivery/deliver.py:586-857 | which outcomes succeed, orphan, kill, reschedule or fail a row, and which spend an attempt, both ways round; and what each writes beside |
| Protocol.StepKeeps | django_domain_events/delivery/deliver.py:429-590 | every step of every interleaving on a row keeps the invariant that ties its status, token, lease and budget to what each worker read |
| Protocol.FreshCellOk | django_domain_events/delivery/fire.py:211-231 | a row as it is inserted meets that invariant |
| Protocol.ClaimKeeps | django_domain_events/delivery/claim_batch.py:83-118 | a claim or a take disarms every worker and message that held the row before |
| Protocol.SecuredLease | django_domain_events/delivery/deliver.py:133-166 | passing the start check leaves the row this worker's, under a lease between its receiver's and a tenth more from that reading of the clock |
| Protocol.StartKeeps | django_domain_events/delivery/deliver.py:154-166 | starting or handing off, with the extension or within the band, keeps the invariant |
| Protocol.RecordedOk | django_domain_events/delivery/deliver.py:586-590 | an outcome written by the row's owner leaves budgets, settlement marks and due times in order, and succeeds exactly when the receiver returned |
| Protocol.FinishKeeps | django_domain_events/delivery/deliver.py:255-289 | the outcome of a run, landed or rolled back, keeps the invariant |
| Protocol.RestKeeps | django_domain_events/delivery/hand_back.py:49-54 | crashes, hand-backs, cancels, replays and requeues keep the invariant |
| Protocol.TerminalRowsAbsorb | django_domain_events/delivery/deliver.py:429-456 | a settled row changes only by a replay, or a requeue if dead, and no run still holds its token |
| Protocol.AttemptsMoveByOneOutcome | django_domain_events/delivery/deliver.py:787-857 | the attempt count moves only by an outcome its owner records, by exactly one past the row's own, and by a reopening to zero; deferrals, NotYet, hand-backs, cancels and lost runs leave it |
| Protocol.WritesWithinTheLeaseLand | django_domain_events/delivery/deliver.py:524-584 | a run that started on a claimed row and writes within its lease still owns the row, so its outcome lands |
| Protocol.NeverStartsEarly | django_domain_events/delivery/deliver.py:131-163 | no receiver starts before the row as its worker read it is due; and if that was claimed, the row is still its own, and due |
| Protocol.LandingRunsWereDue | django_domain_events/delivery/deliver.py:255-289 | a run whose fence still matches read its row claimed, and began when the row was due |
| Protocol.SpentStaysSpent | django_domain_events/delivery/deliver.py:470-497 | a token that can no longer take the row never can again |
| Retention.DueIsSettled | django_domain_events/operations/prune_events.py:91-149 | whatever the arm, an event due for deletion has no owed row |
| Retention.DeletingIsInvisible | django_domain_events/operations/prune_events.py:353-383 | deleting rows whose successes were folded into the side table first changes no receiver's newest success |
| Retention.NewestIsUnique | django_domain_events/introspection/quiet_receivers.py:65-74 | a receiver has one newest success |
| Retention.AccountedAfterWrite | django_domain_events/delivery/deliver.py:258-264 | an acknowledgement that moves a row's success forward keeps every success ever recorded accounted for |
| Retention.AccountedAfterDelete | django_domain_events/operations/prune_events.py:279-284 | so does deleting rows after folding their successes |
| Retention.AccountedIsNewestEver | django_domain_events/introspection/quiet_receivers.py:65-74 | then the newest of the live rows and the side table is the newest success ever recorded |
| World.RowActionMoves | django_domain_events/operations/replay_events.py:145-155 | a step on a row moves its newest success only with the commit that recorded it, so a reopening keeps it, and reopens only by replay or requeue |
| World.DoomedAreSettled | django_domain_events/operations/prune_events.py:280-284 | the rows a prune deletes after its re-check are all settled when it deletes them |
| World.StepKeepsWorld | django_domain_events/operations/prune_events.py:265-304 | every step of the whole outbox, prunes interleaved with everything else, keeps the invariant |
| World.Always | django_domain_events/operations/prune_events.py:265-304 | so it holds at every moment of every run |
| Guarantees.EffectivelyOnce | django_domain_events/delivery/deliver.py:255-289 | a row's receiver committed at most once, plus once for each time the row was reopened |
| Guarantees.LosersRollBack | django_domain_events/delivery/deliver.py:265-281 | whoever finishes a row it lost changes nothing; whoever finishes one it holds found it claimed and is alone in holding it |
| Guarantees.SnapshotsHold | django_domain_events/delivery/deliver.py:508-522 | while a run's fence matches, the row is claimed and is what the run read, but for the lease |
| Guarantees.BudgetsHold | django_domain_events/delivery/deliver.py:699-720 | no row is past its budget, and an owed row has some left |
| Guarantees.ScheduledRowsWait | django_domain_events/delivery/fire.py:211-231 | a row waiting to be claimed is not available before its due time |
| Guarantees.NeverEarly | django_domain_events/delivery/deliver.py:131-163 | whether or not the claim honoured the backoff, no receiver is started before the due time its worker read, nor, where it read the row claimed, before the row's own |
| Guarantees.EarlyRunsNeverLand | django_domain_events/delivery/deliver.py:255-289 | an outcome that lands is of a run that read its row claimed and began when the row was due; any other changes nothing |
| Early.StartsEarly | django_domain_events/delivery/deliver.py:154-159 | a run in which a receiver whose worker read the row unclaimed starts before the row is due |
| Early.TraceIsRun | django_domain_events/delivery/deliver.py:429-590 | any steps of one row, none of them reopening it, are a run of the whole outbox |
| Guarantees.StartsUnderItsLease | django_domain_events/delivery/deliver.py:154-166 | a run or hand-off that passes its start check on a claimed row has between its lease and a tenth more ahead of it |
| Guarantees.InLeaseWorkLands | django_domain_events/delivery/deliver.py:524-590 | in every run, a write within the lease its run started under lands |
| Guarantees.OneCopyPasses | django_domain_events/delivery/deliver.py:470-497 | of any number of copies of one hand-off's message at most one passes the take |
| Guarantees.SpentForever | django_domain_events/delivery/deliver.py:644-670 | once the row was taken, re-claimed, settled or reopened, no copy of the message ever passes again |
| Guarantees.NoRowIsStranded | django_domain_events/delivery/claim_batch.py:82-97 | in every run an owed row has a moment from which any worker may claim it, whatever its attempts and due time |
| Guarantees.SettledRowsStay | django_domain_events/operations/cancel_deliveries.py:94-122 | a settled row, a cancelled one included, stays as it is until it is reopened or pruned |
| Guarantees.PruneKeepsOwedRows | django_domain_events/operations/prune_events.py:265-284 | no step of any run deletes a row that is owed, or its event |
| Guarantees.RecheckSparesReopened | django_domain_events/operations/prune_events.py:280-282 | an event with an owed row when the prune re-checks it, one a replay reopened before the lock was got, is kept |
| Guarantees.RecheckHolds | django_domain_events/operations/prune_events.py:289-304 | from the re-check to the delete, the events found due hold no row they did not hold then, and every one is unchanged and settled |
| Guarantees.PruneIsInvisible | django_domain_events/operations/prune_events.py:319-350 | every batch and every chunk deleted leaves each receiver's newest success what it was |
| Guarantees.QuietReadsTheNewestEver | django_domain_events/introspection/quiet_receivers.py:58-90 | at any moment of any run that newest success is the newest ever recorded, across replays, requeues and prunes |
| Guarantees.DeferralsAreBounded | django_domain_events/delivery/deliver.py:875-883 | a row is deferred without counting at most give_up_after over the shorter of the least delay and the ceiling times, rounded up, from becoming owed to being reopened or rescheduled |
| Guarantees.DeferralsAreSpaced | django_domain_events/delivery/deliver.py:787-824 | each of those deferrals moves the row at least that gap past where it became owed |
| Steps.ClaimedRowsAreClaimSteps | django_domain_events/delivery/claim_batch.py:99-118 | every row a claim selects may be claimed, and is written as the protocol's claim writes it |
| Steps.HandedBackRowsAreHandBackSteps | django_domain_events/delivery/hand_back.py:49-54 | every row a hand-back names is written as the protocol's, whether or not the claim is still its own |
| Steps.QueuedRowsAreHandOffSteps | django_domain_events/delivery/deliver.py:644-670 | a queued hand-off is the protocol's read and hand-off, or no step at all |
| Steps.RowsRunAtOnceAreTakeSteps | django_domain_events/delivery/deliver.py:644-670 | a hand-off the queue runs at once is the protocol's read, hand-off and take, and then a run, or stops where the take is refused |
| Steps.OperatorsAreSteps | django_domain_events/operations/requeue_dead.py:57-81 | cancels, requeues and replays write a row as the protocol's steps do, under the same condition on its status |
| Steps.DeleteBatchIsSteps | django_domain_events/operations/prune_events.py:265-286 | the prune's re-check and delete take the world where its own delete takes the tables |
| Steps.DeleteChunkIsSteps | django_domain_events/operations/prune_events.py:319-350 | so do its re-check and a chunk's delete, which is possible exactly while its event is still due |
| Registry.Registry.RegisterReceiver | django_domain_events/declaration/registry.py:68-102 | a receiver is registered unless its key is too long or names another declaration, and nothing else is |
| Registry.LanesPartition | django_domain_events/declaration/registry.py:133-163 | whatever the key, a deleted receiver's included, exactly one lane's claim accepts it, and it is the key's own lane |
| Registry.ClaimLease | django_domain_events/declaration/registry.py:165-203 | a claim never stamps more than the setting and a tenth |
| Registry.UniformLanesStampTheirOwn | django_domain_events/declaration/registry.py:165-203 | a lane whose durable receivers share a lease within the setting is claimed under it; a mixed lane under the setting |
| Registry.StampsTheSharedLease | django_domain_events/declaration/registry.py:165-203 | where every durable receiver a claim is for has one lease, the claim stamps that or the setting, the less, and a tenth more; where two differ, the setting and a tenth |
| Registry.NoneStampsTheSetting | django_domain_events/declaration/registry.py:165-203 | and where there is none, the setting and a tenth |
| Registry.HeadroomIsTheBand | django_domain_events/delivery/deliver.py:524-568 | a row claimed under its receiver's lease and headroom starts without an extension exactly while the headroom, a tenth of the lease, lasts |
| Serving.ServedLanes | django_domain_events/delivery/utils.py:33-69 | the distinct lanes named, refused exactly when there is none or one is not declared |
| Serving.ClaimSize | django_domain_events/delivery/utils.py:15-30 | the size given, or the setting where none is; a size below one is refused |
| Serving.LaneClaimSizes | django_domain_events/delivery/utils.py:72-104 | each lane's claims take its own size where it has one, refused exactly for an override below one or of a lane not served |
| Claims.Select | django_domain_events/delivery/claim_batch.py:102-110 | the first rows by available time and then by key, as many as the limit allows, none twice |
| Claims.ClaimBatch | django_domain_events/delivery/claim_batch.py:82-118 | those rows, and no other, are claimed under this token and lease; read off the columns, a row is taken exactly when it waits in the claim's scope, unless the limit was reached by rows that are sooner |
| Claims.NoneIsLeftWaiting | django_domain_events/delivery/claim_batch.py:82-118 | a claim whose limit was not reached leaves no pending or failed row that is available, and no claimed one whose lease is over, whatever its attempts and due time |
| Claims.HandBack | django_domain_events/delivery/hand_back.py:49-54 | exactly the named rows still held under this claim have their lease expired, and are counted; every other column and row is left |
| Claims.HandedBackIsClaimable | django_domain_events/delivery/hand_back.py:20-28 | any worker's next claim may take a handed-back row at once, in its old place in the order |
| Deliver.Take | django_domain_events/delivery/deliver.py:470-497 | a message takes the row exactly when the row is claimed under the claim the message carries |
| Deliver.ExtendLease | django_domain_events/delivery/deliver.py:570-584 | the lease moves exactly when the token matches, and nothing else does |
| Deliver.Write | django_domain_events/delivery/deliver.py:586-590 | the outcome is written exactly when the token matches, and is the status the row then has |
| Deliver.DeliverOne | django_domain_events/delivery/deliver.py:105-289 | one delivery refuses, secures its lease, runs and records as `Ran` says, after its take if it came by message, and touches no other row |
| Deliver.HeldRunsAreRecorded | django_domain_events/delivery/deliver.py:131-289 | a run of a row it holds always records its outcome, starts it under the receiver's own lease, and sets its lane aside exactly when it deferred without that counting |
| Deliver.HeldRunsWait | django_domain_events/delivery/deliver.py:673-857 | and a failed row waits by its receiver's own base and cap, or the settings', or for as long as it asked |
| Deliver.LostRunsChangeNothing | django_domain_events/delivery/deliver.py:154-166 | and of one it lost it changes nothing |
| Deliver.RanIsTheProtocol | django_domain_events/delivery/deliver.py:131-289 | and that is the protocol's read, start and finish, so every theorem over runs covers it |
| Deliver.DispatchOne | django_domain_events/delivery/deliver.py:593-670 | a row is delivered here, or handed to the queue under its claim, and no other row moves |
| Deliver.DispatchedOutcomes | django_domain_events/delivery/deliver.py:625-670 | the caller hears of an outcome exactly for a row that is no task's, and of the outcome the row then has |
| Drain.DeliverPending | django_domain_events/delivery/deliver.py:1168-1244 | the call ends whatever the receivers do, if queues stop deferring unheard at some point; then every row left waiting, in a lane it serves and no delivery deferred, was delivered by the call and is pending or claimed, so none is a failed one; the lanes closed are exactly those of deliveries that deferred, the counts exactly the deliveries that came to each status, and its log accounts for every row |
| Drain.Rotate | django_domain_events/delivery/deliver.py:1171-1242 | a rotation that claims lowers the measure, and one that does not leaves nothing claimable: of the deliveries after which queues no longer defer unheard, and then of the attempts still owed |
| Drain.Turn | django_domain_events/delivery/deliver.py:1184-1236 | so does each lane's turn, which closes no lane but its own |
| Drain.DeliverClaimed | django_domain_events/delivery/deliver.py:1201-1236 | a batch is delivered in order until it is done or one delivery defers, and the rest handed back |
| Drain.DeliverNext | django_domain_events/delivery/deliver.py:1203-1228 | every single delivery lowers the measure, and is logged from where the one before left its row |
| Drain.DeliveryProgresses | django_domain_events/delivery/deliver.py:1203-1228 | a delivery keeps its row's budget; and unless its queue defers unheard it settles the row, spends an attempt, defers, or leaves it put aside |
| Drain.UnheardDeferralsSpendNothing | django_domain_events/delivery/deliver.py:593-605 | a task deferring uncounted inside its hand-off spends nothing and is not heard of, and leaves its row claimable by a pass that ignores the backoff, until its own clock reaches the give-up bound: then the row is dead |
| Drain.ClocksQuietQueues | django_domain_events/delivery/deliver.py:875-883 | a clock that reaches every receiver's give-up bound is all the drain need know to end |
| Shares.DeliverLimited | django_domain_events/delivery/deliver.py:1165-1244 | the limited call ends on any clock; each turn begins with what the one before left of the limit, and the attempts never exceed it; no lane has a turn after it deferred or was found drained, and on return the limit is spent or that has come of every lane; and in the first rotation a lane that did not defer had all it could claim attempted, or the limit over the number of lanes |
| Shares.TurnOnRows | django_domain_events/delivery/deliver.py:1184-1235 | a turn's backlog is the rows its claim could take, its batch the first of them, its attempts that batch in order up to the first that defers, the rest handed back |
| Shares.LimitIsSpent | django_domain_events/delivery/deliver.py:1229-1235 | the attempts of all turns and what remains add up to the limit, which is never negative |
| Shares.ShareIsCeiling | django_domain_events/delivery/deliver.py:1181-1182 | a turn's share is what remains over the lanes left, rounded up |
| Shares.ShareLeaves | django_domain_events/delivery/deliver.py:1181-1182 | taking it leaves every lane after it the floor it was owed |
| Shares.Rotate | django_domain_events/delivery/deliver.py:1171-1242 | a rotation either attempts something or closes every lane it visited, unless the limit is spent |
| Relay.RunRelay | django_domain_events/delivery/run_relay.py:189-303 | the relay's trace is lawful, made of what it was told and at its end: nothing claimed is left over, and every turn of every pass was taken unless it was told to stop; and each status is counted as often as a start came to it |
| Relay.RunIsDetermined | django_domain_events/delivery/run_relay.py:189-303 | and those laws leave no choice: what a relay is told has one such trace |
| Relay.ClaimedRowsAreAccounted | django_domain_events/delivery/run_relay.py:234-267 | at every moment each row claimed was started or given back, once each time it was claimed, or is still to be |
| Relay.DeliverBatch | django_domain_events/delivery/run_relay.py:239-267 | whatever ends a batch, nothing of it is left over |
| Relay.StopsWhenTold | django_domain_events/delivery/run_relay.py:199-201 | nothing is claimed or started after stop said yes, nor without having just asked it |
| Relay.PausesLast | django_domain_events/delivery/run_relay.py:206-217 | no lane is claimed at a reading of the clock before any pause of it ends |
| Relay.PausesAreAsAsked | django_domain_events/delivery/run_relay.py:248-262 | a pause follows the row that deferred, is of its lane, and lasts as long as was asked |
| Relay.TurnsGoRound | django_domain_events/delivery/run_relay.py:192-194 | turns go round the lanes |
| Relay.FairTurns | django_domain_events/delivery/run_relay.py:192-217 | between two turns of a lane every other lane has exactly one turn more than that lane |
| Relay.FairClaims | django_domain_events/delivery/run_relay.py:192-232 | between two consecutive claims of a lane another is claimed once, once more for each turn of the lane a pause skipped and once less for each of its own; so at most once exactly when the lane skipped no more turns than it |
| Relay.UndeferredClaimsAlternate | django_domain_events/delivery/run_relay.py:192-232 | where no delivery defers without counting, between two consecutive claims of a lane every other is claimed exactly once |
| Relay.PausesUnbalanceClaims | django_domain_events/delivery/run_relay.py:212-215 | all a relay of two lanes does in three passes of what it is told, one deferral: the other lane is claimed twice between two consecutive claims of the paused one |
| Budget.FittingIsExact | django_domain_events/operations/prune_events.py:242-262 | where the truncated count says the events fit, it counted them exactly |
| Budget.ChunkOrFits | django_domain_events/operations/prune_events.py:211-229 | an event is sent to be chunked exactly when it has a budget's worth of rows or more, and otherwise fits the budget alone |
| Budget.Fitting | django_domain_events/operations/prune_events.py:242-262 | from a truncated count the walk returns the longest prefix whose true rows fit the budget, and at least one event |
| Prune.RecordLastSuccesses | django_domain_events/operations/prune_events.py:353-383 | the side table becomes, key by key, the later of its entry and the rows' newest success, and never moves back |
| Prune.Candidates | django_domain_events/operations/prune_events.py:233-239 | up to so many due events, the oldest, in key order |
| Prune.WeightIsRows | django_domain_events/operations/prune_events.py:253-262 | what the walk weighs is the number of rows the delete removes |
| Prune.DeleteBatch | django_domain_events/operations/prune_events.py:265-286 | exactly the events of the batch still due go, with all their rows, their successes folded first |
| Prune.DeleteChunk | django_domain_events/operations/prune_events.py:319-350 | while its event is still due, exactly so many of its rows go, the lowest keys, their successes folded first |
| Prune.DueSurvives | django_domain_events/operations/prune_events.py:319-322 | deleting deliveries of due events leaves due what was due, under every arm |
| Prune.PruneOnce | django_domain_events/operations/prune_events.py:196-230 | one turn deletes at least one row and at most the budget, of due events only, or nothing is due |
| Prune.PruneArm | django_domain_events/operations/prune_events.py:187-230 | an arm ends having deleted only what it found due, at most the limit, and, unless limited or stopped, all of it |
| Prune.PruneEvents | django_domain_events/operations/prune_events.py:25-157 | an event with work owed survives with all its rows, as does one inside its retention unless what it was recorded to wait for has come, a dead or orphaned row being no success; with no limit and no stop every other event goes, with all its rows; with a limit and no stop exactly as many of them as it allows, and stopped at most so many; a size below one is refused; and no receiver looks any quieter |
| Prune.SparedIsNotDue | django_domain_events/operations/prune_events.py:91-152 | the events so spared are exactly those due under none of the four arms |
| Quiet.QuietReceivers | django_domain_events/introspection/quiet_receivers.py:58-90 | a durable receiver is reported exactly when no success of it, live or pruned, is from the cutoff on, with its latest |
| Quiet.PruningKeepsQuiet | django_domain_events/introspection/quiet_receivers.py:58-90 | a prune changes no answer of quiet_receivers |
| Replay.ResolveTargets | django_domain_events/utils.py:312-325 | the targets answered, each once, first occurrence kept, refused whole when one is blank or not text |
| Replay.FirstsAreDistinct | django_domain_events/utils.py:312-325 | those are exactly the distinct answers |
| Replay.ResolveDue | django_domain_events/utils.py:357-372 | a due time is never before the row is written |
| Replay.ReplayPair | django_domain_events/operations/replay_events.py:111-183 | for one event and receiver, settled rows of its targets are reopened, missing ones added, one each, and counted, and nothing else moves |
| Replay.ReplayEvents | django_domain_events/operations/replay_events.py:83-183 | the same over every event still there and every receiver asked for |
| Replay.ReplayedIsOwed | django_domain_events/operations/replay_events.py:132-183 | after a replay every receiver and target resolved has exactly one row, and it is owed: in flight as it was, or pending with a full budget, due no earlier than the replay |
| Replay.AnswersAreOwed | django_domain_events/operations/replay_events.py:111-176 | and every target a receiver answers has one row, owed: in flight as it was, or pending with its whole budget from the later of the replay's one reading of the clock and the receiver's schedule; a new one with the receiver's budget and the event's moment |
| Replay.AllPairsAre | django_domain_events/operations/replay_events.py:83-110 | what a replay covers is each receiver named for each event asked for and still there |
| Replay.OthersUntouched | django_domain_events/operations/replay_events.py:136-155 | a row changes exactly when it is named and settled: targets no longer returned and rows in flight do not |
| Replay.SecondReplayDoesNothing | django_domain_events/operations/replay_events.py:127-183 | a second replay of the same targets changes no row and counts nothing |
| Replay.AddedRowsAreFresh | django_domain_events/operations/replay_events.py:157-176 | the rows a replay adds are rows as fire writes them |
| Operators.CancelDeliveries | django_domain_events/operations/cancel_deliveries.py:87-122 | whatever the chunking, exactly the pending and failed rows asked about are cancelled and counted, nothing else of them changed, and the claimed ones are counted and left |
| Operators.Batches | django_domain_events/operations/cancel_deliveries.py:125-161 | the batches are apart and together cover exactly the rows asked about |
| Operators.CancelledRowsNeverRun | django_domain_events/operations/cancel_deliveries.py:94-122 | no row in scope is left for a claim to take but those a worker already held, and a second cancel finds nothing |
| Operators.RequeueDead | django_domain_events/operations/requeue_dead.py:40-84 | exactly the chosen dead rows are pending from now, with their budget and nobody's claim, and counted: all that are eligible, or those found first, as many as the limit allows; that many, if there are, exactly when those are distinct or all |
| Operators.NamedDead | django_domain_events/operations/requeue_dead.py:87-112 | what is found among rows named is the dead rows of each chunk, by key, one chunk after another, cut off at the limit |
| Operators.LimitIsUsedUp | django_domain_events/operations/requeue_dead.py:87-112 | a limit is used up, as far as there are eligible rows, exactly when what it keeps of those found is distinct, or is all of them |
| Operators.EveryLimitIsUsedUp | django_domain_events/operations/requeue_dead.py:87-112 | every limit is, exactly when the first rows found, as many as are eligible, are distinct |
| Operators.ListedOnce | django_domain_events/operations/requeue_dead.py:105-112 | nothing is found twice exactly when no dead row is named in two chunks |
| Operators.RepeatsUseUpTheLimit | django_domain_events/operations/requeue_dead.py:105-112 | naming one dead row twice, in chunks of one, uses up a limit of two on it and leaves another dead row dead |
| Fire.WriteEvent | django_domain_events/delivery/fire.py:195-233 | for each delivery planned exactly one new row is written, with its receiver, target, budget and due time, which no claim accepts before that time, and any claim from then on; and no other row is written or moves |
| Fire.PlansAreOwable | django_domain_events/delivery/fire.py:195-231 | distinct receivers, distinct targets and resolved due times plan no delivery twice and none before its event |
| Fire.PlansCoverTheParts | django_domain_events/delivery/fire.py:198-231 | what is planned is one delivery for each target of each durable receiver, with its budget and due time, and no other |
| Fire.FiredRowsAreFresh | django_domain_events/delivery/fire.py:211-231 | every row fired is pending with its whole budget, claimable exactly from its due time, or at once |
| Fire.FiringIsPossible | django_domain_events/delivery/fire.py:195-233 | firing is a step the world allows at any moment from the one it records on |
| Fire.ClaimEagerly | django_domain_events/delivery/fire.py:291-319 | the eager attempt claims exactly this event's eager rows whose time has come and nobody has claimed |
| Health.OutboxHealth | django_domain_events/introspection/outbox_health.py:66-152 | the totals, each receiver's split and each lane's count exactly their rows owed and due, scheduled, claimed and dead, with the earliest moment a due one became owed; a receiver is listed exactly when it has a row owed or dead, and every lane is |
| Health.CountsOwed | django_domain_events/introspection/outbox_health.py:66-76 | a backlog counts the rows owed and due, and the scheduled ones apart |
| Health.CountsByStatus | django_domain_events/introspection/outbox_health.py:66-77 | and the claimed and the dead |
| Health.KeepsTheEarliest | django_domain_events/introspection/outbox_health.py:155-170 | and keeps the earliest moment one of the due rows became owed |
| Health.LaneBacklog | django_domain_events/introspection/outbox_health.py:155-170 | a lane's backlog is its receivers' added up |
| Health.ReceiversSumToTotals | django_domain_events/introspection/outbox_health.py:85-108 | the receivers' counts sum to the totals, and their earliest age is the outbox's |
| Health.LanesSumToTotals | django_domain_events/introspection/outbox_health.py:110-141 | so do the lanes' |
| Health.LaneCountsWhatItClaims | django_domain_events/introspection/outbox_health.py:115-117 | a lane counts exactly the owed and dead rows its claim accepts by their key |

## Left out

- Receivers' bodies, the async adapter, the hook around a delivery, `on_failure` and
  logging: an attempt is an arbitrary verdict. A receiver that returned but whose
  commit the database refused is one that raised.
- Exceptions that are not verdicts, such as a timeout signal: the worker stops, as
  `Protocol.Drop` has it.
- Database errors, and the relay's retries and backoff around them: a claim that fails
  ends the relay's pass early, so turns need not go round then.
- The relay's sweep, its wait, its pause records and its notifications; whether a
  relay runs for a number of passes or until told; lanes declared while it runs.
- `LanePauseRecord` and the lapsed-lease count of `outbox_health`, and the order its
  lists are sorted in.
- `deliver_pending` with no `now` and no limit, on the real clock: whether it ends
  depends on how fast the clock moves. With a limit it ends on any clock (`Shares`).
- What other writers do during `deliver_pending` told a `now`, `replay_events`,
  `cancel_deliveries`, `requeue_dead` and `prune_events` as loops: the loops are proved
  alone, and the steps they are made of are proved among all others in `World`.
- Lock order, and so deadlock: an event is locked or not.
- Binary floating point: jitter is any real in [0, 1] and the headroom is exactly a
  tenth more, in whole microseconds, so the band is off by less than a microsecond
  from a float's.
- The order text sorts in: lanes, receivers and keys are taken in some order.
- The digest of a target: targets are told apart by their text.
- `exclude_lanes` of a claim, which no caller here passes.
- Payload codecs and upgrades, the event classes behind names, and tables, indexes and
  time zones: `Replay.Plan` and `Fire.Part` are what those resolve to. An event whose
  name nobody declares has no receivers to replay.
- A `targets=` or `due=` callable that raises: its event's transaction is rolled back
  and the error goes to the caller.
- The eager attempt's worker id, `eager`, is shared by every process that fires; its
  claims are covered while their claim times differ.
- Inline and on-commit receivers, suppression, scope and causation.
- Quiet.QuietReceivers: the order of the report is not stated.
- Prune.PruneOnce: that a batch is the longest that fits is stated of `Budget.Fitting`,
  not again here.
