# kazenai: verification model

This project models the parts of KazenAI that enforce a hard spending limit, and proves what they promise. A bounded cost
is reserved before a call, the call is dispatched, the real cost is settled, and every amount that is not yet settled is
kept as evidence. Money is exact: reals for dollars, integers for micro-dollars. The clock is a parameter, and every section
under a lock is one step.

The modules, by component:

- **Budget.** `LocalBudget` is the `Enforcement` object, `SharedBudget` any interleaving of its callers, `GuardedCalls` the
  path a guarded provider call takes through its awaited calls, and `GuardedRuns` that path on the object and many such calls
  at once.
- **Gateway settlement.** `GatewaySettlement` lists what each job does to files, cache and network, one effect at a time;
  `GatewayRuns` interleaves the effects of many threads with lost messages, crashes and restarts, `GatewayRaces` says when
  such runs keep each settlement in one place; `GatewayClient` has the client and its store as classes, proved to have
  exactly those effects; `GatewayAlone` ties the runs to them, `GatewayReports` says whose ids and amounts the messages carry.
- **Spool.** `RetryQueue` (the two tables), `SpoolRuns` (what holds over runs), `HttpSink` (its user).
- **Loop detection.** `LoopHistory` (one history) and `LoopSubjects` (the bounded map of histories).
- **Prices.** `Money`, `Rates`, `Reservation`, `UsageSplit`, `Settling`, `UsageReports` (what a report's named counts
  settle at), `ImageTokens`, `RequestBytes`.
- **Catalog.** `PriceCatalog` (a row in time), `LiveCatalog` (no rollback), `Decimals`, `CatalogJson` and `CatalogDocument`
  (export and parse), `CatalogNames` (what stands under which name), `CatalogPrices` (from a delivered document to the
  price in force).
- **CrewAI.** `CrewOwnership` (the ownership registry) and `CrewScopes` (scopes of concurrent kickoffs).
- **Licences.** `LicensePolicy`, the expression evaluator of the licence gate (SPDX specification 2.3, Annex D.4).

`Wrappers` and `Text` are shared helpers. `dafny verify dfyconfig.toml` checks everything.

Some promises turned out to need a condition; the model keeps the code as it is and proves exactly when they hold:

- A settlement can exceed its reservation when a rate the usage can name (audio, cached, a write) is dearer than the reserved
  one; `Reservation.ReservationDominatesSettlement` is the exact condition and `DearAudioBreaksTheBound` an input.
- A settlement is never lost and never charged twice, however threads interleave. It is in exactly one of acknowledged,
  pending and quarantined as long as no step writes again one that left the queue or acknowledges one set aside
  (`GatewayRaces.OnePlaceUnlessADisturbingStep`). Callers see to that by not settling again what left the queue and by not
  flushing a settlement whose own job is still at work (`GatewayRaces.OnePlaceOnConsiderateRuns`); the program's background
  flush can break the second part (`GatewayRaces.FlushDuringASettlement`). One job at a time, the first part is enough, and
  needed (`GatewayRuns.OnePlaceThroughout`, `SettlingTwiceDisturbs`).
- A dispatched call whose every settlement signal is lost before it is journaled, by a missing capability or an unwritable
  journal, leaves its reservation merely started (`GuardedCalls.ReservationEnds`, `RaisedSettlementLeavesNoTrace`).
- A cancelled call, or one whose settlement signal raises where nothing catches it, keeps its local hold for good
  (`GuardedCalls.HoldDischargedExactlyOnce`).
- Stopping the similarity scan at 0.999 changes the answer exactly for thresholds from 0.999 up to, not including, 1.
- With `max_attempts` below 1 a released row has no attempt left (`SpoolRuns.ReleasedRowsHaveAttemptsLeft`).
- A row whose last allowed lease runs out without being given back is leased again, and dies above the limit
  (`SpoolRuns.FailingRunsLeaseToTheLimit`, `ExpiredLeaseDiesLate`).
- On a hosted distribution package, severity and decision order differ on unknown licences, so the gate's choice need not be
  the best one (`LicensePolicy.DecidesBestExactly`).
- Two crews with an agent key in common both own an event by that key (`CrewOwnership.SharedKeyHasTwoOwners`).
- Text nested deeper than 32 levels is not counted by the size estimate (`RequestBytes.DeepTextIsCoveredUpTo32`).
- A JSON string that needs escaping can be longer than the strict count says (`RequestBytes.QuotesAreCountedShort`).
- A chat request let through as short can be priced on the long band when it nests deeper than 32 levels
  (`RequestBytes.BandsAgreeUpTo32Levels`, `DeepChatIsPricedLong`).
- A spool refusal on a full queue counts one event as dropped twice (`HttpSink.LostEventCountsTwice`).
- After a restart a flushed settlement leaves its open file behind (`GatewayClient.OpenFilesSurviveARestart`).

## Model

| member | source | states |
|---|---|---|
| `LocalBudget.Enforcement.PruneLocked` | kazenai/enforcement.py:245-249 | Drops exactly the timestamps older than the window; nothing else changes. |
| `LocalBudget.Enforcement.CheckLocal` | kazenai/enforcement.py:112-147 | Admits iff neither rate limit nor cap is exceeded by what is recorded and held; an admission holds exactly the positive projection, a refusal changes nothing but the pruned window. |
| `LocalBudget.Enforcement.RemainingBudgetUsd` | kazenai/enforcement.py:149-159 | What the method returns is the headroom left by cumulative and pending cost; the state is not changed. |
| `LocalBudget.Enforcement.ReleaseProjection` | kazenai/enforcement.py:161-178 | Discharges the hold and nothing more. |
| `LocalBudget.Enforcement.RecordCall` | kazenai/enforcement.py:180-222 | Discharges the hold, adds the cost and the timestamp; cuts off iff asked to and what was spent before plus this cost is past the cap, with the cost recorded all the same. |
| `LocalBudget.PruneKeepsTheWindow` | kazenai/enforcement.py:245-249 | For timestamps in order, pruning keeps exactly those inside the window. |
| `LocalBudget.DropOlderKeepsASuffix` | kazenai/enforcement.py:245-249 | The prune loop removes a prefix and stops at the first timestamp that stays. |
| `LocalBudget.RemainingIsWhatFits` | kazenai/enforcement.py:112-159 | While spend is within the cap and the rate allows, a projection is admitted iff it is within what `remaining_budget_usd` reports, which then drops by exactly it. |
| `LocalBudget.RecordingSpendsAndReleases` | kazenai/enforcement.py:180-222 | Figure by figure: the cost is added, the hold comes off pending exposure but never below zero, the call is the newest in the window, and the cut-off is told iff the sum is past the cap. |
| `SharedBudget.BudgetSafety` | kazenai/enforcement.py:63-222 | On every interleaving on one non-negative cap, each hold discharged at most once: pending is the sum of outstanding positive holds and cumulative + pending <= cap + the sum of max(0, actual - hold) over finished calls. |
| `SharedBudget.ClampNeverCuts` | kazenai/enforcement.py:161-206 | In every reachable state the `max(0, ...)` clamp of a discharge cuts nothing. |
| `SharedBudget.SpendNeverPassesTheCap` | kazenai/enforcement.py:112-222 | If every call settles within its projection, recorded spend plus outstanding holds never pass the cap, on any interleaving. |
| `SharedBudget.DoubleDischargeBreaksTheCap` | kazenai/enforcement.py:161-178 | Concrete run: a hold discharged twice lets spend pass the cap, so the at-most-once condition is needed. |
| `SharedBudget.RateSafety` | kazenai/enforcement.py:112-147 | On every run with at most k calls in flight: entries in the window plus admitted, unrecorded calls are at most limit - 1 + k, and so are the calls recorded in any stretch of one window; with a limit below one nothing is ever admitted or recorded. |
| `SharedBudget.LedgerTellsTheRun` | kazenai/enforcement.py:112-249 | On every run the recorded spend is the sum of the costs, the recorded calls are those of the steps, and the window holds the latest of them, none older than its length when the clock was last read. |
| `SharedBudget.AccountedInductive` | kazenai/enforcement.py:112-222 | Every single step keeps the accounting of holds, cap and overshoot. |
| `SharedBudget.PacedInductive` | kazenai/enforcement.py:112-222 | Every single step keeps the window and in-flight bound. |
| `GuardedCalls.HoldDischargedExactlyOnce` | kazenai/monitor.py:678-695 | On every path of a non-streaming call, sync or async, the local hold is discharged exactly once if and only if no awaited call was cancelled or (where nothing catches it) raised; otherwise not at all, never twice. |
| `GuardedCalls.DischargeIsTheCallsOwn` | kazenai/_async_provider.py:221-430 | For every script, sync or async: how the call ends, read off the script alone; a call that returns discharges once, recording the cost of its own response; a failed one records zero; a refused one releases and records nothing; an unwound one does neither. |
| `GuardedCalls.ConclusionRecords` | kazenai/monitor.py:1786-1858 | The same from the provider call on: it returns iff the provider responded and no signal its settlement needs was cancelled or, where nothing catches it, raised. |
| `GuardedCalls.ReservationEnds` | kazenai/monitor.py:1786-1856 | A dispatched call ends settled at an amount exactly when the service acknowledged that amount, which is its known cost, or zero for a definite refusal; merely started exactly when every signal the script sends was lost before it was journaled or received; pending otherwise. Whether a signal was kept is arbitrary. |
| `GuardedCalls.UndispatchedReservation` | kazenai/monitor.py:1683-1780 | A call that does not reach its provider with a shared reservation leaves that as it was made, or none. |
| `GuardedCalls.KeptSignalsSettleOrPend` | kazenai/monitor.py:1786-1856 | If no signal is lost, only a sync call interrupted in flight is left started: it sends none. |
| `GuardedCalls.RaisedSettlementLeavesNoTrace` | kazenai/spine/guard.py:1720-1730 | Concrete scripts: a settlement that raises before it is journaled leaves a sync reservation started although its cost is known; the async one exactly when its two further signals are lost too. |
| `GuardedCalls.AcknowledgedSettlementSettles` | kazenai/monitor.py:1839-1856 | A known cost acknowledged at once is the amount settled, whatever became of other signals. |
| `GuardedRuns.Open` | kazenai/monitor.py:961-980 | Reserve denied or start refused releases the hold and ends the call as the path says. |
| `GuardedRuns.Fail` | kazenai/monitor.py:1789-1811 | A provider failure marks pending (zero only when rejected) and records a zero cost with the hold released. |
| `GuardedRuns.SettleSync` | kazenai/monitor.py:1829-1856 | Goes through exactly the signals of its path, returns iff those it needs went through, and adds the cost of the response to cumulative cost if it returns, else nothing. |
| `GuardedRuns.SettleAsync` | kazenai/_async_provider.py:386-430 | The same for the async settlement, with its swallowed exceptions and cancellations. |
| `GuardedRuns.Concluded` | kazenai/_async_provider.py:325-430 | Everything after the provider call, per outcome, including interruption. |
| `GuardedRuns.GuardedCall` | kazenai/_async_provider.py:221-430 | A whole guarded call on the Enforcement object: its journal is the path of its script, and it ends as the script says. A call that returns leaves cumulative cost at its old value plus the cost of its response and pending as before; any other adds no cost; only an unwound one keeps its hold. |
| `GuardedRuns.CallAccounts` | kazenai/monitor.py:1683-1858 | So for every script and ledger: what one admitted call does to cumulative cost, pending exposure and window, whatever it went through. |
| `GuardedRuns.NextEventIsEnabled` | kazenai/monitor.py:1683-1856 | No call ever waits for a hold that is gone. |
| `GuardedRuns.GuardedCallsKeepTheCap` | kazenai/monitor.py:1683-1856 | Any number of guarded calls interleaved, any replies: the cap holds up to overruns, and when all have run their course the holds left are exactly those of disturbed calls. |
| `GuardedRuns.SpendIsWhatReturned` | kazenai/monitor.py:1683-1858 | Over every interleaving of guarded calls, in every state: cumulative cost is exactly the sum of what the responses cost in the calls that have returned. |
| `GuardedRuns.UndisturbedCallsLeaveNothingPending` | kazenai/monitor.py:1683-1856 | Without a disturbance nothing stays pending. |
| `GatewaySettlement.KeptByEffect` | kazenai/integrations/litellm_control.py:480-590 | Every single file, cache or network effect keeps every written settlement in acknowledged, pending or quarantined, with its exact amount. |
| `GatewaySettlement.ChargedByEffect` | kazenai/integrations/litellm_control.py:741-848 | Every effect keeps: charged at most once per key, at the exact amount, only what was written down before, and everything acknowledged is charged. |
| `GatewaySettlement.OnePlaceUnlessDisturbed` | kazenai/integrations/litellm_control.py:741-936 | An effect leaves every settlement in exactly one place if and only if it neither rewrites a settlement that left the queue nor acknowledges a quarantined one. |
| `GatewayRuns.NoSettlementIsLost` | kazenai/integrations/litellm_control.py:741-936 | In every state reached by settlements, cancellations and flushes that interleave effect by effect, with lost messages, crashes and restarts anywhere: no settlement is lost or altered, none is charged twice. |
| `GatewayRuns.SettlementStaysFound` | kazenai/integrations/litellm_control.py:741-802 | Once its file was written, a settlement is found in every later state, with its amount; an acknowledged one has been charged exactly that amount. |
| `GatewayReports.BodiesAreTrue` | kazenai/integrations/litellm_control.py:741-936 | However jobs interleave, and whatever is lost: every body pending, set aside, sent or charged carries the reservation id, call id, key, kind of event and amount of one job that was begun. |
| `GatewayReports.FoundUnderItsOwnIds` | kazenai/integrations/litellm_control.py:757-767 | So where a key belongs to one attempt, its settlement, wherever it is found, names that attempt's own reservation and call and its own price. |
| `GatewayRuns.IntentsAndChargesStay` | kazenai/integrations/litellm_control.py:741-936 | What was written down and what was charged is never forgotten on any run. |
| `GatewayRuns.OnePlaceThroughout` | kazenai/integrations/litellm_control.py:741-936 | One job at a time (see `GatewayRaces` for threads): at every point of it and after dying there, every settlement is in exactly one of acknowledged, pending, quarantined if and only if none is settled again after leaving the queue. |
| `GatewayRuns.OnePlaceAlways` | kazenai/integrations/litellm_control.py:741-936 | The same over every sequence of single jobs that finish or die part-way. |
| `GatewayRuns.SettlingTwiceDisturbs` | kazenai/integrations/litellm_control.py:741-802 | Concrete input: a settlement that went through, settled again, lies in the queue although acknowledged. |
| `GatewayRaces.OnePlaceUnlessADisturbingStep` | kazenai/integrations/litellm_gateway.py:100-110 | On every interleaving of settlements, cancellations and flushes, with losses and crashes: every settlement is in exactly one place in all states so far if and only if no step so far rewrote one that had left the queue or acknowledged one set aside. |
| `GatewayRaces.OnePlaceOnConsiderateRuns` | kazenai/integrations/litellm_control.py:741-936 | A condition callers can check: no settlement starts after its key was acknowledged or set aside, no flush comes to a key set aside, and neither while another job still has to write, acknowledge or set aside that key; then every settlement is in exactly one place in every state. |
| `GatewayRaces.ConsiderateKeepsOrderly` | kazenai/integrations/litellm_control.py:741-936 | One such step keeps every job free of disturbing effects ahead and no two jobs on one settlement, and disturbs nothing itself. |
| `GatewayRaces.FlushDuringASettlement` | kazenai/integrations/litellm_control.py:778-781 | Concrete run: a flush in its thread acknowledges a settlement whose reply was lost, then the settlement writes its file again; acknowledged and pending, nothing settled twice. |
| `GatewayRuns.SafeInductive` | kazenai/integrations/litellm_control.py:741-936 | One step of any thread, a spawn or a crash keeps all of it, including the order write, send, acknowledge of every thread. |
| `GatewayAlone.AloneThreadsDoTheirJob` | kazenai/integrations/litellm_control.py:741-936 | Any stretch of a run in which one thread gets to its end alone comes to what it had to do, followed by one whole flush of what it had listed. |
| `GatewayAlone.JobsLeftAlone` | kazenai/integrations/litellm_control.py:741-936 | So a settlement, cancellation or flush left alone is exactly the job of the client's method. |
| `GatewayAlone.OpeningKeepsTheFile` | kazenai/integrations/litellm_control.py:700-945 | A reservation is in its open file and the cache; rehydrating adds what an open file holds, except where the cache knows better. |
| `GatewayClient.FlushShrinksTheQueue` | kazenai/integrations/litellm_control.py:885-936 | A flush shrinks the queue by exactly applied + quarantined and leaves the other files untouched. |
| `GatewayClient.FlushCountsEachOnce` | kazenai/integrations/litellm_control.py:893-936 | Every entry a flush comes to is counted once, as applied, set aside or failed; it stops after the first without an answer. |
| `GatewaySettlement.EntryFate` | kazenai/integrations/litellm_control.py:441-452 | An entry is set aside iff older than a week or refused with 400, 404, 409, 410 or 422; delivered iff the reply says applied, duplicate or, for an unknown outcome, pending; the flush ends iff there is no answer. |
| `GatewayClient.DeliveredFlushTakesAll` | kazenai/integrations/litellm_control.py:885-936 | If every answer delivers, exactly the listed entries leave the queue and all count as applied. |
| `GatewayClient.FlushDropsTheFinished` | kazenai/integrations/litellm_control.py:885-936 | A flush drops the open file and cache entry of exactly those cached attempts whose known settlement it came to and delivered. |
| `GatewayClient.OpenFilesSurviveARestart` | kazenai/integrations/litellm_control.py:918-932 | So it leaves all open files iff none is of such an attempt; a restart empties the cache and keeps files and service, and a flush after it drops no open file, also not that of a settled attempt. |
| `GatewayClient.SettlementLeaves` | kazenai/integrations/litellm_control.py:741-802 | After a settlement one body was sent, with the attempt's own reservation id, call id, key and the exact amount; it is acknowledged, off the queue and its open file gone, or it is the pending file of its key and the attempt stays open with the amount. Nothing else on disk, in the cache or at the service changed. |
| `GatewayClient.FlushFinishesTheSettlement` | kazenai/integrations/litellm_control.py:756-936 | A settlement that stayed pending and a later flush that delivers it: the flush closes exactly the cached attempts with its reservation id and call id, this one among them. |
| `GatewayClient.UnknownPriceInventsNothing` | kazenai/integrations/litellm_control.py:749-755 | The same without a price, field by field: charges nothing, reports no amount, and the body stays pending iff not acknowledged. |
| `GatewayClient.DurableStore.PutOpen` | kazenai/integrations/litellm_control.py:480-500 | The open file of the attempt is the reservation; no other file changes. |
| `GatewayClient.DurableStore.EnqueuePending` | kazenai/integrations/litellm_control.py:537-548 | The pending file of the key is the body; no other file changes. |
| `GatewayClient.DurableStore.QuarantinePending` | kazenai/integrations/litellm_control.py:581-590 | The file moves to quarantine if it is still there. |
| `GatewayClient.Client.SettleKnown` | kazenai/integrations/litellm_control.py:756-802 | Has exactly the effects of the protocol and says acknowledged iff the reply acknowledges; the body sent, and kept if not acknowledged, carries the attempt's own ids, key and amount, and the attempt is closed or stays open accordingly. |
| `GatewayClient.Client.SettleSuccess` | kazenai/integrations/litellm_control.py:741-802 | Settles at the rounded price, or as unknown outcome with no amount when there is none, each under the attempt's own ids. |
| `GatewayClient.Client.SettleCancelOrPending` | kazenai/integrations/litellm_control.py:804-848 | Has exactly the effects of the protocol and says acknowledged iff the reply delivers this kind of event; the body carries the attempt's own ids and no amount; the attempt is closed iff an undispatched one was acknowledged. |
| `GatewayClient.Client.FinalizeMatching` | kazenai/integrations/litellm_control.py:918-932 | Drops and forgets exactly the cached attempts with this reservation and call. |
| `GatewayClient.Client.FlushOne` | kazenai/integrations/litellm_control.py:895-935 | One queue entry: quarantined when too old or permanently refused, acknowledged when delivered, kept otherwise. |
| `GatewayClient.Client.FlushPending` | kazenai/integrations/litellm_control.py:885-936 | The loop is the fold of its entries up to the first unreachable answer; its tally is exact. |
| `RetryQueue.RetryQueue.EnqueueEvent` | kazenai/retry_queue.py:108-160 | Refuses other tenants, a full disk or a full table, dedupes against both tables, else appends one row with the event's stripped id, its org or the queue's, and exactly its text; the spool invariant holds. |
| `RetryQueue.RetryQueue.LeaseRows` | kazenai/retry_queue.py:162-205 | Leases the oldest due rows up to the limit, counts the attempt, dead-letters rows that do not parse. |
| `RetryQueue.RetryQueue.AckRows` | kazenai/retry_queue.py:207-217 | Removes exactly the named rows and counts them. |
| `RetryQueue.RetryQueue.NackRows` | kazenai/retry_queue.py:219-248 | Each named row is released or, at the attempt limit, dead-lettered. |
| `RetryQueue.RetryQueue.Drain` | kazenai/retry_queue.py:250-255 | A lease acknowledged at once. |
| `RetryQueue.EnqueueConserves` | kazenai/retry_queue.py:108-160 | Enqueueing keeps: every applied event in exactly one of pending, dead letter, acknowledged; ids unique; the table bounded. |
| `RetryQueue.EnqueueCarriesTheEvent` | kazenai/retry_queue.py:108-160 | In the event's own fields: applied iff it is of this tenant, unknown and there is room, and then one new row holds its id, org and text, due at once; otherwise no row changes. Only the counter of the outcome moves. |
| `RetryQueue.LeaseConserves` | kazenai/retry_queue.py:162-205 | So does leasing, row by row. |
| `RetryQueue.AckConserves` | kazenai/retry_queue.py:207-217 | So does acknowledging. |
| `RetryQueue.NackConserves` | kazenai/retry_queue.py:219-248 | So does giving back. |
| `RetryQueue.EventIdsAreUnique` | kazenai/retry_queue.py:129-157 | A non-empty event id occurs at most once in pending and dead letter together. |
| `RetryQueue.SelectedIsOldest` | kazenai/retry_queue.py:166-176 | A lease takes due rows only, oldest first, passing none over. |
| `SpoolRuns.LeaseRunsItsTime` | kazenai/retry_queue.py:162-205 | A row that is handed out was due, has one attempt more and the whole lease time ahead; every other row stays as it was. |
| `SpoolRuns.RunConserves` | kazenai/retry_queue.py:108-255 | All of this in every state of every run of enqueue, lease, ack and nack. |
| `SpoolRuns.AppliedAreTheEvents` | kazenai/retry_queue.py:108-160 | On every run the applied items are, one by one, the incoming events that were applied. |
| `SpoolRuns.EveryItemIsAnEvent` | kazenai/retry_queue.py:108-255 | On every run each item pending, dead, acknowledged or handed out by a lease has the id, org and text of the incoming event that made its row; with an org configured, no item of another tenant. |
| `SpoolRuns.NothingComesBack` | kazenai/retry_queue.py:108-255 | Applied, acknowledged and dead-lettered events stay so on every run. |
| `SpoolRuns.LeasesAreApart` | kazenai/retry_queue.py:162-205 | With a nondecreasing clock, two leases of a row with no nack between are at least `lease_ttl_ms` apart. |
| `SpoolRuns.ReleasedRowsHaveAttemptsLeft` | kazenai/retry_queue.py:219-248 | Rows with lease_until_ms = 0 have attempts below the limit on every run, if and only if max_attempts >= 1 or nothing can be enqueued. |
| `SpoolRuns.AttemptsCountLeases` | kazenai/retry_queue.py:178-248 | A row's attempts, pending or dead, are exactly the leases it had. |
| `SpoolRuns.WorkersAreToldTheCount` | kazenai/retry_queue.py:162-205 | The attempts a lease hands out are how often that event has been handed out, this time included. |
| `SpoolRuns.CountersTellTheRun` | kazenai/retry_queue.py:108-255 | On every run each counter is exactly the number of events it names: outcomes of enqueues, dead letters, ids acknowledged, rows given back. |
| `SpoolRuns.AcknowledgedRowsAreGone` | kazenai/retry_queue.py:207-217 | An acknowledgement takes exactly the rows it names out of the queue. |
| `SpoolRuns.FailingRoundProgress` | kazenai/retry_queue.py:162-248 | A failing round with something due uses up a lease still to come, keeps the spool invariant and every row's goal, and buries only rows that came to theirs. |
| `SpoolRuns.FailingDeliveryEndsInDeadLetters` | kazenai/retry_queue.py:162-248 | Under always-failing delivery, from any spool whose leases are over, after as many rounds as leases are still to come, the new dead letters are exactly the rows that were pending, with their items: a row that parses at `max_attempts` attempts, or one more than it had if it had that many; one that does not, as unreadable. Acknowledged and applied events are unchanged, the spool invariant holds. |
| `SpoolRuns.FailingRunsLeaseToTheLimit` | kazenai/retry_queue.py:162-248 | Carrying any run on by such rounds is a run, at whose end each of those rows that parses has been leased exactly `max_attempts` times if and only if it had attempts left at the start, and else once more than before. |
| `SpoolRuns.ReleasedRowsLeaseToTheLimit` | kazenai/retry_queue.py:162-248 | So with every pending row given back, a positive limit and no lease ending at instant zero, each is leased exactly `max_attempts` times. |
| `SpoolRuns.ExpiredLeaseDiesLate` | kazenai/retry_queue.py:162-205 | Concrete run: a lease at the limit runs out without a nack, the row is leased again and dies with two attempts where one is allowed. |
| `HttpSink.Sink.Emit` | kazenai/sinks.py:324-344 | A full queue spools the event; accepted iff spooled, duplicate, or neither mandatory nor fail-closed; all counters as booked, a spool refusal counting as dropped twice. |
| `HttpSink.LostEventCountsTwice` | kazenai/sinks.py:324-344 | Concrete input, for every queue size and spool: one event that meets a full queue and a full disk is counted as two dropped. |
| `HttpSink.Sink.SpoolBatch` | kazenai/sinks.py:488-519 | Every event is enqueued in order and booked; true iff all were kept. |
| `HttpSink.Sink.DrainRetryOnce` | kazenai/sinks.py:431-443 | Acknowledges a leased batch only after a successful post, else gives it back; delivered, batches and errors are counted so, and no other counter moves. |
| `HttpSink.BookCountsEachOnce` | kazenai/sinks.py:507-519 | Every event of a batch is counted once: as spooled iff applied, as duplicate iff one, else as dropped; and nothing else is counted. |
| `HttpSink.NackAcksNothing` | kazenai/sinks.py:431-443 | Giving back acknowledges nothing. |
| `LoopHistory.JaccardRange` | kazenai/loop_detector.py:37-45 | Similarity is symmetric, in [0, 1], and 1 iff the sets are equal. |
| `LoopHistory.JaccardIsTheSharedPart` | kazenai/loop_detector.py:37-45 | It is the shared tokens as a part of all, and 1 for two empty requests. |
| `LoopHistory.ScanIsBestOrNearOne` | kazenai/loop_detector.py:136-143 | The scan returns the best similarity, or stops at one of at least 0.999. |
| `LoopHistory.HistoryIsTheWindow` | kazenai/loop_detector.py:136-157 | After any calls the history holds the last inputs and fingerprints, and the counter is exactly the multiset of the window with no zero entry. |
| `LoopHistory.ToolScoreCountsOccurrences` | kazenai/loop_detector.py:146-160 | h2 is min(1, occurrences in the window / 3). |
| `LoopHistory.LoopsAreRepeats` | kazenai/loop_detector.py:124-166 | Below threshold 0.999 a call is a loop iff a remembered request is more similar than the threshold or its tools come up for the third time in the window; the combined score is the greater. |
| `LoopHistory.RepeatedRequestIsALoop` | kazenai/loop_detector.py:124-166 | Below threshold 0.999 a request whose tokens are still in the window is a loop. |
| `LoopHistory.EarlyExitAgrees` | kazenai/loop_detector.py:136-166 | The early exit answers `is_loop` as a full scan on all inputs if and only if the threshold is below 0.999 or at least 1. |
| `LoopHistory.PushToolCounts` | kazenai/loop_detector.py:151-157 | One step of the counter keeps it exact. |
| `LoopSubjects.ScoreDependsOnOwnCalls` | kazenai/loop_detector.py:109-163 | A customer's score depends on its own calls alone, afresh when `max_subjects` others called since. |
| `LoopSubjects.Isolation` | kazenai/loop_detector.py:109-163 | With fewer than max_subjects others between its calls, every score of a customer, named by its stripped subject, equals that of a detector fed only its calls. |
| `LoopSubjects.SharedHistoryIsOfTheUnnamed` | kazenai/loop_detector.py:109-122 | Calls that name no customer are scored against exactly the earlier calls that named none. |
| `LoopSubjects.KeyIsTheNamedCustomer` | kazenai/loop_detector.py:109-122 | A call counts for its stripped subject, if that is not empty and customers are told apart at all. |
| `LoopSubjects.BoundedAndKeepsTheCaller` | kazenai/loop_detector.py:109-122 | The map never exceeds max_subjects and never evicts the key just inserted. |
| `LoopSubjects.History.BestSimilarity` | kazenai/loop_detector.py:136-143 | The scan loop with its early exit. |
| `LoopSubjects.History.Record` | kazenai/loop_detector.py:136-163 | One call on a history: scores and new windows. |
| `LoopSubjects.LoopDetector.HistoryFor` | kazenai/loop_detector.py:109-122 | Finds or makes the customer's history, moves it to the end, evicts the oldest. |
| `LoopSubjects.LoopDetector.Score` | kazenai/loop_detector.py:124-163 | The whole call on the object equals the specification; no other customer's history changes. |
| `Money.MicrosIsMonotone` | kazenai/price_catalog.py:81-94 | More dollars are never fewer micro-dollars. |
| `Money.MicrosInvertsMicroUsdToDecimal` | kazenai/price_catalog.py:81-98 | `decimal_to_micro_usd` inverts `micro_usd_to_decimal`. |
| `Money.MicrosIsClose` | kazenai/price_catalog.py:81-94 | Undershoots by at most half a nano-dollar, overshoots by at most 0.9995 micro-dollars. |
| `Money.UndershootsExactly` | kazenai/price_catalog.py:81-94 | Charges too little exactly when nano rounding went down to whole micros. |
| `Money.WholeNanosAreCeiled` | kazenai/price_catalog.py:81-94 | An amount in whole nanos is charged its exact ceiling. |
| `Money.GatewayRoundingIsWithinOne` | kazenai/integrations/litellm_control.py:89-92 | In exact arithmetic the gateway's rounding is the catalog's or one more, with the exact condition for one more. |
| `Money.GatewayKeepsWholeMicros` | kazenai/integrations/litellm_control.py:89-96 | A price already in whole micros passes through unchanged. |
| `Rates.ScalingScalesTheCost` | kazenai/price_catalog.py:151-169 | Scaling the rates scales every cost by the multiplier. |
| `Rates.ThreeDecimalRatesAreCeiledExactly` | kazenai/price_catalog.py:677-730 | With rates of at most three decimals every cost is charged its exact ceiling. |
| `Rates.CostIsNonNegative` | kazenai/price_catalog.py:677-726 | Costs of published rates are never negative, whatever the counts. |
| `Reservation.ReservationDominatesSettlement` | kazenai/request_pricing.py:999-1010 | Every settlement within the projection is at most the reservation if and only if no rate the usage can name is dearer than the one reserved. |
| `Reservation.OrderedRatesCover` | kazenai/request_pricing.py:999-1010 | Rates ordered cached <= input <= 5m write <= 1h write with audio <= input meet that condition for every cache kind. |
| `Reservation.CoveredUsageIsReserved` | kazenai/request_pricing.py:1392-1397 | The bound for one usage, one row, one projection. |
| `Reservation.DearAudioBreaksTheBound` | kazenai/request_pricing.py:999-1010 | Concrete input: audio dearer than text settles above its reservation. |
| `Reservation.HoldCoversReserveAndCost` | kazenai/request_pricing.py:1363-1369 | With a multiplier of at least 1 an unknown tier holds at least the reservation and the base cost. |
| `UsageReports.ReserveIsTheBound` | kazenai/request_pricing.py:999-1010 | A reservation is, in micro-dollars, every input token at the rate of the cache write asked for, every output and image token at its own. |
| `UsageSplit.SplitConservesTokens` | kazenai/request_pricing.py:1263-1318 | The prompt parts sum to max(prompt, cached + writes), max(prompt, cached) + writes or prompt + cached + writes, by the form of the usage; none is negative. What each count is, `UsageReports` says by name. |
| `UsageSplit.NativeAnthropicTotal` | kazenai/request_pricing.py:1284-1300 | Native Anthropic usage sums to input + cache read + writes, without audio. |
| `UsageSplit.NoCachedCountIsDropped` | kazenai/request_pricing.py:1294-1300 | The branch that zeroes the cached count never has one to discard. |
| `UsageSplit.AudioStaysInsideThePrompt` | kazenai/request_pricing.py:1309-1310 | Audio is cut to what is left of the prompt and only then. |
| `UsageReports.ReadUnderItsName` | kazenai/request_pricing.py:1233-1308 | What is read under a name is the value a mapping or object has there; a mapping's null entry is there although it reads as nothing. |
| `UsageReports.OutputIsReported` | kazenai/request_pricing.py:1233-1265 | Output is `completion_tokens` where that is present, also at zero, else `output_tokens`. |
| `UsageReports.WritesAreReported` | kazenai/request_pricing.py:1266-1283 | Five-minute and one-hour writes are those named so, in that order, in `cache_creation` or, where that has none, in the prompt details; a lone `cache_creation_input_tokens` counts as five-minute writes. |
| `UsageReports.CachedIsReported` | kazenai/request_pricing.py:1266-1300 | Cached tokens are the first that is not zero of the entries that may name them. |
| `UsageReports.AudioIsReported` | kazenai/request_pricing.py:1266-1310 | Audio is the audio count of the details, as far as it fits in the prompt. |
| `UsageReports.ChatComponents` | kazenai/request_pricing.py:1263-1318 | A Chat Completions usage splits into prompt - cached - audio, cached, audio and completion. |
| `UsageReports.ResponsesComponents` | kazenai/request_pricing.py:1263-1318 | So does a Responses usage, under its own names. |
| `UsageReports.AnthropicComponents` | kazenai/request_pricing.py:1263-1318 | A native Anthropic usage: input, read, both writes and output side by side. |
| `UsageReports.NormalizedComponents` | kazenai/request_pricing.py:1263-1318 | A LiteLLM usage: reads and writes come out of the prompt. |
| `UsageReports.CostIsLinear` | kazenai/price_catalog.py:677-726 | The cost is the sum of each count at its own rate per million, and of the tool calls at theirs. |
| `UsageReports.ChatSettles` | kazenai/request_pricing.py:1331-1397 | So a Chat response on the agreed tier settles at (prompt - cached - audio), cached, completion and audio tokens, each at the row's own rate, in micro-dollars. |
| `UsageReports.ResponsesSettles` | kazenai/request_pricing.py:1331-1397 | The same for a Responses usage. |
| `UsageReports.AnthropicSettles` | kazenai/request_pricing.py:1331-1397 | An Anthropic response settles reads and both kinds of write at their own rates, on top of the input. |
| `UsageReports.NormalizedSettles` | kazenai/request_pricing.py:1331-1397 | A LiteLLM response settles them out of the prompt. |
| `Settling.CallPricing.SettleUsage` | kazenai/request_pricing.py:1331-1397 | Settles by tier, marks holds and evidence, and opens the breaker, all as the tier's pricing says. |
| `Settling.TierBreaker.Open` | kazenai/request_pricing.py:837-851 | The first exposure of a tier stays on record. |
| `Settling.SettlementAgainstReservation` | kazenai/request_pricing.py:1331-1397 | Agreed tier: within the reservation; unknown tier: at least the reservation; an error only for an unknown tier without a multiplier. |
| `Settling.AgreedTierIsPriced` | kazenai/request_pricing.py:1331-1397 | The agreed tier, or none reported, settles at the agreed rates. |
| `Settling.CertifiedTierIsPriced` | kazenai/request_pricing.py:1338-1361 | Another tier with a certified row, of the call's band or else the short one, settles at that row's rates times the call's multiplier. |
| `Settling.UnknownTierIsHeld` | kazenai/request_pricing.py:1362-1391 | A tier without a certified row is held at the operator's multiple of the agreed cost, and no less than the reserve. |
| `Settling.AgreedTierIsNotHeld` | kazenai/request_pricing.py:1331-1397 | The agreed tier marks nothing but components and source, and leaves the breaker as it is. |
| `Settling.OtherTierIsHeld` | kazenai/request_pricing.py:1338-1391 | Any other tier is held for reconciliation at what it settles at and closes admission for the tier once, at that amount iff it has no certified row; without row and multiple nothing is settled, held or closed. |
| `Settling.GatewayPriceIsSdkPrice` | kazenai/integrations/litellm_control.py:209-237 | The gateway recombines and re-splits the usage and settles exactly the SDK's micro-dollars. |
| `Settling.UnknownAudioIsACeiling` | kazenai/integrations/litellm_control.py:182-195 | An estimate without the audio share is at least that of any share. |
| `ImageTokens.FitShrinksInside` | kazenai/price_catalog.py:842-850 | Fitting never enlarges or loses an edge and ends inside. |
| `ImageTokens.FitKeepsTheShape` | kazenai/price_catalog.py:842-850 | An image inside the limit keeps its size; a larger one gets its longer edge to the limit exactly, the other in proportion to the nearest pixel. |
| `ImageTokens.TileSizeKeepsTheShape` | kazenai/price_catalog.py:853-863 | A fitted image whose shorter edge is over 768 gets that edge to 768 and the other in proportion, cut to whole pixels; any other stays. |
| `ImageTokens.OneToEightTiles` | kazenai/price_catalog.py:853-866 | Any positive dimensions make one to eight tiles. |
| `ImageTokens.TileModelPrices` | kazenai/price_catalog.py:922-934 | A tile model charges its base once and its tile price for each of the fewest 512-pixel squares that cover the scaled image; low pays the base alone, auto what high does but never less than the base. |
| `ImageTokens.ShrinkLoop` | kazenai/price_catalog.py:883-890 | The trimming loop terminates inside the budget. |
| `ImageTokens.TrimmingFitsTheBudget` | kazenai/price_catalog.py:883-890 | It stops at the first size that fits: the size before did not. |
| `ImageTokens.TokensWithinBudget` | kazenai/price_catalog.py:875-892 | Tokens are at most ceil(budget x multiplier), for any dimensions and any rounding of the square root. |
| `ImageTokens.PatchPriceIsOfTheBilledSize` | kazenai/price_catalog.py:875-892 | A patch detail costs the multiplier times the fewest 32-pixel squares over the size billed, rounded up: the fitted size if inside the budget, else that size shrunk, less only the pixels that had to go. |
| `ImageTokens.PatchModelPrices` | kazenai/price_catalog.py:935-949 | A detail costs what the model lists under its name; auto, none and an unlisted one the dearest listed. |
| `ImageTokens.AutoIsTheDearestDetail` | kazenai/price_catalog.py:922-949 | `auto` costs at least every detail, and for a patch model what one of them costs. |
| `RequestBytes.StrictIsJsonLength` | kazenai/request_pricing.py:739-771 | `_strict_json_bytes` is defined iff measurable and nested at most 64 deep, and is then the compact JSON length less its escapes plus a named slack. |
| `RequestBytes.StrictCoversUnescapedJson` | kazenai/request_pricing.py:739-771 | So it covers the JSON text iff the slack covers the escapes, in particular when no string needs one. |
| `RequestBytes.StrictCoversText` | kazenai/request_pricing.py:739-771 | It is at least the UTF-8 bytes of all keys and strings. |
| `RequestBytes.Utf8IsTheLengthOfTheEncoding` | kazenai/request_pricing.py:739-771 | Every character has an encoding by section 3 of RFC 3629, and each of its encodings has the number of bytes counted. |
| `RequestBytes.QuotesAreCountedShort` | kazenai/request_pricing.py:739-771 | Concrete inputs: n quotes are counted as n + 2 bytes and take 2n + 2. |
| `RequestBytes.SizeCoversText` | kazenai/monitor.py:319-342 | `_size` covers all text for nesting up to 32, if each object's `repr()` is at least as long as the text it stands for. |
| `RequestBytes.SizeOfScalars` | kazenai/monitor.py:319-342 | Numbers and truth values count as what they print as, null as nothing. |
| `RequestBytes.SizeWithinStrict` | kazenai/monitor.py:319-342 | It is at most the strict count for nesting up to 32, if each object's `repr()` is at most the strict count of its fields. |
| `RequestBytes.DeepTextIsCoveredUpTo32` | kazenai/monitor.py:319-342 | A string at a depth is covered whatever it says iff the depth is at most 32. |
| `RequestBytes.PassingChatTextFits` | kazenai/request_pricing.py:774-820 | A chat request let through has text bytes at most the threshold, tools and schemas counted four times. |
| `RequestBytes.ChatBoundAddsUp` | kazenai/request_pricing.py:774-808 | In the request's own fields: there is a bound iff the messages are a list, or none, of text without audio and all can be counted; it is the JSON bytes of all but the model, those of tools, functions and response format four times, plus 256, 16 a message and 64 a tool. |
| `RequestBytes.EstimateAddsUp` | kazenai/monitor.py:300-346 | The estimate starts at 2000 tokens; above that each field adds its name, its value and two, except the six that are no input. |
| `RequestBytes.PassingChatIsPricedShort` | kazenai/request_pricing.py:1099-1140 | At up to 32 levels and without a long `repr()`, such a request is also estimated, and priced, on the short band (iff the threshold is at least the 2000-token floor). |
| `RequestBytes.DeepFieldIsPricedLong` | kazenai/request_pricing.py:1093-1134 | Deeper it need not be: any request with room to spare under the threshold is still let through with one field nested 33 deep more, and then priced on the long band. |
| `RequestBytes.DeepChatIsPricedLong` | kazenai/request_pricing.py:1093-1134 | Concrete input: for every model and every threshold from 500 on, a request with a message and such a field. |
| `RequestBytes.BandsAgreeUpTo32Levels` | kazenai/request_pricing.py:1093-1134 | For every model and threshold of at least 2000: all requests let through, without a long `repr()` and nested at most h levels, are priced short iff h <= 32. |
| `PriceCatalog.PricedAt` | kazenai/price_catalog.py:237-253 | The method with its sort and loop. |
| `PriceCatalog.RowUsesTheEntryInForce` | kazenai/price_catalog.py:237-253 | A row uses the latest schedule entry not after t (the last among ties), its base rates before the first, and is uncertified from `valid_until` on. |
| `PriceCatalog.PricingAgainLater` | kazenai/price_catalog.py:237-253 | Pricing for now and then for later is pricing for later. |
| `LiveCatalog.Catalog.Accept` | kazenai/catalog_document.py:522-556 | Accepts or refuses as judged; a refusal, or an acceptance without install, changes nothing; the new state is that of the runs. |
| `LiveCatalog.Catalog.Active` | kazenai/price_catalog.py:1047-1051 | The live catalog while unexpired, else the bundled one. |
| `LiveCatalog.AcceptedInItsWindow` | kazenai/catalog_document.py:522-556 | Accepted exactly from an hour before the issue to just before the expiry, if the version is none older than the bundled, the caller's and the highest accepted; each refusal names the first that fails; what is accepted is the bundle offered. |
| `LiveCatalog.InstalledIsActiveAndAcceptedAgain` | kazenai/catalog_document.py:522-556 | What was installed is active until it expires, and offered again it is accepted and changes nothing. |
| `LiveCatalog.FlooredInductive` | kazenai/catalog_document.py:522-556 | One offer keeps: live version is the highest accepted, not below the bundled one, and the highest does not fall. |
| `LiveCatalog.HighestNeverFalls` | kazenai/catalog_document.py:522-556 | The highest accepted version is nondecreasing on every run. |
| `LiveCatalog.CatalogNeverRollsBack` | kazenai/price_catalog.py:1041-1051 | The active catalog is never expired and live, never below the bundled one, and older than one active before only by expiry. |
| `LiveCatalog.OldEnvelopesStayRefused` | kazenai/catalog_document.py:522-556 | An envelope older than one installed is refused for good and changes nothing. |
| `LiveCatalog.SpellingsShareAKey` | kazenai/catalog_document.py:95-101 | Two spellings of one version have one key: live and highest agree as versions, not as strings. |
| `LiveCatalog.VersionsAreReadAsWritten` | kazenai/catalog_document.py:68-101 | A version has a key iff it is written as year, month, day and an optional serial of one to six digits, and the key is those numbers. |
| `LiveCatalog.HighestIsTheFirstSpelling` | kazenai/catalog_document.py:552-554 | A newer version becomes the highest; another spelling of the highest leaves the one on record. |
| `Decimals.FormatReadsBack` | kazenai/price_catalog.py:130-149 | A decimal formatted with "f" reads back exactly, trailing zeros included. |
| `Decimals.PlainIsWhatIsRead` | kazenai/catalog_document.py:200-209 | Plain notation, digits with at most one point, is what the reference reader reads, as the digits scaled by those after the point. |
| `CatalogJson.StripLeavesStripped` | kazenai/catalog_document.py:218-221 | Stripped text stays as it is. |
| `CatalogJson.TextIsCanonical` | kazenai/catalog_document.py:218-221 | What `_text` accepts is stripped and non-empty, and lower-case where lowered. |
| `CatalogDocument.RatesRoundTrip` | kazenai/catalog_document.py:224-241 | Rates read back from their JSON, absent audio rates included; under which names they stand, `CatalogNames.ExportedRatesAreNamed` says. |
| `CatalogDocument.RowRoundTrip` | kazenai/catalog_document.py:255-292 | A canonical row reads back with thresholds, schedule and expiry. |
| `CatalogDocument.ExportedCatalogParsesBack` | kazenai/catalog_document.py:137-178 | Every canonical bundle exported and parsed comes back equal, marked live and dated as exported; the exported names are those of `CatalogNames.ExportSaysTheBundle`. |
| `CatalogDocument.ExportNeedsAVersion` | kazenai/catalog_document.py:137-148 | A bundle is exported iff its version is written as versions are. |
| `CatalogDocument.AcceptedIsCanonical` | kazenai/catalog_document.py:295-395 | Whatever `parse_payload` accepts is canonical and expires after its issue. |
| `CatalogDocument.AcceptedCatalogSurvivesReexport` | kazenai/catalog_document.py:137-395 | So an accepted catalog exported again describes exactly the same catalog. |
| `CatalogNames.ParsedRatesAreNamed` | kazenai/catalog_document.py:224-242 | If a rates node parses, each of the nine rates is the decimal under its own literal name, absent where that entry is absent or null. |
| `CatalogNames.DecimalsAreTaken` | kazenai/catalog_document.py:200-236 | A rate is taken iff its entry is a decimal, as text or integer, and not below the least; null, and only null, is no rate. |
| `CatalogNames.FalseIsNoSchedule` | kazenai/catalog_document.py:264-272 | A false value is an empty schedule; nothing else but a list is one. |
| `CatalogNames.AliasesAreExactNames` | kazenai/catalog_document.py:320-329 | An alias key is taken, stripped and lower-cased, iff it is not blank and holds none of the characters patterns use. |
| `CatalogNames.ParsedEntryIsNamed` | kazenai/catalog_document.py:264-272 | A schedule entry's instant and rates are those under its own names. |
| `CatalogNames.ParsedRowIsNamed` | kazenai/catalog_document.py:255-292 | Every field of a row is what stands under its own name. |
| `CatalogNames.AcceptedIsWhatIsNamed` | kazenai/catalog_document.py:295-395 | Whatever is accepted says, name by name, what the bundle holds: the constants, dates, rows, aliases and every entry of the three sections; and only the rows listed are rows. |
| `CatalogNames.ExportSaysTheBundle` | kazenai/catalog_document.py:137-178 | So does an exported document of the bundle it came from. |
| `CatalogNames.ExportedRatesAreNamed` | kazenai/catalog_document.py:79-116 | Each rate stands in the exported node as plain digits that read back as it, under its own literal name. |
| `CatalogNames.ExportedRatesAreListed` | kazenai/price_catalog.py:130-149 | The two audio rates are named only where there is one, the other seven always. |
| `CatalogPrices.PriceIsNamed` | kazenai/price_catalog.py:237-253 | A canonical row is priced, at any instant, at the non-negative rates its document has in force: those of its latest entry that has begun (the last among ties), the base rates before the first; certified until `valid_until`. |
| `CatalogPrices.NamesOnePrice` | kazenai/price_catalog.py:237-253 | A document has one price in force for a row at an instant. |
| `CatalogPrices.ActivePricesAreNamed` | kazenai/catalog_document.py:522-556 | Whatever documents are delivered in whatever order, the active catalog at any instant is one canonical document under its own version and dates, each row at the rates it has in force then, and no usage costs less than nothing. |
| `CatalogPrices.RowCostsWhatIsUnder` | kazenai/price_catalog.py:237-253 | A row parsed from an object costs what that object says under the nine names, in its entry in force. |
| `CatalogPrices.LivePricesAreReadByName` | kazenai/catalog_document.py:522-556 | Every price of a live catalog is read off one verified document delivered for installation: off the object naming provider, model, tier and band, at the rates under their own names in force then. |
| `CatalogPrices.DeliveredDocumentTakesEffect` | kazenai/catalog_document.py:522-556 | A verified, well-formed document that is no older than the bundled, the caller's and the highest version and inside its window takes effect when installed and stays in force until it expires; one not verified or not parsed changes nothing. |
| `CatalogPrices.ReexportKeepsPrices` | kazenai/catalog_document.py:137-395 | Delivering the re-export of an accepted document instead offers the same bundle and every row the same price at every instant. |
| `CrewOwnership.Registry.SetOwned` | kazenai/integrations/crewai.py:195-210 | The listener owns exactly the new ids; the registry stays the exact inverse with no empty entry. |
| `CrewOwnership.Registry.Release` | kazenai/integrations/crewai.py:163-172 | A collected listener leaves no trace; the registry stays exact. |
| `CrewOwnership.Registry.Add` | kazenai/integrations/crewai.py:178-189 | A new listener owns nothing. |
| `CrewOwnership.InverseIsUnique` | kazenai/integrations/crewai.py:43-45 | An exact registry is determined by what the listeners own. |
| `CrewOwnership.SharedMeansManyGraphs` | kazenai/integrations/crewai.py:247-254 | An object has more than one owner entry iff more than one listener owns it. |
| `CrewOwnership.KickoffEventsAreTheCrews` | kazenai/integrations/crewai.py:229-262 | Under a kickoff exactly the listeners of its crew own an event. |
| `CrewOwnership.EventOwner` | kazenai/integrations/crewai.py:221-262 | Outside kickoffs any event, with any source, agents, tasks and string ids, is a listener's iff its source is the crew, or a named object is in this graph and no other, or is not in it but names the crew, or a string id is one of the listener's keys. |
| `CrewOwnership.ObjectEventHasOneCrew` | kazenai/integrations/crewai.py:221-262 | Two listeners own one event about a single object only under one crew, unless the object names the crew of a graph it is missing from. |
| `CrewOwnership.SharedKeyHasTwoOwners` | kazenai/integrations/crewai.py:256-260 | Concrete input: crews that share no object but have an agent key in common both own an event by that key. |
| `CrewOwnership.SourceEventOwner` | kazenai/integrations/crewai.py:221-262 | Outside kickoffs an event naming only its source is a listener's iff the source is its crew or in its graph and no other. |
| `CrewOwnership.SourceEventHasOneCrew` | kazenai/integrations/crewai.py:221-262 | So two listeners that own one such event are bound to one crew. |
| `CrewScopes.StacksHoldTheRunningScopes` | kazenai/integrations/crewai.py:720-746 | However kickoffs nest and overlap, each crew's stack holds exactly its running scopes, each once. |
| `CrewScopes.UnbindRemovesItsOwn` | kazenai/integrations/crewai.py:727-746 | An unbind takes off exactly its own scope, wherever it stands. |
| `CrewScopes.NothingIsLeft` | kazenai/integrations/crewai.py:727-746 | Once nothing runs, no stack is left. |
| `CrewScopes.EventsStayWithTheirCrew` | kazenai/integrations/crewai.py:264-275 | An event is put down to a scope of its own crew: inside a kickoff of the crew the innermost, in a task spawned there the spawning one, elsewhere the one begun last of those running; to none only if none runs. |
| `CrewScopes.SpawnedTasksInherit` | kazenai/integrations/crewai.py:58-63 | The events of a spawned task go where those of the context that spawned it go. |
| `CrewScopes.ActiveOps.Bind` | kazenai/integrations/crewai.py:720-725 | Pushes the new scope on its crew's stack. |
| `CrewScopes.ActiveOps.Unbind` | kazenai/integrations/crewai.py:727-746 | Removes the context's scope, else pops; an empty stack goes. |
| `LicensePolicy.ListedKeyGetsMildestListing` | scripts/license_policy.py:81-91 | A listed key gets the mildest category listing it. |
| `LicensePolicy.UnlistedKeyIsPlacedByPrefix` | scripts/license_policy.py:81-91 | An unlisted key is placed by its family prefix. |
| `LicensePolicy.ExceptionOnlySoftensGpl` | scripts/license_policy.py:125-130 | A WITH exception changes nothing but softens a strong-copyleft key. |
| `LicensePolicy.ReportedUnder` | scripts/license_policy.py:120-143 | A licence is reported under its key, one with an exception under both, base first. |
| `LicensePolicy.ChoiceTheorem` | scripts/license_policy.py:120-143 | The result has severity at most s iff some choice of one branch at every OR makes every selected licence at most s. |
| `LicensePolicy.ReportedKeysAreAWitness` | scripts/license_policy.py:120-143 | The reported keys are those of such a choice, whose worst severity is the result. |
| `LicensePolicy.GateAnswers` | scripts/license_policy.py:310-321 | In the licences a licensee can choose: allowed iff permissive ones do; not denied iff those and weak copyleft do, or, for a hosted distribution package, if adding LGPL and GPL does or no choice is free of unknown licences. |
| `LicensePolicy.NoChoiceBeatsWalk` | scripts/license_policy.py:120-143 | No choice is milder than the result. |
| `LicensePolicy.DecidesBestWithoutUnknown` | scripts/license_policy.py:310-321 | Away from hosted distribution packages, or without unknown licences, deciding the result is the best decision over all choices. |
| `LicensePolicy.DecidesBestExactly` | scripts/license_policy.py:310-321 | For every expression: the decision is the best over all choices iff the package is not a hosted distribution package, or no licence is unknown, or the result is not agpl, source-available or proprietary. |
| `LicensePolicy.DecidesBestOnEveryExpression` | scripts/license_policy.py:310-321 | It is so on everything the parser can build iff the context is not a hosted distribution package. |
| `LicensePolicy.HostedCounterexample` | scripts/license_policy.py:310-321 | For every policy, an OR of two licence keys for which it is not. |

## Left out

- HTTP, SQLite, files and threads: tables and files are sequences and maps, network results are inputs, file writes succeed.
- Streaming calls, the shared reserve client and its settle queue: only the answers of their calls enter the model.
- `Enforcement.apply_server_decision`, which changes the cap under live holds; fail-open handling of the wrappers' own errors; debug output, alerts and telemetry.
- Binary floating point: amounts are exact reals, so float noise in budgets, similarity and the gateway's rounding is not modelled; neither is the 28-digit context of `Decimal`.
- Hashing, HMAC, signatures and JSON text parsing: keys and file names are injective, an envelope enters as what verification and parsing made of it.
- Unicode: stripping and lower-casing are ASCII only, and strings hold no lone surrogates.
- Tool overhead tables, vendor rates and budgets as literals: rates, thresholds, budgets and sizing tables are parameters; model-name and alias resolution enters as the row found.
- The breaker's admission check and `provider_for_model`: the breaker is modelled only as what settlements put into it.
- `_signal_pending`, `mark_start` and `reserve_attempt` of the gateway beyond what they put into cache and files.
- The JSONL fallback of the sink, its worker threads, its queue draining and `close`.
- SPDX parsing and normalisation of licence strings, version matching and notices: the evaluator starts at the expression tree.
- CrewAI bus registration, listener callbacks and binding of clients; the object graph enters as the set of ids it yields.
- SharedBudget.RateSafety: assumes a clock nondecreasing in lock order and no `record_call` without an admission, as the limit is on admitted calls; that a limit below one records nothing is stated for windows of at least zero.
- SharedBudget.BudgetSafety: assumes each hold is discharged at most once, which `GuardedRuns.GuardedCallsKeepTheCap` proves of the guarded calls.
- GatewaySettlement.KeptByEffect: file names of attempts and keys are taken as injective; the sanitising and truncation of attempt ids is not modelled.
- GatewayClient.Client.SettleKnown: the reservation object is a value; that caller and cache share it is the effect `Track`.
- SpoolRuns.FailingDeliveryEndsInDeadLetters: rounds come after the leases are over, at instants from zero on; an earlier round takes only what is due.
- RetryQueue.RetryQueue.NackRows: the dead-letter reason given by the caller is not carried.
- LoopHistory.EarlyExitAgrees: tokens are abstract; splitting text into tokens and joining tool names into a fingerprint are not modelled.
- LoopSubjects.LoopDetector.Score: with `tool_history` 0 a call naming tools ends in the IndexError the code raises, as an error result.
- ImageTokens.TokensWithinBudget: the square root is any real number; that trimming starts from a good approximation is not stated.
- UsageSplit.SplitConservesTokens: non-negative counts only; a count is what `int()` makes of it, infinities are not modelled.
- RequestBytes.SizeCoversText: nesting up to 32 and objects whose `repr()` covers their text, as a `repr()` is counted by its length; beyond 32 levels the property is false (RequestBytes.DeepTextIsCoveredUpTo32).
- RequestBytes.PassingChatIsPricedShort: nesting up to 32 and objects whose `repr()` is within the strict count of their fields; the tool overhead added for Anthropic is not covered.
- GuardedCalls.ReservationEnds: a reply of true is taken as an acknowledgement by the service, although a call with a legacy numeric reservation, or one under fail-open, can be told true with nothing settled; Pending says that evidence is kept, not which.
- CatalogPrices.ActivePricesAreNamed: the snapshot the package ships is taken as canonical.
- RequestBytes.StrictIsJsonLength: numbers are their printed text; a `response_format` given as a class is taken as already converted.
- LiveCatalog.Catalog.Accept: instants are whole seconds, and the versions the caller passes in use ASCII digits.
- CatalogDocument.ExportedCatalogParsesBack: decimal and instant readers are inputs, the former reading plain notation as written; a section given as a list of pairs, which `dict()` would accept, is refused; the digest is not carried.
- CrewOwnership.SourceEventOwner: events that name only their source; any other event is in CrewOwnership.EventOwner.
- CrewOwnership.ObjectEventHasOneCrew: assumes that an object naming the crew of one of the listeners is in that crew's graph.
