# Verification model

Dafny 4.11 models of the parts of this repository that keep long-lived state correct under retries, races
and reordering, with proofs of what they guarantee over whole runs. Check everything with
`dafny verify dfyconfig.toml`.

Conventions. Time is an unbounded integer number of milliseconds. JSON is a datatype compared by structure.
Providers, timezone tables, the language model and the HMAC are arbitrary functions or arbitrary inputs.
Every `await` is a place where another instance may step in or the process may stop. A save to the database
replaces the objects of the store (`SaveProtocol.OnlyNewObjectsAreKept`), so code that goes on with an object
it took before a save changes something that is no longer stored; `Dialer`, `Cadence` and `ReplyJob` model
that, the local file does not do it. Code that changes
state step by step is a method of a class, or a method with loops, proved equal to a function of the old
state; the statements about whole runs are lemmas about those functions.

| file | what it models |
|---|---|
| `Common.dfy` | options, maps, the stable sort of `Array.prototype.sort` |
| `Transcript.dfy`, `SnapshotMerge.dfy`, `MergeAlgebra.dfy` | the three-way merge of serialized snapshots and its algebra |
| `FieldHistory.dfy` | what becomes of one field or counter over a history of commits |
| `SaveProtocol.dfy`, `StoreInstance.dfy` | many instances committing to one revisioned row by compare-and-swap |
| `Outbox.dfy` | the durable outbox: enqueue, leased claims, settlement, the batch processor |
| `Delivery.dfy`, `Cadence.dfy` | lead states, delivery lifecycle, the cadence tick and delivery callbacks |
| `PolicyGate.dfy`, `OptOut.dfy` | the contact gate, STOP and START, the choice of thread for a reply |
| `Dialer.dfy`, `DialerCalls.dfy`, `WorkerPool.dfy` | the power dialer, when its calls are over, and the bounded worker pool |
| `Totp.dfy` | base32 and one-time codes |
| `DedupeCache.dfy`, `RateLimit.dfy` | the bounded duplicate guard and the fixed-window limiter |
| `Callback.dfy`, `Thread.dfy`, `ReplyJob.dfy` | callback slots, the derived conversation thread and brief, the inbound-reply job |

## Where the code falls short of its comments

The models follow the code. Each shortfall is a lemma about the inputs that fail, next to the exact condition
under which the property does hold.

- `MergeAlgebra.RemergeExactly`: re-merging a conversation is not idempotent for a writer that edits the
  transcript and drops the artifact mark.
- `SaveProtocol.OwnDiffExactly`: the baseline is a module variable, so a reload between the beginning of a
  save and its read makes that save write its stale copy over another instance's edit
  (`ReloadBeforeReadReverts`, and a whole run in `ReloadDuringSaveLosesAnEdit`). A reload after the read does
  no harm to that save and all the more to the next one (`ReloadAfterReadIsUndone`, `FallsOutOfStepExactly`).
- `OutboxJob.FinalChangesExactly`, `FinalStaysExactly`: `settleOutbox` does not ask who holds the lease, so a
  late settlement reopens a final job or turns COMPLETED into DEAD and back (a possible run in
  `LateSettlementRevivesTheDead`).
- `OptOut.LeavesTheListExactly`: with the database neither START nor an administrator takes a number off the
  suppression list, since the merge keeps durable records (`DeletedEntryReturns`, `ListedForever`).
- `Totp.AcceptedExactly`: verification throws while the clock shows less than 30 seconds.
- `DedupeCache.CacheIsHistoryExactly`: with more than 5000 keys live the cache forgets some. The comment that
  the first keys of the map are the oldest is not true of a key that is set again, which keeps its place
  (`NewestCanBeDropped`).
- `Callback.EveryBookingRun`: booking does not refresh, so two instances can give away one slot
  (`BothBookIt`). Saving is harmless from the newest row (`UpToDateIsClear`).
- `Thread.BriefBoundExactly`: `slice(-0)` returns everything, so the brief is bounded from two messages on.
- `ReplyJob.OneReplyExactly`: a save that throws leaves the reply in the instance alone, where the next
  execution takes it up and sends it unsaved, so two different replies can go out (`TwoRepliesGoOut`).
  `SameReplyExactly`: a stored reply that is empty or reads like the placeholder is generated again.
- `ReplyJob.ResultIsStoredExactly`: the save before the carrier call detaches the lead, so an ordinary reply is
  never counted in attemptsTotal (`FirstSendIsNeverCounted`), and an attempt that existed before, so its
  result is lost (`WithheldThenSentStaysQueued`). Where a written reply is taken up the success is counted, but
  as a plain value that overwrites what others added during the carrier call.
- `CadenceLead.AlwaysCountedExactly`: placing a conversational call saves, after which the tick counts on leads
  that are no longer stored (`CallIsNotCounted`, `CadenceEngine.TickCountsExactly`).
- `FieldHistory.CommitCountsExactly`: two instances that both raise a counter lose one of the increments.
- `OptOut.SuppressedStaysExactly`: a stale copy can bring back an earlier state of a suppressed lead; the number
  stays listed and denied (`EveryLaterLoadDenies`).
- `SaveProtocol.LoadCanGoBack`: reloading does not only pull forward.
- `Dialer.EveryRunFromNothing`: sessions handled after a dial of the same tick are no longer the stored ones, so
  an item can be left CALLING that no session points at, which stops the automated dialer for good
  (`OrphanIsForever`, a whole tick in `DialerCalls.SecondListIsOrphaned`).
- `DialerCalls.CallIsSettledExactly`: a tick settles a call only in the oldest active automated list, so a list
  resumed while a younger one has a call on the line stops automated dialing until somebody acts on one of
  them (`OlderListStopsTheDialer`).
- `Dialer.EveryDialFromNothing`: a conversational call saves before its item is marked, so the item is dialed
  again (`ConversationIsRedialed`).
- `Dialer.DoneIsLeftExactly`: PAUSE and CANCEL apply to a finished list (`CompletedIsNotFinal`).
- `RateLimit.LessThanTwiceTheLimit`: a burst across two windows can reach 2*limit - 1, and no more.

## Model

| member | source | states |
|---|---|---|
| `Transcript.MergeTranscriptTurns` | src/domain/persistence.ts:94-121 | The loop over this writer's turns yields the specified merge: newest turns, then each unseen new turn, sorted stably and renumbered. |
| `Transcript.SameTurnExactly` | src/domain/persistence.ts:98-103 | Two turns are the same turn if and only if they carry the same provider name, or neither carries one and role, text and time read the same. |
| `Transcript.MergeKeepsTurns` | src/domain/persistence.ts:104-120 | As multisets: every newest turn survives, each turn this writer added enters exactly once by identity, and nothing of a turn but its number changes. |
| `Transcript.MergeIsOrdered` | src/domain/persistence.ts:114-120 | The merged transcript is in time order and its records are numbered 1..n. |
| `Transcript.EarlierComesFirst` | src/domain/persistence.ts:114-119 | Of two turns of the merge the earlier stands first, by the time read from the turn (unreadable times and non-records count as zero). |
| `Transcript.MergeTurnsIdempotent` | src/domain/persistence.ts:94-121 | Merging the same transcript again onto the result changes nothing. |
| `RecordMerge.MergeKey` | src/domain/persistence.ts:132-154 | One pass of the field loop sets exactly the specified field and leaves the others. |
| `RecordMerge.ApplyChanges` | src/domain/persistence.ts:132-154 | The field loop, over the fields in any order, reaches the specified record. |
| `RecordMerge.MergeRecord` | src/domain/persistence.ts:127-159 | Both loops (changed fields, removed fields) and the non-record cases compute the field-by-field three-way merge. |
| `SnapshotMerge.MergeKeyed` | src/domain/persistence.ts:173-186 | The entry loop of a keyed collection computes, for every id, the merge of that one record. |
| `SnapshotMerge.DeleteMissing` | src/domain/persistence.ts:183-185 | Ids of the baseline that the writer no longer has go, and only those. |
| `SnapshotMerge.MergeSerializedSnapshots` | src/domain/persistence.ts:163-212 | The whole merge: every collection record by record, every other value by the changed-here rule. |
| `MergeAlgebra.SnapshotAt` | src/domain/persistence.ts:163-212 | What the merge leaves in each record, collection and value, one place at a time. |
| `MergeAlgebra.RecordIsMerged` | src/domain/persistence.ts:172-186 | For every record of every collection, over the three snapshots alone: a record the writer lacks stays (in the four ephemeral collections it goes if the writer had loaded it), a new one lands whole, an unedited one is the newest, and an edited one lands whole where there is nothing to merge it with. |
| `MergeAlgebra.FieldIsMerged` | src/domain/persistence.ts:132-156 | For every collection, conversations included, and every field but the transcript of a call and its source mark: a field the writer set holds its value in the merged snapshot, one it removed is gone unless the newest record had changed it, and any other is the newest. |
| `MergeAlgebra.SetFieldSurvives` | src/domain/persistence.ts:132-154 | So a value one writer set is still there after the next commit of any writer that did not touch that field itself, however stale its copy. |
| `MergeAlgebra.MarkIsMerged` | src/domain/persistence.ts:142-154 | The source mark of a call is merged like any other field, except that no other mark replaces that of a complete artifact. |
| `MergeAlgebra.ArtifactArrives` | src/domain/persistence.ts:134-154 | A writer that turns a call into a complete artifact leaves it one, with its own transcript if it brought another than it had loaded. |
| `MergeAlgebra.LiveWriterYields` | src/domain/persistence.ts:134-154 | A live writer leaves the transcript of a complete artifact alone, and its mark lands on a call that is none. |
| `MergeAlgebra.RemergeExactly` | src/domain/persistence.ts:127-159 | Committing the same diff twice is harmless for every newest record, if and only if the writer does not both edit a transcript and drop the mark of a complete artifact. |
| `MergeAlgebra.RemergeUnsafe` | src/domain/persistence.ts:134-156 | The failing family in the other direction: for every writer that does both there is a newest record which a second commit changes. |
| `MergeAlgebra.Remerge` | src/domain/persistence.ts:163-212 | Under that condition re-merging a whole snapshot is the identity. |
| `MergeAlgebra.FieldsCommute` | src/domain/persistence.ts:132-156 | Two writers of one record that touch different fields reach the same record in either order. |
| `MergeAlgebra.CommitOrderIrrelevant` | src/domain/persistence.ts:163-212 | Two writers of one baseline that touch different (record, field) cells or fresh ids reach the same row in either commit order. |
| `MergeAlgebra.BothEditsPresent` | src/domain/persistence.ts:163-212 | ... and that row carries both edits of every record: each field a writer set holds its value, and each field it removed is gone unless the newest record had changed it. |
| `MergeAlgebra.BothValuesPresent` | src/domain/persistence.ts:163-212 | ... and both edits of the plain values. |
| `MergeAlgebra.OnlyEditsLand` | src/domain/persistence.ts:127-186 | In every collection, missing records included: a record the merge changes is one this writer edited against its baseline, and where it is not simply the writer's copy each field that changes is one the writer touched and gets its value (a transcript excepted). |
| `MergeAlgebra.OverwritesExactly` | src/domain/persistence.ts:127-159 | A field of the newest record, of any collection (a call's transcript and source mark excepted), keeps its value if and only if the writer neither sets it to another, nor removes it while the newest record has not changed it, nor writes the record whole with another. |
| `MergeAlgebra.CounterAddsUpExactly` | src/domain/persistence.ts:132-154 | What a writer adds to a counter arrives on top of what others added if and only if it added nothing or the others had not moved it. |
| `MergeAlgebra.UneditedCopy` | src/domain/persistence.ts:177-182 | An unedited copy, however stale, merges to the newest row. |
| `MergeAlgebra.UnmovedRow` | src/domain/persistence.ts:172-210 | Onto a row nobody moved the merge is the writer's copy, except that missing durable records stay (conversations excluded). |
| `MergeAlgebra.DurableStays` | src/domain/persistence.ts:183-185 | No merge removes a record outside the four ephemeral collections. |
| `MergeAlgebra.ArtifactNotDemoted` | src/domain/persistence.ts:142-156 | A merge leaves a complete provider artifact an artifact if and only if its writer keeps the mark. |
| `MergeAlgebra.ArtifactTranscriptStays` | src/domain/persistence.ts:134-141 | Only a writer that itself holds an artifact replaces the transcript of one. |
| `MergeAlgebra.LiveTranscriptsMerge` | src/domain/persistence.ts:94-141 | Between live writers the stored transcript keeps all its turns and gains each turn the writer added once. |
| `SaveProtocol.EveryRunIsLinear` | src/domain/persistence.ts:376-449 | Over every interleaving of any number of instances loading (the answer to the SELECT and its installation are two steps), editing, saving with either driver (compare-and-swap or row lock), losing races and crashing: revision r+1 is one writer's diff merged onto the row at revision r; every baseline is a row that was stored; the baseline of a commit is the one its save began with or what the last reload before its read brought in; and whoever read under the lock finds the row as it read it. |
| `SaveProtocol.VersionCheckIsSound` | src/domain/persistence.ts:512-524 | Over every run an instance that knows the row's revision has the row as its baseline, however its loads and saves overtook each other, so comparing revisions is enough. |
| `SaveProtocol.ReadExactly` | src/domain/persistence.ts:396-400 | What a save reads: the row as it is, and at once its diff on that row, or its copy if there is no row; the row is locked if and only if it is there and a lock is asked for. |
| `SaveProtocol.WriteExactly` | src/domain/persistence.ts:400-449 | In every reachable state a save whose row is still the one it read goes through, and the row takes the merge under the next revision. |
| `SaveProtocol.RefusedExactly` | src/domain/persistence.ts:396-449 | And one whose row has moved stores and changes nothing; it tries again, up to four times in all, or gives up at once if it had asked for a lock. |
| `SaveProtocol.NothingDurableIsLost` | src/domain/persistence.ts:183-186 | Once any commit stored a durable record, the row has it ever after. |
| `SaveProtocol.OnlyNewObjectsAreKept` | src/domain/persistence.ts:172-219 | After a commit the writer's copy holds another object under every id: it keeps the object of a record if and only if the record is new to it. |
| `SaveProtocol.EveryChangeIsAnEdit` | src/domain/persistence.ts:388-413 | Every change a commit makes to a record is an edit of its copy against the baseline merged with, a value that was once stored. |
| `SaveProtocol.ArtifactSurvives` | src/domain/persistence.ts:134-151 | Over any stretch of commits whose writers keep the mark, an artifact stays one and its transcript is its own or a later artifact writer's. |
| `SaveProtocol.SaveOutcome` | src/domain/persistence.ts:396-449 | With either driver: a save that returns leaves baseline and row equal (and the copy, unless a reload replaced it); one that throws leaves baseline and copy unchanged, so its diff is still pending, and stores nothing unless only the acknowledgement was lost. |
| `SaveProtocol.LockedSaveIsLetThrough` | src/domain/persistence.ts:417-445 | Over every run, a save that read the row under its lock stores its merge, whatever the others do. |
| `SaveProtocol.LostAcknowledgementIsHarmless` | src/domain/persistence.ts:396-416 | After a commit whose acknowledgement was lost, retrying stores the same value again. |
| `SaveProtocol.OwnDiffExactly` | src/domain/persistence.ts:376-413 | Whatever all instances do between the beginning of a save and the read of the attempt that stores it: the commit merges with the baseline its copy was edited from if and only if the last reload in between brought in that very value, or there was none and the instance was in step when the save began. |
| `SaveProtocol.FallsOutOfStepExactly` | src/domain/persistence.ts:410-413 | A baseline parts from what the copy was edited from if and only if a save is acknowledged that a reload overtook, and it stored something else than the reload brought in. |
| `SaveProtocol.ReloadBeforeReadReverts` | src/domain/persistence.ts:376-413 | For every save in flight that has not read yet: after a reload it puts its own older copy of any record back over the row. |
| `SaveProtocol.ReloadAfterReadIsUndone` | src/domain/persistence.ts:376-413 | For every save that has read: after a reload it still stores its merge, but the instance's next save puts the reloaded record back over it. |
| `SaveProtocol.LoadCanGoBack` | src/domain/persistence.ts:376-386 | For every world: a load that a save of its own instance overtakes takes copy and known revision back to before that save. |
| `SaveProtocol.DiffsAreOwnEdits` | src/domain/persistence.ts:376-413 | In a run without a reload during a save of the same instance every commit merges with the baseline its copy was edited from. |
| `SaveProtocol.EveryChangeIsOwn` | src/domain/persistence.ts:388-413 | In a run without a reload during a save of the same instance every change a commit makes to a record is an edit of its writer against what its copy was edited from, so nobody writes another's old values back. |
| `SaveProtocol.ReloadDuringSaveLosesAnEdit` | src/domain/persistence.ts:376-413 | A whole run from the start in which an instance that edited nothing overwrites the committed edit of another. |
| `FieldHistory.FieldStaysExactly` | src/domain/persistence.ts:127-159 | Over any stretch of a linear history a field of a durable record, of any collection (a call's transcript and source mark excepted), keeps its value throughout if and only if no commit of the stretch overwrites it. |
| `FieldHistory.CommitCountsExactly` | src/domain/persistence.ts:132-154 | A commit takes nothing of a counter back if and only if its writer added nothing to it or nobody had moved it since the writer's baseline. |
| `FieldHistory.CounterOverCommits` | src/domain/persistence.ts:132-154 | Over any stretch a counter ends as what all writers added to it, less what each writer that added to it took back of what others had added meanwhile. |
| `StoreInstance.StoredRow.CompareAndSwap` | src/domain/persistence.ts:400-409 | Stores exactly when the row still has the revision that was read (or is still absent). |
| `StoreInstance.StoreInstance.Save` | src/domain/persistence.ts:388-416 | The four-attempt loop: the diff lands at the first attempt nobody disturbs, merged onto what the others had stored by then; four disturbed attempts throw and leave the instance as it was. |
| `StoreInstance.StoreInstance.Load` | src/domain/persistence.ts:376-386 | A load replaces baseline, copy and known version together. |
| `StoreInstance.StoreInstance.ReloadIfStale` | src/domain/persistence.ts:512-524 | Asks at most once a second unless forced, reloads exactly when the answer differs, and an unreachable store never takes the copy away. |
| `OutboxTable.Outbox.Enqueue` | src/domain/durableQueue.ts:146-166 | One row per idempotency key; a duplicate leaves the table untouched. |
| `OutboxTable.Outbox.ClaimBatch` | src/domain/durableQueue.ts:192-226 | Exactly the picked rows become Processing with one more attempt; all others are untouched. |
| `OutboxTable.PickedIs` | src/domain/durableQueue.ts:209-219 | A claim takes rows that are waiting and due or were taken more than ten minutes ago, and no others, as many as the limit allows, the longest due first, none twice. |
| `OutboxTable.Outbox.SettleJob` | src/domain/durableQueue.ts:228-245 | Rewrites the named row only, whoever holds its lease. |
| `OutboxTable.Outbox.ProcessBatch` | src/domain/outboxProcessing.ts:285-306 | Every claimed job is settled once, at its own instant: stored COMPLETED if and only if its work went well, DEAD if and only if it failed and was beyond repair or on its fifth claim, RETRY otherwise; every other row is untouched; the report counts the picked jobs by their outcomes, and claimed = completed + retried + dead = as many due jobs as the limit allows. |
| `OutboxTable.ProcessedExactly` | src/domain/outboxProcessing.ts:291-303 | The same for one row of a batch, from its outcome alone, with the attempt count it ends with. |
| `OutboxJob.DueExactly` | src/domain/durableQueue.ts:209-226 | A job is claimed if and only if it waits and is due, or was taken more than ten minutes ago. |
| `OutboxJob.SettledExactly` | src/domain/outboxProcessing.ts:291-303 | The n-th claim ends COMPLETED, DEAD or RETRY by its outcome and n alone; a retry comes when the policy says, or 2, 4, 8 or 16 minutes later. |
| `OutboxJob.EveryJobEndsAsItWent` | src/domain/outboxProcessing.ts:285-306 | Over every run from enqueue with settlements in time a job ends COMPLETED if and only if some worker did it well, and DEAD if and only if one failed beyond repair or on the fifth claim. |
| `OutboxJob.ClaimsAreSpaced` | src/domain/durableQueue.ts:209-219 | Over every run by any number of workers: attemptCount is the number of claims, and two claims with no settlement between them are more than ten minutes apart. |
| `OutboxJob.FinalStays` | src/domain/durableQueue.ts:228-245 | If settlements come within the lease of their own claim, COMPLETED and DEAD are final. |
| `OutboxJob.AtMostFiveClaims` | src/domain/outboxProcessing.ts:297-302 | If every claim is settled within its lease, a job is claimed at most five times. |
| `OutboxJob.JobLifetime` | src/domain/outboxProcessing.ts:285-306 | For every run from enqueue: attemptCount counts the claims and unsettled claims are more than a lease apart; with settlements in time a job that is final at any point stays as it was then, and with none abandoned it is claimed five times at most. |
| `OutboxJob.FinalChangesExactly` | src/domain/durableQueue.ts:228-245 | With no assumption on leases: the status of a final job is kept if and only if the event is a claim or a settlement with that very verdict; it is reopened if and only if a claim before the fifth is settled as failed without being fatal. |
| `OutboxJob.FinalStaysExactly` | src/domain/durableQueue.ts:228-245 | Over every run a final job stays as it is all along if and only if every settlement repeats its verdict. |
| `OutboxJob.LateSettlementRevivesTheDead` | src/domain/durableQueue.ts:228-245 | A run in which a worker whose lease expired revives a DEAD job. |
| `LeadStates.EnteredExactly` | src/core/stateMachine.ts:34-56 | Each state but SUPPRESSED and ASSIGNED is entered from one state by one event, and NEW never again. |
| `LeadStates.EnteredAnywhereExactly` | src/core/stateMachine.ts:31-52 | SUPPRESSED is entered from every open state by exactly the four global events, ASSIGNED by a takeover, or by assignment when the package is ready. |
| `LeadStates.NobodySkipsTheOfficer` | src/core/stateMachine.ts:34-56 | Over every sequence of events a lead that ends won or lost was assigned and then acknowledged by its officer on the way. |
| `DeliveryStatus.AppliesExactly` | src/core/deliveryStatus.ts:328-332 | An attempt takes a status on if and only if it is QUEUED and the status is not, or it is SENT and the status is neither QUEUED nor SENT. |
| `DeliveryStatus.FoldIs` | src/core/deliveryStatus.ts:297-332 | Any sequence of provider statuses ends in the first terminal outcome if there is one, otherwise in the highest ranked one. |
| `DeliveryStatus.Replay` | src/core/deliveryStatus.ts:328-332 | A status seen before is a no-op. |
| `DeliveryStatus.OrderIrrelevantExactly` | src/core/deliveryStatus.ts:297-332 | Every order of the same statuses gives the same outcome if and only if the attempt was already settled or they contain at most one distinct terminal outcome. |
| `CadenceLead.PlanIsRespected` | src/domain/cadenceEngine.ts:142-184 | Over every run: the k-th automated delivery is no earlier than createdAt plus the k-th sorted offset, and NURTURE comes only after the whole plan was delivered. |
| `CadenceLead.OneStepPerTick` | src/domain/cadenceEngine.ts:157-287 | A tick advances the plan by one step exactly when it delivered; held, blocked and waiting ticks change nothing. |
| `CadenceLead.TickSendsExactly` | src/domain/cadenceEngine.ts:157-283 | From the stored lead and what the tick meets: if the lead is in the cadence, its step due, no failure standing or backing off, the borrower away, the channel configured, the gate open and a call past its preflight, then exactly one message (sent, or refused with class and retry time) or one more call is on record, and one delivery if it was accepted; in every other case nothing is sent, placed, counted or delivered. |
| `CadenceLead.TickMovesExactly` | src/domain/actions.ts:3050-3227 | What a tick makes of state and counter: an accepted message begins the contact and is counted, an opt-out refused by text closes the lead, a plan delivered in full parks it, and nothing else moves it. |
| `CadenceLead.GoesOutExactly` | src/domain/cadenceEngine.ts:157-283 | Something goes out if and only if all of those conditions hold (and a call was not refused); a delivery is recorded if and only if it was accepted as well. |
| `CadenceLead.SendsOverRun` | src/domain/cadenceEngine.ts:127-291 | Over every run the messages and calls on record, and the deliveries, have grown by exactly the number of ticks at which that was so. |
| `CadenceLead.NothingGoesOut` | src/domain/actions.ts:3001-3040 | Over every run whose ticks all meet a closed gate, a borrower on the page or an unconfigured channel, that number is zero. |
| `CadenceLead.OffsetsAscend` | src/domain/cadenceEngine.ts:147 | The steps of the plan are taken in order of their offsets, each offset once. |
| `CadenceLead.ReplacesExactly` | src/domain/cadenceEngine.ts:143-287 | The objects a tick works on are replaced if and only if the step is a conversational call with nothing to hold it back and the store is the database. |
| `CadenceLead.AtMostFourRefusals` | src/core/deliveryStatus.ts:345-371 | Over every run at most four sends per channel are refused. |
| `CadenceLead.BackoffIsRespected` | src/domain/cadenceEngine.ts:191-214 | Over every run no message is sent and no delivery made, calls included, inside the 5, 15 or 60 minutes after a refusal, and none at all after a refusal that planned no retry. |
| `CadenceLead.CounterIsExact` | src/domain/deliveryUpdates.ts:65-90 | Over every interleaving of ticks, callbacks and lead events attemptsTotal is the number of messages neither refused nor bounced plus the calls placed, less the deliveries counted on a lead that is no longer stored, plus the decrements clipped at zero. |
| `CadenceLead.AlwaysCountedExactly` | src/domain/actions.ts:3050-3110 | It is exact all along a run if and only if no delivery is a conversational call with the database or comes after one in the same tick; and then nothing is clipped. |
| `CadenceLead.CallIsNotCounted` | src/domain/voiceOrchestrator.ts:276-322 | The failing family: with the database every conversational call that is due moves the plan on and leaves counter and state as they were. |
| `CadenceLead.CallbackKeepsInv` | src/domain/deliveryUpdates.ts:41-124 | A provider callback keeps schedule and backoff; while the counter is exact it keeps it exact and its decrement is not clipped at zero. |
| `CadenceLead.ReportExactly` | src/domain/deliveryUpdates.ts:41-124 | A provider report counts if and only if the message is underway; a bounce that counts takes one off the counter unless it is zero, and one for an opt-out by text closes an open lead; deliveries stay. |
| `CadenceLead.TickKeepsRefusals` | src/domain/actions.ts:3127-3176 | A tick keeps the record of refusals and their backoff. |
| `CadenceEngine.Engine.DeliverOutreach` | src/domain/actions.ts:3001-3227 | The send path, statement by statement, with the saves inside a placement, has the specified effect on the stored lead and the specified result; what that is in terms of the gate and the provider is `CadenceLead.TickSendsExactly` and `TickMovesExactly`. |
| `CadenceEngine.Engine.TickLead` | src/domain/cadenceEngine.ts:143-287 | The loop body, with its chain of early exits, has the specified effect on one stored lead, and says whether the tick still works on stored leads. |
| `CadenceEngine.Engine.ApplyDeliveryUpdate` | src/domain/deliveryUpdates.ts:41-124 | A callback is applied exactly when the lifecycle admits it, and then to outcome, failure class, counter and state. |
| `CadenceEngine.Engine.RunCadenceTick` | src/domain/cadenceEngine.ts:127-291 | Every lead takes its own tick and no other change, and the report is the tally of the results. |
| `CadenceEngine.TallyAddsUp` | src/domain/cadenceEngine.ts:130-283 | processed = delivered + blocked + failed + held for channel, and the leads together gained exactly as many deliveries as the report says. |
| `CadenceEngine.TallyExactly` | src/domain/cadenceEngine.ts:130-283 | The report gives, under each heading, the number of leads that meet what the heading says: delivered, refused, blocked, held for channel, engagement or failure, exhausted. |
| `CadenceEngine.TickCountsExactly` | src/domain/cadenceEngine.ts:143-287 | The same lead by lead for one tick over all leads: the counter of the i-th stays exact if and only if nothing was delivered to it or no conversational call was placed to it or a lead before it. |
| `PolicyGate.AllowIsInsideHours` | src/core/policyGate.ts:212-246 | Every ALLOW by phone or text that no officer waived is inside local hours and not on a Sunday, in a known zone. |
| `PolicyGate.DenyExactly` | src/core/policyGate.ts:167-209 | The answer is DENY if and only if the kill switch is on, an unexpired suppression is global or of this channel, there is no consent of the scope or the first one of it is not granted, the state is terminal, an officer owns the lead and nobody acts by hand, or attemptsTotal is at the cap. |
| `PolicyGate.AllowExactly` | src/core/policyGate.ts:157-268 | It is ALLOW if and only if none of these holds and the moment is right: for calls and texts a known zone whose clocks, if readable, show the hours of the state on a weekday; fewer attempts today than the cap; and the minimum spacing - each but the zone waived only by a manual action that says so. |
| `PolicyGate.DenyRuleExactly` | src/core/policyGate.ts:167-209 | Which reason a denied contact is given: the first that applies, in the order of the rules. |
| `PolicyGate.NoonExactly` | src/core/policyGate.ts:212-218 | Without a zone a call or text waits for the next noon in UTC, which is strictly later and at most a day away. |
| `PolicyGate.DeferExactly` | src/core/policyGate.ts:220-266 | For every other contact neither denied nor allowed, the first reason that applies and the instant named with it. |
| `PolicyGate.DenyIsUnconditional` | src/core/policyGate.ts:167-198 | No override, channel or manual action lifts the kill switch, a global suppression or a terminal state. |
| `PolicyGate.DenyOnlyLifts` | src/core/policyGate.ts:167-209 | Waiting never turns an answer into DENY. |
| `PolicyGate.WindowOpens` | src/core/policyGate.ts:123-135 | With a fixed offset the next window opening is strictly later, at most a day away, and shows the start hour exactly. |
| `PolicyGate.DeferAdvances` | src/core/policyGate.ts:212-268 | Each DEFER names a strictly later instant at which strictly fewer reasons to wait remain. |
| `PolicyGate.AllowedAfterAtMostFiveDefers` | src/core/policyGate.ts:212-268 | For a contact that is not barred (in the terms of `DenyExactly`), re-asking at each named instant gives ALLOW after at most five DEFERs. |
| `OptOut.Desk.HandleStop` | src/domain/inboundSms.ts:105-128 | STOP records the number unless it is listed already and suppresses exactly the open leads whose primary contact has it; then it saves. |
| `OptOut.Desk.HandleStart` | src/domain/inboundSms.ts:146-159 | START removes an OPT_OUT_STOP entry from the copy and nothing else; the save that ends the handler keeps the removal in a local file and takes it back with the database. |
| `OptOut.StopExactly` | src/domain/inboundSms.ts:105-128 | STOP lists the number, as the borrower's own opt-out unless an entry was there; it closes exactly the leads that were neither won nor lost and whose primary contact has the number; every other number and lead stays as it was. |
| `OptOut.StartExactly` | src/domain/inboundSms.ts:146-159 | START takes the borrower's own opt-out off the list with the local file, and nothing with the database; no other number and no lead changes. |
| `OptOut.SavedIsMerge` | src/domain/persistence.ts:163-186 | What a save makes of the suppressions is what the merge of the whole store makes of them. |
| `OptOut.DeletedEntryReturns` | src/domain/persistence.ts:183-185 | Merged onto any row, an entry the copy has deleted is as it is in the row. |
| `OptOut.NoInstanceEverLifts` | src/domain/persistence.ts:183-186 | Over every interleaving of saves of any number of instances a number once stored as suppressed stays suppressed. |
| `OptOut.SuppressedStaysExactly` | src/domain/persistence.ts:127-159 | Over every interleaving of any number of instances a lead once stored as suppressed is stored so ever after if and only if no later save overwrites its state. |
| `OptOut.EveryLaterLoadDenies` | src/core/policyGate.ts:167-176 | And whatever becomes of the state, from then on the gate denies every contact with the number on every instance that loads the row. |
| `OptOut.LeavesTheListExactly` | src/domain/actions.ts:718-734 | An event takes a number off the list if and only if saves go to the local file and it is an administrator's lift, or START to the borrower's own opt-out. |
| `OptOut.ListedForever` | src/domain/inboundSms.ts:146-159 | With the database a listed number and its reason stay, over every run. |
| `OptOut.StopIsForever` | src/core/policyGate.ts:167-198 | On one copy of the store, after a STOP and through every later sequence of replies and lead events, each lead reached on that number is terminal and the gate denies every contact with it: any channel, moment or override, manual or automated. |
| `OptOut.TerminalStays` | src/core/stateMachine.ts:31-56 | A terminal lead stays as it is under every sequence of events and replies. |
| `OptOut.ForeignReasonsStay` | src/core/inboundMessage.ts:98-100 | With either backend, over every run without an administrator's lift, an entry made for another reason is neither removed nor overwritten. |
| `OptOut.ReplyJoinsOneThread` | src/domain/inboundSms.ts:62-82 | A reply joins exactly one matching inquiry: that of the newest delivered text, else the youngest active one, else the youngest. |
| `Dialer.EveryRunIsOrderly` | src/domain/actions.ts:1893-2035 | With either backend, over every run of create, advance, skip, pause, resume, cancel, reconcile and automated tick: a session's current item is its own, at most one item of all automated sessions is marked CALLING, items are taken in position order, none waits again, and only items that wait are dialed. |
| `Dialer.EveryRunFromNothing` | src/domain/dialingSessions.ts:43-87 | Over every run an item is CALLING exactly while it is its session's current one, all along, if and only if no tick with the database has a turn, after a dial in the same tick, that finds a session's call over or starts a call that is not conversational. |
| `Dialer.NextIsCurrentExactly` | src/domain/dialingSessions.ts:43-87 | The same for one step of any kind from any state. |
| `Dialer.FileDropsNothing` | src/domain/dialingSessions.ts:43-87 | With the local file no run has such a turn. |
| `Dialer.OrphanIsForever` | src/domain/dialingSessions.ts:43-57 | The cost: an item left CALLING without being its session's current one stays so over every run, and no automated session ever dials again. |
| `Dialer.EveryDialFromNothing` | src/domain/dialingSessions.ts:70-84 | Over every run whatever was dialed waits no more and nothing is dialed twice, all along, if and only if no tick places a conversational call with the database. |
| `Dialer.ConversationIsRedialed` | src/domain/dialingSessions.ts:70-84 | The failing family: a conversational call placed for the first session picked leaves no mark on the queue, and n ticks that find things alike place it n times. |
| `Dialer.NextIsLowest` | src/core/dialingQueue.ts:13-17 | The next item is the pending one in the lowest position; there is none exactly when none is pending. |
| `Dialer.RemainingIsUnsettled` | src/core/dialingQueue.ts:19-22 | What remains is what waits or is being called; completed + remaining = total. |
| `DialerCalls.ProgressExactly` | src/core/dialingQueue.ts:19-22 | The progress shown is the number of settled items, of all, and of those that wait or are on the line. |
| `Dialer.CancelledIsNeverDialed` | src/domain/actions.ts:2024-2028 | With either backend, after CANCEL at any point of any run, whatever follows (pausing and resuming included), no item of that list ever waits again or is dialed. |
| `Dialer.DoneIsLeftExactly` | src/domain/actions.ts:2006-2035 | Whatever step is taken, a COMPLETED session is left if and only if the step pauses or cancels that session. |
| `Dialer.DoneStaysExactly` | src/domain/actions.ts:2006-2035 | Over every run it stays COMPLETED all along if and only if no step of the run is one of those. |
| `Dialer.CompletedIsNotFinal` | src/domain/actions.ts:2019-2023 | Every COMPLETED session without a call becomes ACTIVE again by pause and resume. |
| `Dialer.MovedKeeps` | src/domain/dialingSessions.ts:13-30 | The one way an item moves on keeps what every run keeps and never goes backwards, whatever becomes of its session. |
| `DialerCalls.ReconciledExactly` | src/domain/dialingSessions.ts:13-30 | Looking at a session settles its call if and only if that is over - the live call has ended, or there is no live call and the outcome is one of the seven - as FAILED or BLOCKED exactly for those outcomes and COMPLETED otherwise; the session is freed if and only if it has no call that goes on; nothing else changes. |
| `DialerCalls.CallIsSettledExactly` | src/domain/dialingSessions.ts:13-87 | In every state and by every step: an item on the line (CALLING and its session's current one) is settled if and only if the step looks at that session and the call is over. A tick looks at a session with a call only if it is the oldest active automated one. |
| `DialerCalls.CompletedExactly` | src/domain/dialingSessions.ts:13-87 | An item becomes COMPLETED in a step if and only if it is on the line, the step looks at its session, the call is over, and the outcome is neither FAILED nor BLOCKED. |
| `DialerCalls.OnTheLineExactly` | src/domain/dialingSessions.ts:43-91 | Over every run an item stays on the line to the end if and only if no step finds its call over; and all the while its own list dials nothing and no automated list dials. |
| `DialerCalls.NobodyIsCutOff` | src/core/dialingQueue.ts:5-11 | In particular over every stretch in which the live call is queued, ringing or connected, whatever outcome is on record. |
| `DialerCalls.TurnExactly` | src/domain/dialingSessions.ts:43-60 | A turn leaves a call that goes on alone; a list without one ends the tick if and only if another item is on the line, and otherwise dials; the session objects stay the stored ones unless, with the database, the turn asked the gate. |
| `DialerCalls.DialByTurnExactly` | src/domain/dialingSessions.ts:54-90 | What such a dial does to item, session and carrier, by lead, gate and answer, with what is lost on objects that are not stored. |
| `DialerCalls.DialByHandExactly` | src/domain/actions.ts:1962-2000 | Dialing by hand does something if and only if the list is manual, active and without a call: it finishes the list if none waits, and else takes the first waiting item, which is on the line if and only if its lead exists and the carrier took the call. |
| `DialerCalls.SkipExactly` | src/domain/actions.ts:2012-2018 | SKIP_NEXT marks the first waiting item of a list without a call, and nothing else. |
| `DialerCalls.PickedExactly` | src/domain/dialingSessions.ts:35-38 | A tick takes up a session if and only if it is automated and active and fewer than limit such sessions are older. |
| `DialerCalls.OlderListStopsTheDialer` | src/domain/dialingSessions.ts:43-52 | The failing family: while an older automated list is active and a younger one has a call on the line, no number of ticks settles that call, over or not, and no automated list dials. |
| `DialerCalls.SecondListIsOrphaned` | src/domain/dialingSessions.ts:70-90 | A whole tick that drops a call: with the database, when the first list asks the gate to no effect, the call the second list starts is nobody's current one; with the local file it is on the line. |
| `Dialer.Queue.CreateSession` | src/domain/actions.ts:1915-1954 | Creates one session and its items in the given order, or refuses and changes nothing. |
| `Dialer.Queue.ReconcileSession` | src/domain/dialingSessions.ts:13-30 | Reconciling has the specified effect, which is that of `DialerCalls.ReconciledExactly`. |
| `Dialer.Queue.AdvanceSession` | src/domain/actions.ts:1956-2004 | Manual dialing, with each early exit, has the specified effect. |
| `Dialer.Queue.UpdateSession` | src/domain/actions.ts:2006-2035 | Skip, pause, resume and cancel have the specified effect (`DialerCalls.SkipExactly`, `PauseExactly`, `CancelExactly`). |
| `Dialer.Queue.TakeTurn` | src/domain/dialingSessions.ts:43-87 | One session's turn in the automated tick on the session object the tick holds, stored or not, whether it ends the tick, and whether the objects are still the stored ones after it. |
| `Dialer.Queue.RunAutomated` | src/domain/dialingSessions.ts:32-94 | The tick takes the oldest active automated sessions in turn, saves after each dial, and stops at the first that finds a call in progress elsewhere. |
| `WorkerPool.EachIndexOnce` | src/core/concurrency.ts:33-38 | Whatever the schedule, fn is called with the indices in order, each once. |
| `WorkerPool.InFlightIsBounded` | src/core/concurrency.ts:28-39 | At any moment of any schedule at most max(1, min(limit, n)) calls are under way. |
| `WorkerPool.AllBegin` | src/core/concurrency.ts:28-39 | And that many do get under way at once, on the schedule in which every worker runs before any call has come back. |
| `WorkerPool.RunsAreBounded` | src/core/concurrency.ts:30-39 | No schedule runs for ever. |
| `WorkerPool.QuietMeansComplete` | src/core/concurrency.ts:30-41 | When nothing can run the results are complete and aligned with the items, unless some call rejects, and then a rejection was reached. |
| `WorkerPool.EveryScheduleMapsTheItems` | src/core/concurrency.ts:18-42 | results[i] = fn(items[i], i) for every i, in any completion order, within 2n + workers turns. |
| `WorkerPool.Pool.Turn` | src/core/concurrency.ts:33-37 | One turn of one worker on the shared cursor and array. |
| `WorkerPool.MapWithConcurrency` | src/core/concurrency.ts:18-42 | For every event loop: rejects exactly when some call rejects, otherwise returns the mapped items. |
| `Base32.Base32Encode` | src/core/totp.ts:5-11 | The two loops compute the specified string. |
| `Base32.Base32Decode` | src/core/totp.ts:13-23 | Accepts exactly the strings over the alphabet (either case, trailing padding) and yields their whole octets. |
| `Base32.AlphabetIs` | src/core/totp.ts:3 | The symbol tables used are the alphabet literal of section 6 of RFC 4648. |
| `Base32.RoundTrip` | src/core/totp.ts:5-23 | decode(encode(b)) = b for every byte sequence, in either case and with any amount of padding. |
| `Base32.CanonicalExactly` | src/core/totp.ts:5-23 | encode(decode(s)) is s, upper-cased and stripped, if and only if fewer than five bits are left over and all are zero. |
| `Totp.CodeIsSixDigits` | src/core/totp.ts:25-32 | Truncation (section 5.3 of RFC 4226) stays inside the 20-byte digest and always gives six digits, those of the 31-bit number modulo a million; the 8-byte message reads back as the counter. |
| `Totp.TruncationExample` | src/core/totp.ts:28-31 | The truncation gives the number and the code of the example of section 5.4 of RFC 4226. |
| `Totp.TrimmedExactly` | src/core/totp.ts:42 | White space is left out of an entry wherever it stands, and nothing else. |
| `Totp.AcceptedExactly` | src/core/totp.ts:41-50 | For every secret string: an entry is accepted if and only if the secret is base32, the clock shows at least one step, and the entry is the code of the previous, this or the next step; an exception is thrown if and only if a six-digit entry meets a secret or a clock that is not so. |
| `Totp.FreshCodesAreAccepted` | src/core/totp.ts:41-50 | A code of a secret made at time t is accepted for it at every now with |now - t| <= 30 s (section 5.2 of RFC 6238), spaces allowed. |
| `Totp.EnrolledKeyIsAccepted` | src/core/totp.ts:5-50 | The code made from the raw key bytes is accepted for the base32 secret handed out for them, within the same 30 s. |
| `DedupeCache.Cache.Evict` | src/core/idempotency.ts:28-42 | The two deletion loops keep exactly the live entries in order, then the last 5000 of them. |
| `DedupeCache.Cache.AlreadyProcessed` | src/core/idempotency.ts:50-62 | The answer and the new map are those specified; an empty key changes nothing. |
| `DedupeCache.CacheIsHistory` | src/core/idempotency.ts:50-62 | Over every run with nondecreasing time in which every recording call leaves at most 5000 keys live, the cache answers as an unbounded history: true exactly when the key's last false was at most ten minutes ago. |
| `DedupeCache.RecordingIsCompleteExactly` | src/core/idempotency.ts:34-62 | Recording a key leaves every live key in the cache if and only if at most 5000 keys are then live. |
| `DedupeCache.CacheIsHistoryExactly` | src/core/idempotency.ts:34-62 | Over every run from the empty cache, cache and history agree about every key after every call if and only if that bound holds at every recording call. |
| `DedupeCache.AfterIsSound` | src/core/idempotency.ts:28-62 | For any times and any number of keys a key is called a duplicate only if it was recorded within the window. |
| `DedupeCache.NeverTooLarge` | src/core/idempotency.ts:34-41 | After every call that records something the map holds at most 5000 entries, for any input. |
| `DedupeCache.NewestCanBeDropped` | src/core/idempotency.ts:34-41 | Dropping from the front is not dropping the oldest: over the bound, a key recorded again a moment ago can go first. |
| `RateLimit.Limiter.Consume` | src/domain/rateLimit.ts:13-24 | One subject's counter changes, no other, and the verdict is the specified one. |
| `RateLimit.FirstOfEachWindow` | src/domain/rateLimit.ts:17-22 | Over every run with nondecreasing time exactly the first limit requests of each window are allowed. |
| `RateLimit.LessThanTwiceTheLimit` | src/domain/rateLimit.ts:17-22 | Every half-open interval of one window length holds at most 2*limit - 1 allowed requests. |
| `RateLimit.TheBoundIsReached` | src/domain/rateLimit.ts:17-22 | For every limit and window length some run reaches that bound. |
| `RateLimit.RetryAfterIsExact` | src/domain/rateLimit.ts:20-23 | Waiting retryAfterSeconds guarantees the next request is allowed; a refused subject that comes a second earlier is refused again. |
| `Callback.ZonedLocalToUtc` | src/core/callbackScheduling.ts:22-33 | In any zone a non-null result displays as the requested wall time. |
| `Callback.FoundExactly` | src/core/callbackScheduling.ts:25-32 | In a zone with at most two offsets an instant is found if and only if some instant shows the wall time. |
| `Callback.GenerateCallbackSlots` | src/core/callbackScheduling.ts:47-79 | The nested loops with their early stops return exactly the first limit of all offers of the grid, in order. |
| `Callback.SlotIsAdmissible` | src/core/callbackScheduling.ts:41-76 | In any zone a slot shows a grid point within working hours, not on a Sunday, is not sooner than the lead time, and is clear by the buffer of every appointment that is booked, confirmed, in progress or missed. |
| `Callback.OfferedExactly` | src/core/callbackScheduling.ts:47-77 | In any zone a slot is on offer if and only if it starts at the moment the zone shows a point of the grid between today and the horizon, no sooner than the lead time, with the officer free. |
| `Callback.BusyExactly` | src/core/callbackScheduling.ts:41-73 | The officer is taken if and only if such an appointment of theirs is closer than the buffer. |
| `Callback.GridExactly` | src/core/callbackScheduling.ts:62-69 | The grid has exactly the whole slots with their buffers from the start of the hours, the last ending in time, on every day of the range but Sundays. |
| `Callback.BookingKeepsApart` | src/domain/voiceWorkflow.ts:262-284 | On one instance, over any number of rounds of booking an offered slot, confirming and cancelling, the officers' live appointments stay separated by the buffer, for any zones. |
| `Callback.SavedIsMerged` | src/domain/persistence.ts:163-186 | What a save makes of the appointments in the model of several instances is what the merge of the whole store makes of them. |
| `Callback.EveryBookingRun` | src/domain/voiceWorkflow.ts:262-297 | Over every interleaving of bookings, status changes, reloads and saves of any number of instances, row and copies stay separated if and only if every save is clear: nothing it adds clashes with an appointment of the row it did not touch. |
| `Callback.StepIsClearExactly` | src/domain/voiceWorkflow.ts:262-297 | The same for one step from any separated state. |
| `Callback.UpToDateIsClear` | src/domain/voiceWorkflow.ts:262-297 | A save by an instance whose copy started from the newest row is clear. |
| `Callback.BothBookIt` | src/domain/voiceWorkflow.ts:262-297 | The failing family: whichever slot is on offer, two instances holding the same row both book it and the row has both. |
| `Callback.ConstantOffsetSlots` | src/core/callbackScheduling.ts:57-77 | With a constant offset the offers are strictly increasing and are exactly the admissible grid points. |
| `Thread.BuildLeadThread` | src/core/conversationThread.ts:131-241 | The loops, the map from attempts to conversations and the stable sort build the specified thread. |
| `Thread.ThreadIsExact` | src/core/conversationThread.ts:131-241 | With unique ids the thread is time-sorted and is, as a multiset, the intake, all turns of all conversations, a row for each attempt whose last linked conversation has no turns, and the conversational notes. |
| `Thread.ThreadIsInOrder` | src/core/conversationThread.ts:240 | The thread is in order of time, and messages of the same moment stay in the order they were gathered in. |
| `Thread.EachTurnOnce` | src/core/conversationThread.ts:160-219 | Every transcript turn of every conversation is in the thread exactly once. |
| `Thread.EveryMessageIsTrue` | src/core/conversationThread.ts:144-238 | Every message of the thread has the time, words, channel and speaker of its source: a turn the borrower or the agent, under the channel of the attempt its call belongs to; an attempt by direction, generator and logger; a note by its own role or its author. |
| `Thread.NoteIsShownExactly` | src/core/conversationThread.ts:224-238 | A note is shown, once, if and only if it has a conversation channel or one of the two legacy authors; an officer's private note never is. |
| `Thread.AttemptIsShownExactly` | src/core/conversationThread.ts:165-200 | An attempt has a row of its own, once, if and only if the last conversation linked to it has no turns and it has a text, is a call, or was blocked. |
| `Thread.BriefIsBounded` | src/core/conversationThread.ts:272-284 | For maxMessages >= 2 the brief has at most that many entries: the intake first if present, then exactly the newest others that fit, in order. |
| `Thread.BriefBoundExactly` | src/core/conversationThread.ts:282-284 | The bound holds if and only if maxMessages >= 2, or it is 1 and there is no intake or nothing else. |
| `ReplyJob.Job.Process` | src/domain/outboxProcessing.ts:161-242 | One execution on one instance - cut off at any await, with a save that throws, or going well, and with each save replacing the objects it holds - leaves exactly the specified row, unsaved copies and carrier calls. |
| `ReplyJob.SendsExactly` | src/domain/outboxProcessing.ts:170-218 | One execution hands the carrier something if and only if nothing withholds the reply, the attempt it finds is no success, and it gets so far; and then the reply written down, if there is a usable one, else the new one. |
| `ReplyJob.StoresExactly` | src/domain/outboxProcessing.ts:170-241 | What is stored of the attempt after one execution, by what it found, what it met and where it was cut off. |
| `ReplyJob.EveryLifeOfAJob` | src/domain/outboxProcessing.ts:161-242 | Over every life of a job on any number of instances, through crashes, thrown saves, refusals and repeats: nothing is sent after a stored success; attemptsTotal has gone up by the other work on the lead, less exactly what an execution that took up a written reply overwrote, and by one if and only if the stored success came from such an execution; and at every moment what was sent is the stored reply and nothing else (or nothing at all) if and only if no execution was a risky one. |
| `ReplyJob.RunCounts` | src/domain/outboxProcessing.ts:161-242 | The counting part from any state that satisfies the invariant, over every continuation. |
| `ReplyJob.ResultIsStoredExactly` | src/domain/outboxProcessing.ts:183-241 | An execution that asks the carrier, is accepted and goes on to its end stores the success if and only if it took up a written reply or created the attempt, and counts it if and only if it took up a written reply. |
| `ReplyJob.FirstSendIsNeverCounted` | src/domain/outboxProcessing.ts:183-241 | The failing family: a job done in one execution stores its success, keeps whatever others added to the counter, and is never counted, whatever comes after. |
| `ReplyJob.WithheldThenSentStaysQueued` | src/domain/outboxProcessing.ts:183-241 | And a reply sent after one was withheld is stored as QUEUED for good. |
| `ReplyJob.RiskyExactly` | src/domain/outboxProcessing.ts:183-217 | One event leaves something sent that is not stored if and only if it is an execution that takes up a reply its instance never got stored, hands it over, and does not get the result stored either. |
| `ReplyJob.OneReplyExactly` | src/domain/outboxProcessing.ts:183-217 | From any moment of any life: every continuation keeps to one reply if and only if a usable reply is stored in the row and is all that was ever sent. |
| `ReplyJob.TwoRepliesGoOut` | src/domain/outboxProcessing.ts:183-217 | The failing family: as long as no usable reply is stored, a thrown save, a carrier call from the unsaved copy and a crash let a second, different reply go out. |
| `ReplyJob.SameReplyExactly` | src/domain/outboxProcessing.ts:183-217 | A reply that was stored and whose first send was cut off is repeated word for word in every continuation if and only if it is neither empty nor the placeholder text. |

## Left out

- Key order inside JSON objects: `sameValue` compares serialized text, so equal objects with keys in another order count as changed there and as equal here.
- Order of array collections and records that share an id: collections are maps from fresh ids to records, and records without an id are kept as one list.
- Fields whose value is `undefined`: they are absent once serialized.
- Edits to one instance's memory while its own save is awaiting: none are made in the model (`replaceDatabaseContents` would overwrite them).
- Seeding and default hydration of a loaded snapshot, the local-file backend, connection drivers and schema setup.
- `SaveProtocol.EveryRunIsLinear`: the write chain of one instance is modelled as at most one save in flight.
- The in-memory queue used without a database, the parallel webhook inbox, and callback reconciliation before a batch.
- Ids returned by enqueueing: outbox rows are known by their idempotency key.
- `OutboxTable.Outbox.ClaimBatch`: concurrent claimers (SKIP LOCKED) are atomic claims in some order.
- `OutboxTable.Outbox.ProcessBatch`: other workers do not step in between the claim and the settlements of one batch; `OutboxJob` has those interleavings for one job.
- `OutboxJob.AtMostFiveClaims`: a worker that never settles lets the job be claimed again without limit, as in the code, and is excluded by the hypothesis.
- `ReplyJob.Job.Process`: an unsaved copy is taken up again only while the row has not moved, since the forced refresh reloads a moved row; within one execution other instances save during the carrier call only, no other request of the same instance saves or reloads, and two executions of one job do not overlap.
- The other outbox job kinds (callback texts, inquiry e-mails, call post-processing) and the missing-record errors of the reply job.
- `CadenceLead.CounterIsExact`: placing a call is one opaque act that stores no SMS or e-mail attempt; failed calls recorded by the voice orchestrator, which is not part of this model, are not among the attempts.
- `CadenceEngine.Engine.DeliverOutreach`: attempts stored for calls, the daily counter, data-quality flags and saves by other requests during a tick are not modelled.
- `CadenceEngine.Engine.ApplyDeliveryUpdate`: the lookup by provider id, the daily counter and the suppression entry a bounce adds are not modelled.
- `CadenceEngine.Engine.RunCadenceTick`: exceptions thrown for one lead and the count of downgraded channels are not modelled.
- Channel routing, voice downgrading and readiness in the cadence: choices of the environment; exceptions thrown for one lead and the plan edited between ticks are not modelled.
- The daily counter attemptsToday, data-quality flags, tasks, events other than automated deliveries, and officer assignment.
- `PolicyGate.AllowedAfterAtMostFiveDefers`: assumes a zone with a fixed offset that can be resolved and attemptsToday below the cap, since an unresolvable zone skips quiet hours and the daily counter is reset outside the gate.
- Recognition of STOP, START and HELP words, phone normalisation, confirmation texts, and duplicates of inbound messages (the guard itself is `DedupeCache`).
- `OptOut.Desk.HandleStop`: reasons are one entry per number without scope or expiry.
- `OptOut.Desk.HandleStart`: within one desk no other instance saves between two handlers; `DeletedEntryReturns` and `NoInstanceEverLifts` have those interleavings.
- `Dialer.Queue.CreateSession`: refusals for missing leads, roles and the feature flag are checks before the modelled call.
- `Dialer.Queue.AdvanceSession`: one step; what other instances save between its reconciliation and the answer to its call is not modelled.
- `Dialer.Queue.RunAutomated`: the counters the tick reports, and saves by others during a tick, are not modelled.
- User roles, ownership checks, names and timestamps of dialing sessions; the session status COMPLETED is called DONE in `Dialer`, where COMPLETED is an item's status.
- `WorkerPool.MapWithConcurrency`: the rejection is reported once nothing can run any more, while the original rejects at the first one and lets the other workers run on.
- Calendar dates: a civil date is a day number, and year, month and day are taken to be a faithful name for it; borrower labels and the fallback to another zone are formatting.
- `Callback.BookingKeepsApart`: one slot length and buffer for the whole run, and on one copy closed appointments are not reopened.
- Rescheduling a callback, and what an officer's own calls and messages do to a lead's counters.
- `Callback.EveryBookingRun`: a save is one step (`SaveProtocol` has it cut at every await); repeated idempotency keys and the choice of the officer are not modelled.
- `Base32.Base32Decode`: letters outside ASCII whose upper case lies in the alphabet (a dotless i) are refused here and accepted by the code.
- Bitwise truncation is written as the arithmetic of RFC 4226; upper-casing a secret covers ASCII letters; `timingSafeEqual` is equality; recovery codes and enrolment links are left out.
- `RateLimit.FirstOfEachWindow`: one limit and window length for a subject; the SQL statement has the same rule with the database clock.
- Wording of the intake message, subjects and outcomes in the thread, and the channel read from the name of a legacy author; invalid timestamps; the helpers over a finished thread.
- Pages, adapters, webhook signatures, templates, integrations and classifiers: input and output, or one-branch lookups.
