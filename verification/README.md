# Read side and journal delivery, modelled and proved

A Dafny model of the event-sourced read side of the repository: the append-only journal, its live
delivery to the browser, the run and money views folded from it, the projections rebuilt from it,
and the self-contained algorithms of the dashboard and the discovery report.
`dafny verify dfyconfig.toml` checks the whole project.

## The parts

- **Journal** (`journal.dfy`, `mongo_append.dfy`). An event is numbered per instance, densely from 1.
  The in-memory store is a class with the source's three fields. The Mongo store is a transition
  system of any number of racing writers, each of which reads the highest number, then inserts under
  two unique indexes, up to eight times.
- **Reading** (`reads.dfy`). `journal_events`: a run's log, an instance's log, or all instances one
  after another, sorted by `(ts, instance_id, seq)`, filtered by kind, cut by `[-limit:]`. The
  instances of one read are read from *different* journals, because others append meanwhile.
- **Delivery** (`stream.dfy`, `delivery.dfy`, `stopping.dfy`, `snapshot.dfy`, `reconnect.dfy`, `losses.dfy`, `client.dfy`).
  A transition system whose steps are: append, register an instance, connect, read one instance, finish
  a gather, send one frame, finish a batch, start a poll, stop, disconnect. A run is any interleaving of
  them, over any number of connections. `client.dfy` is the browser's handler as a class.
- **The loop itself** (`stream_loop.dfy`). `stream_events` as a `while` loop, from any point of a connection
  at which appends stop, with the measure that ends it.
- **Views** (`runs.dfy`, `views.dfy`, `economy.dfy`, `projections.dfy`, `documents.dfy`). Run list and run
  detail, the four profit-and-loss views, the six projectors with their rebuild, and what each projected
  document says in terms of the events.
- **Algorithms** (`slug.dfy`, `toasts.dfy`, `arg_diff.dfy`, `channels.dfy`, `manifest.dfy`,
  `faculty.dfy`, `eval_stats.dfy`) over a small vocabulary (`sequences.dfy`, `sorting.dfy`, `text.dfy`,
  `wrappers.dfy`).

A loop of the source is a method with invariants, proved equal to a specification function; what the
source promises is then proved of that function.

## What turned out not to hold

Each point names a lemma with an input at which the code misses the property, and the one that says
exactly when it meets it.

- An event that is outside the 1000-event window when a poll first reads it is never sent on that
  connection, even when later polls have room; inside the window it is sent by that very poll
  (`Losses.WindowOverflowIsLost`; exactly: `Delivery.FirstReadDecides`). A poll loses nothing else
  (`Delivery.NoLoss`).
- A reconnect can lose an event although nothing is appended while disconnected: 51 events appended
  before a disconnect and after the last poll overflow the new 50-event snapshot
  (`Losses.UnpolledBurst`, `Losses.UnpolledBurstIsLost`). Exactly, for every event a snapshot gathered and
  any timestamps (`Snapshot.SnapshotDecides`): its connection sends it if it is in the snapshot's window,
  or if no later event of its instance is and the first poll's window holds it; otherwise never.
- The client drops a second event with an `event_id` it has seen. Ids are not unique in the kernel: a ring
  change is named by instance and ring alone, so setting the same ring again gives the same id
  (`Client.SameRingTwice`). All received events are accepted if and only if no two of them share an id
  (`Client.AllAcceptedIffIdsDistinct`).
- `packages/kernel/src/agentx_kernel/projections.py:4` calls every projector an idempotent fold. The
  résumé projector is not: rebuilding over the live store counts every settlement again
  (`Projections.SettledTwice`), so it changes nothing if and only if the instance never settled a run
  (`Projections.ResumeRebuildIffNeverSettled`).
- A rebuild of one instance can take a document from another: instances `a:b` and `a` can share a thread key
  (`Projections.SharedThreadChangesHands`). Outside the résumé the live document stays if and only if the
  instance never wrote there or its own last write leaves the same document (`Projections.RebuildKeepsIff`).
- A business unit's trust is not the sum of its instances' economy envelopes when a member has trust
  but no billing, because that member's envelope is "missing" (`Economy.UnbilledTrustCounts`), and lines
  under an empty id are in that id's envelope and in no unit (`Economy.BlankIdUncounted`; exactly, for all
  three figures: `Economy.UnitEqualsEnvelopes`).
- The comment at `api/src/agentx_api/state.py:709` says the first observed currency is kept. The code
  keeps the last (`Economy.SecondCurrencyShown`), which is the first if and only if no line names one or the
  first and the last that do name the same (`Economy.FirstCurrencyShownIff`). In `economy_units` the value
  also carries over from one unit to the next, so a unit can show another's currency
  (`Economy.ForeignCurrency`). It shows its own if and only if one of its lines names one or the carried one
  is the default (`Economy.UnitCurrencyIsOwnIff`).
- List and detail of a run can differ when its timestamps run backwards: in the state
  (`Views.ClockSkewSplitsTheViews`), or in the creation time alone (`Views.ClockSkewMovesTheCreation`). They
  compute from the same sequence if and only if the timestamps the detail shows never run backwards and the
  list's window holds the same events of the run (`Views.ListAndDetailReadTheSame`). They show the same
  summary if and only if the first appended event has the least timestamp and, of the creations, the
  parkings, the state-bearing events and the settlements, the latest stamped gives the figure of the last
  appended (`Views.SummariesAgreeIff`, `Views.ListAgreesWithDetail`).
- `upsertToast` with a negative limit shows nothing (`Toasts.NegativeLimitForgets`; exactly:
  `Toasts.ShownIsLatestIff`).
- The edit preview is not always the recorded diff. JavaScript's `in` also finds `Object.prototype` members,
  and `Object.is` tells apart what Python calls equal: two containers of the same content, `true` and 1,
  0 and -0. Changing 1 to `true` is previewed and not recorded (`ArgDiff.OneForTrue`); adding a key named
  `toString` is recorded as added and previewed as changed (`ArgDiff.ToStringAdded`). The two are equal if
  and only if no key added or removed is named like such a member and no key's values are such a pair
  (`ArgDiff.PreviewEqualsRecordIff`).
- The library can lose a faculty: names and versions are joined with an `@`, so "a@b" in version "c" and "a" in
  version "b@c" share one entry, that of the first, used by both titles (`Faculty.AtSignCollides`). There is
  one entry per name and version if and only if no two different pairs given share a key
  (`Faculty.LibraryMeaning`). Two names keep their keys apart, whatever the versions, if and only if neither
  continues the other with an `@` (`Faculty.KeyInjective`).
- A buyer channel without a URL field is never recognised as a duplicate of another, but always of one with
  an explicit null, and one with an empty URL is dropped after one without the field
  (`Channels.UrllessChannelsLost`). `Channels.KeptIff` is the fate of every channel; those without the field
  are kept exactly up to the first null (`Channels.AbsentUrlsKept`).

## Model

| member | source | states |
|---|---|---|
| `Journal.InMemoryJournalStore.constructor` | packages/kernel/src/agentx_kernel/stores/memory.py:26-29 | a new store is empty and its counters and key set agree with its log |
| `Journal.InMemoryJournalStore.Append` | packages/kernel/src/agentx_kernel/stores/memory.py:31-41 | refuses exactly a used idempotency key and then changes nothing; else appends the event with the next number of its instance; numbering stays dense and keys stay unique |
| `Journal.InMemoryJournalStore.MaxSeq` | packages/kernel/src/agentx_kernel/stores/memory.py:55-56 | the counter is the length of the instance's log |
| `Journal.AppendMeaning` | packages/kernel/src/agentx_kernel/stores/memory.py:31-41 | an append is refused exactly if an earlier event has its key; in a valid journal no two events share one |
| `Journal.LogNumbered` | packages/kernel/src/agentx_kernel/stores/memory.py:35-37 | the n-th event of an instance carries number n |
| `Journal.DenseDistinct` | db/src/agentx_db/indexes.py:29 | inside an instance numbers strictly increase with append order, so no event occurs twice |
| `Journal.ReadInstanceIsLog` | packages/kernel/src/agentx_kernel/stores/memory.py:43-47 | sorting an instance's events by number gives append order |
| `MongoAppend.MaxSeqCounts` | packages/kernel/src/agentx_kernel/stores/mongo.py:67-72 | the highest stored number of an instance is the number of its documents |
| `MongoAppend.ClaimFree` | packages/kernel/src/agentx_kernel/stores/mongo.py:44-47 | a number a writer has computed is still free exactly when it is the next one |
| `MongoAppend.ReadyClaimsNext` | packages/kernel/src/agentx_kernel/stores/mongo.py:44-46 | a writer claims the number after those its instance has |
| `MongoAppend.InsertDecides` | packages/kernel/src/agentx_kernel/stores/mongo.py:47-57 | an insert stores exactly if the claim is still the next number and no document has the key; a duplicate is reported only if one has; the eighth lost number ends the call |
| `MongoAppend.StepIsAppend` | packages/kernel/src/agentx_kernel/stores/mongo.py:34-57 | any step of any racing writer leaves the log alone or is one atomic append to it |
| `MongoAppend.StepKeepsInv` | packages/kernel/src/agentx_kernel/stores/mongo.py:34-57 | every step keeps: dense numbers, unique keys, documents and successful writers one to one, and eight lost races mean eight foreign appends |
| `MongoAppend.RacingAppends` | packages/kernel/src/agentx_kernel/stores/mongo.py:34-57 | that holds after every interleaving of any number of writers |
| `Reads.ReadJournal` | api/src/agentx_api/state.py:104-136 | the reading loop, for all three sources, any kind filter and any integer limit |
| `Reads.ReadReturns` | api/src/agentx_api/state.py:118-136 | for every source, kind and limit: an event is returned if and only if the source offers it, it is of the kind, and fewer than `limit` such events sort after it (for a limit of 0 or less: at least that many before it) |
| `Reads.ReadIsOrdered` | api/src/agentx_api/state.py:118-136 | the result is in that order, nothing twice: by number for an instance or a run, by time, instance and number for all |
| `Reads.KindNames` | packages/contracts/src/agentx_contracts/journal.py:42-151 | the kind a read selects by tells the events apart |
| `Reads.KeyAntisymmetric` | api/src/agentx_api/state.py:127-133 | two events of one journal with equal sort keys are the same event |
| `Reads.WindowIsRank` | api/src/agentx_api/state.py:133-136 | an event survives the cut exactly when fewer than `limit` gathered events sort after it |
| `Stream.PollQueue` | api/src/agentx_api/app.py:633-641 | what a poll queues and what it cuts, event by event, by rank and cursor |
| `Stream.PollDelivers` | api/src/agentx_api/app.py:633-645 | after a poll, exactly the cut events among those read since the snapshot are neither sent nor queued, in any timestamp order |
| `Stream.StepKeepsInv` | api/src/agentx_api/app.py:617-649 | every step of server, journal and client keeps the invariant: a gather covers a prefix of each log it read, cursors stay below what was read, and sent, queued and cut events account for everything read |
| `Delivery.RunKeepsInv` | api/src/agentx_api/app.py:617-649 | that invariant holds in every state of every run |
| `Delivery.GatherReadsAllEarlier` | api/src/agentx_api/state.py:118-122 | although a gather is no global cut, it reads every event of a registered instance appended before it began |
| `Delivery.FirstReadDecides` | api/src/agentx_api/app.py:633-645 | an event is sent by the poll that first reads it if fewer than 1000 gathered events sort after it, and otherwise never on that connection |
| `Delivery.FramesIncrease` | api/src/agentx_api/app.py:620-645 | with per-instance monotone timestamps, the frames of each instance strictly increase in number over the whole connection |
| `Delivery.SkippedIsLost` | api/src/agentx_api/app.py:634-642 | under the same assumption, an event passed over by a later frame of its instance is never sent on that connection |
| `Delivery.NoLoss` | api/src/agentx_api/app.py:630-649 | for any interleaving and any timestamps: a completed poll has sent exactly the uncut ones of the events of registered instances appended before it began and after the snapshot's read |
| `Stopping.StopsIffQuiet` | api/src/agentx_api/app.py:629-649 | in every run: between polls a connection stops if and only if its last 300 polls all queued nothing, and until then can poll again |
| `Stopping.StoppedAfterQuiet` | api/src/agentx_api/app.py:629-649 | a connection that stops has seen 300 polls queue nothing since it connected or since the last poll that queued something |
| `Snapshot.SnapshotDecides` | api/src/agentx_api/app.py:619-645 | for any timestamps and every later state of the connection: an event the snapshot gathered is sent if and only if it is in the snapshot's window, or no later event of its instance is and the first poll's window holds it |
| `Snapshot.FirstPollCatchesUp` | api/src/agentx_api/app.py:619-645 | of the gathered events outside the snapshot's window, the first poll queues exactly those no windowed event of their instance overtook and its own window holds |
| `Snapshot.OvertakenIsNeverSent` | api/src/agentx_api/app.py:621-637 | an event left out of the snapshot and overtaken in it is never sent on the connection, polled or not |
| `Snapshot.MonotoneSurvival` | api/src/agentx_api/app.py:619-645 | if timestamps never run backwards inside an instance, that is rank alone: fewer than 50 gathered events sort after it, or its instance is absent from the window and at the first poll fewer than 1000 do |
| `Client.JournalStream.constructor` | dashboard/src/lib/events.ts:54-57 | nothing seen, nothing shown |
| `Client.JournalStream.Restart` | dashboard/src/lib/events.ts:59-63 | a changed base URL starts over |
| `Client.JournalStream.HandleJournal` | dashboard/src/lib/events.ts:74-84 | after any frames, malformed ones included, the buffer is the last 50 of the first-occurrence deduplication of everything received |
| `Client.AcceptedInOrder` | dashboard/src/lib/events.ts:77-84 | what is accepted keeps the order it was received in |
| `Client.AllAcceptedIffIdsDistinct` | dashboard/src/lib/events.ts:77-80 | every received event is accepted if and only if no two different ones share an id |
| `Client.AcceptedOnce` | dashboard/src/lib/events.ts:77-80 | with distinct ids, an event received any number of times is accepted exactly once |
| `Client.SameRingTwice` | packages/kernel/src/agentx_kernel/control.py:358-374 | setting one ring twice, at any times and on any journal, appends two different events of one id, of which the client shows the first |
| `Reconnect.StepKeepsNoGap` | api/src/agentx_api/app.py:619-645 | if no gather's window cuts what the client has not received, every step keeps: all positions up to the last completely sent gather have been received |
| `Reconnect.ExactlyOnceAcrossReconnects` | dashboard/src/lib/events.ts:57-84 | then, over any number of reconnects and in any timestamp order, everything up to the last completely sent gather stands exactly once in the client's sequence |
| `Reconnect.ExactlyOnceByCount` | dashboard/src/lib/events.ts:57-84 | if sort order is append order, it is enough that each gather's window holds as many events as were appended since the last completely sent gather began |
| `Reconnect.PollDeliversAllEarlier` | api/src/agentx_api/app.py:630-649 | in any timestamp order: in such runs a completed poll has delivered, exactly once, everything appended before it started |
| `Reconnect.NoLossAtTheClient` | api/src/agentx_api/app.py:630-649 | in every run: what a completed poll did not cut stands exactly once in the client's sequence |
| `Reconnect.ExactlyOnceOnOneConnection` | api/src/agentx_api/app.py:633-645 | on one connection no order is needed: an event first read inside the window is accepted exactly once, re-sent frames included |
| `Reconnect.ReconnectKeepsLastFifty` | api/src/agentx_api/app.py:619-645 | the general rule where sort order is append order: the connection sends the last 50 positions of the journal its snapshot read, and of the earlier ones those whose instance has none of the last 50, as far as the first poll's window reaches |
| `Losses.UnpolledBurst` | api/src/agentx_api/app.py:619-627 | a run of 51 appends before a disconnect and none after it |
| `Losses.UnpolledBurstIsLost` | api/src/agentx_api/app.py:619-645 | however that connection goes on, it never sends the first of the 51 and the client has not received it |
| `Losses.LongBurst` | api/src/agentx_api/app.py:633-641 | a run of 1001 appends between a snapshot and the first poll |
| `Losses.WindowOverflowIsLost` | api/src/agentx_api/app.py:633-645 | however that connection goes on, it never sends the first of the 1001 |
| `StreamLoop.PollRaisesCursors` | api/src/agentx_api/app.py:639-642 | a productive poll strictly raises the cursor of each instance it sent for, to a number it sent, and moves no other |
| `StreamLoop.SnapshotCursorIsMax` | api/src/agentx_api/app.py:621-625 | the snapshot loop ends with the highest number sent per instance |
| `StreamLoop.PollCursorIsLast` | api/src/agentx_api/app.py:641-642 | the poll loop ends with the number last sent per instance, which may be lower than one sent before |
| `StreamLoop.SendBatch` | api/src/agentx_api/app.py:641-644 | the emitting loops: frames in order, cursors folded over them |
| `StreamLoop.PollProgress` | api/src/agentx_api/app.py:633-645 | a productive poll strictly shrinks the distance between cursors and journal |
| `StreamLoop.PollUntilIdle` | api/src/agentx_api/app.py:629-649 | from any point of a connection at which appends stop, whatever was sent, wherever the cursors stand and however many quiet polls passed: each poll sends what the ones before left unseen, and the loop ends with the 300th quiet poll in a row and no earlier; then nothing in the window is unseen and everything there the cursors did not cover has been sent |
| `StreamLoop.CursorsInJournal` | api/src/agentx_api/app.py:617-645 | the loop's assumption, that no cursor is beyond its log, holds in every state of every run |
| `StreamLoop.StreamEvents` | api/src/agentx_api/app.py:617-649 | the whole generator over a frozen journal: its snapshot, then those polls, until 300 quiet ones in a row |
| `Runs.SummarizeRun` | api/src/agentx_api/state.py:878-919 | the summarizing loop is the fold of its events |
| `Runs.SummaryMeaning` | api/src/agentx_api/state.py:878-919 | a summary has the state of the last state-bearing event, the last settlement, the count of all events and the latest timestamp |
| `Runs.StateShown` | api/src/agentx_api/state.py:888-907 | the state, event by event: running after a creation, settled, parked, or approved and pending, whichever came last; created without any |
| `Runs.CreationShown` | api/src/agentx_api/state.py:893-896 | type and trigger are the last creation's |
| `Runs.ParkShown` | api/src/agentx_api/state.py:900-903 | reason and ring are the last parking's |
| `Runs.SettlementShown` | api/src/agentx_api/state.py:897-899 | the settlement is the last one |
| `Runs.InstanceShown` | api/src/agentx_api/state.py:892 | the instance is that of the last event naming one |
| `Runs.NothingShown` | api/src/agentx_api/state.py:879-887 | without such an event the figures stay blank |
| `Runs.SummaryDetails` | api/src/agentx_api/state.py:878-919 | type and trigger come from the last creation, reason and ring from the last parking, the instance from the last event naming one |
| `Runs.RunSummaries` | api/src/agentx_api/state.py:572-581 | grouping in a dictionary, summarizing, sorting and filtering is the specified list |
| `Runs.OneSummaryPerRun` | api/src/agentx_api/state.py:573-577 | the list holds exactly one summary per run id, that of its order-preserving group |
| `Runs.RunListInOrder` | api/src/agentx_api/state.py:573-578 | for every filter: the latest updated run comes first, and of runs updated at one time the first to appear |
| `Runs.RunListOfState` | api/src/agentx_api/state.py:579-581 | a filtered list is the unfiltered one without the entries of other states, in the same order |
| `Runs.RunListConserves` | api/src/agentx_api/state.py:573-577 | the event counts of all summaries add up to the events with a run |
| `Runs.CountsPartition` | api/src/agentx_api/state.py:398-402 | live, parked and settled runs and the approved ones waiting to resume are all runs |
| `Runs.CountsMeaning` | api/src/agentx_api/state.py:398-402 | live counts created and running runs, parked the parked, settled the settled |
| `Views.RunDetailMeaning` | api/src/agentx_api/state.py:584-598 | the detail is missing exactly if the journal has no event of the run; else its timeline is the run's last 1000 events in order, its summary theirs, its settlement the first of theirs |
| `Views.ListAndDetailReadTheSame` | api/src/agentx_api/state.py:104-136 | for journals of any size, the globally sorted and cut group of a run and the run's own read are the same sequence if and only if the timestamps of the latter never run backwards and both windows hold the same events of the run, a rank test |
| `Views.SummariesAgreeIff` | api/src/agentx_api/state.py:878-919 | the summary of the sorted events is that of the appended ones if and only if the first appended has the least timestamp and, of creations, parkings, state-bearing events and settlements, the latest stamped gives the figure of the last appended |
| `Views.ListAgreesWithDetail` | api/src/agentx_api/state.py:566-598 | the run's entry in the list is the detail's summary if and only if that holds; the states alone, if and only if the latest stamped state-bearing event bears the state of the last appended one; the settlements shown, if and only if there is none or the first is also the latest stamped |
| `Views.ListedOnce` | api/src/agentx_api/state.py:573-577 | a run with events has exactly one entry in the list, that of its sorted log |
| `Views.OneSettlement` | api/src/agentx_api/state.py:587-588 | with the run's timestamps in order, the settlements agree if and only if the run settled at most once |
| `Views.ClockSkewSplitsTheViews` | api/src/agentx_api/state.py:566-598 | a concrete log with timestamps running backwards is `Running` in the list and `Settled` in the detail |
| `Views.ClockSkewMovesTheCreation` | api/src/agentx_api/state.py:566-598 | a concrete log whose views agree in state and settlement and differ in the creation time |
| `Projections.ProjectionStore.Upsert` | packages/kernel/src/agentx_kernel/stores/memory.py:65-66 | replaces one document and no other |
| `Projections.ProjectionStore.ApplyHeap` | packages/kernel/src/agentx_kernel/projections.py:57-66 | writes a settlement's facts; promotes only facts that exist |
| `Projections.ProjectionStore.ApplyResume` | packages/kernel/src/agentx_kernel/projections.py:146-178 | accumulates trust, streak and settled count; a ring change keeps the rest |
| `Projections.ProjectionStore.Apply` | packages/kernel/src/agentx_kernel/projections.py:220-222 | the fan-out commits exactly the event's writes, in projector order |
| `Projections.ProjectionStore.Rebuild` | packages/kernel/src/agentx_kernel/projections.py:224-226 | a rebuild is the replay of the instance's log |
| `Projections.CommitIsLocal` | packages/kernel/src/agentx_kernel/projections.py:47-49 | a document depends only on the writes to its own key |
| `Projections.RebuildReconstructs` | packages/kernel/src/agentx_kernel/projections.py:224-226 | a rebuild from nothing gives what the live fan-out, interleaved over all instances, built at every key only this instance writes |
| `Projections.RebuildConverges` | packages/kernel/src/agentx_kernel/projections.py:224-226 | a rebuild over the live store changes no heap, trace, watch, billing or thread document the instance owns |
| `Projections.RebuildKeepsIff` | packages/kernel/src/agentx_kernel/projections.py:224-226 | at any key outside the résumé, shared or not, a rebuild keeps the live document if and only if the instance never wrote there or its last write, on its own last full document or else the live one, gives the live one; where writes overwrite, if its last write left the same |
| `Projections.SharedThreadChangesHands` | packages/kernel/src/agentx_kernel/projections.py:181-203 | a concrete pair of instances sharing a thread key: rebuilding the first takes the document from the second |
| `Projections.SettledTwice` | packages/kernel/src/agentx_kernel/projections.py:146-178 | a concrete settlement counted twice after a rebuild over the live store |
| `Projections.ResumeRebuildIffNeverSettled` | packages/kernel/src/agentx_kernel/projections.py:146-178 | a rebuild over the live store adds the settlements and trust deltas again; it leaves the résumé alone if and only if the instance never settled |
| `Projections.BilledOnce` | packages/kernel/src/agentx_kernel/projections.py:128-138 | a run has one billing line, that of its last billed settlement, however often it settled |
| `Documents.HeapMeaning` | packages/kernel/src/agentx_kernel/projections.py:57-66 | after any log from nothing: a fact has a document once a settlement brings it; it is the fact of the last such settlement, promoted if and only if a deferred settlement names it after that one |
| `Documents.WatchMeaning` | packages/kernel/src/agentx_kernel/projections.py:99-120 | a watch has a document once registered; it is the last registration's, with the outcome of the last firing since, none without |
| `Documents.TraceMeaning` | packages/kernel/src/agentx_kernel/projections.py:69-96 | a trace document is the last system call under its event id, with a status once that is a settlement |
| `Documents.ThreadMeaning` | packages/kernel/src/agentx_kernel/projections.py:190-203 | a thread document is the last run created for an instance and entity that make up its id |
| `Documents.BillingMeaning` | packages/kernel/src/agentx_kernel/projections.py:123-138 | a billing line is the last billed settlement of the run, or of the event itself where it has no run id |
| `Documents.ResumeMeaning` | packages/kernel/src/agentx_kernel/projections.py:141-178 | a résumé has the ring last set, L0 before, the sum of all trust deltas, as streak the positive ones since the last negative one, the number of settlements, and the time it was last touched |
| `Economy.InstanceEconomyOf` | api/src/agentx_api/state.py:693-732 | the envelope loop: missing exactly without lines, else total, last currency, count, trust and newest-first ledger |
| `Economy.LedgerAddsUp` | api/src/agentx_api/state.py:700-732 | the ledger is a permutation of the instance's lines, latest time first, lines of one time as given, and adds up to the total above it |
| `Economy.LedgerEntries` | api/src/agentx_api/state.py:714-723 | each entry has the run, amount (0 if missing) and time of its line |
| `Economy.EnvelopeMeaning` | api/src/agentx_api/state.py:693-732 | an envelope is missing exactly without a line of the instance; else it has the sum and number of exactly these, the instance's trust, and the last currency they name, INR if none |
| `Economy.TrustMeaning` | api/src/agentx_api/state.py:782-788 | an instance's trust is that of its last résumé row, 0 without one |
| `Economy.GroupBilling` | api/src/agentx_api/state.py:776-780 | the dictionary holds, for every id, the lines a naive filter finds, and nothing under the empty id |
| `Economy.GroupTrust` | api/src/agentx_api/state.py:782-788 | the last résumé row of an id wins |
| `Economy.BucketInstances` | api/src/agentx_api/state.py:791-799 | buckets are the order-preserving filters by customer, in order of first appearance |
| `Economy.EconomyUnits` | api/src/agentx_api/state.py:735-842 | the rollup over pre-grouped dictionaries equals the rollup over naive filters, currency carry-over included |
| `Economy.UnitRow` | api/src/agentx_api/state.py:803-832 | the k-th row: the k-th customer, the ids of its instances in order, the sum and number of exactly the lines of these, as often as an id occurs, their trust, and the last currency its own or else the earlier units' lines name |
| `Economy.GrandTotalIsUnitTotal` | api/src/agentx_api/state.py:830-840 | the grand totals are the units' totals added up |
| `Economy.UnitRowEqualsEnvelopes` | api/src/agentx_api/state.py:814-827 | of a row as shown: billing and count are its members' envelopes added up if and only if members with an empty id have none; its trust, if and only if those members' envelopes hold as much as the never-billed members' rows |
| `Economy.UnitEqualsEnvelopes` | api/src/agentx_api/state.py:814-821 | for any members: a unit's billing and count are its members' envelopes added up if and only if members with an empty id have none; its trust, if and only if those members' envelopes hold as much as the never-billed members' rows |
| `Economy.BlankIdUncounted` | api/src/agentx_api/state.py:776-780 | a concrete line under the empty id, in its envelope and in no unit |
| `Economy.UnbilledTrustCounts` | api/src/agentx_api/state.py:697-701 | a concrete unit whose trust differs from its envelopes' |
| `Economy.CurrencyIsLast` | api/src/agentx_api/state.py:708-713 | of the currencies the lines name, the last is shown |
| `Economy.FirstCurrencyShownIff` | api/src/agentx_api/state.py:708-713 | the first named currency, or the default, is shown if and only if no line names one or the first and the last that do name the same |
| `Economy.SecondCurrencyShown` | api/src/agentx_api/state.py:708-713 | a concrete instance whose lines name dollars, then euros, shows euros |
| `Economy.UnitCurrencyIsOwnIff` | api/src/agentx_api/state.py:803-832 | a unit shows the currency it would show alone if and only if one of its lines names one or the carried-over one is the default |
| `Economy.ForeignCurrency` | api/src/agentx_api/state.py:803-832 | a concrete unit without billing that shows its predecessor's currency |
| `Economy.CustomersMeaning` | api/src/agentx_api/state.py:791-799 | each non-empty customer of some instance is listed once |
| `Economy.CustomersInOrder` | api/src/agentx_api/state.py:790-799 | in order of first appearance |
| `Economy.UnitsPartition` | api/src/agentx_api/state.py:805-810 | no instance is in two units, and the members are exactly the identified instances of the listed customers |
| `Economy.MembersAndRest` | api/src/agentx_api/state.py:776-780 | grouping by instance loses no line and no amount: members' lines and the others' make up all |
| `Economy.OverviewEqualsUnitsPlusRest` | api/src/agentx_api/state.py:388-409 | the overview's total is the units' grand total plus exactly the lines of no unit; they agree if and only if those add up to nothing |
| `Economy.RowsEqualOverviewLessRest` | api/src/agentx_api/state.py:412-428 | the rows' totals are the overview's less the lines of unregistered instances |
| `Economy.RowsMeaning` | api/src/agentx_api/state.py:388-428 | a row's total is the sum of exactly the lines of its instance; the overview's is the sum of all |
| `Economy.FourViewsAgree` | api/src/agentx_api/state.py:388-842 | when every instance has an id and a customer and every line a registered instance, all four views show one sum |
| `Slug.NormalizeNormal` | dashboard/src/components/docs/doc-viewer.tsx:31-39 | whatever the text, the chain leaves nothing or words of `a-z0-9` joined by single dashes |
| `Slug.NormalizeIsWords` | dashboard/src/components/docs/doc-viewer.tsx:31-39 | what the six steps after lower-casing compute: of the characters kept, the runs between spaces and dashes, joined by single dashes; trimming and the backtick step are absorbed |
| `Slug.BaseNormalAndFixed` | dashboard/src/components/docs/doc-viewer.tsx:31-39 | the base is in that form, and slugging a base again, at any level, changes nothing |
| `Slug.BaseCharacters` | dashboard/src/components/docs/doc-viewer.tsx:31-39 | every character of a base is a lower-case letter, a digit or a dash |
| `Slug.CaseIgnored` | dashboard/src/components/docs/doc-viewer.tsx:32 | texts that differ in the case of letters only have one base |
| `Slug.WordsJoined` | dashboard/src/components/docs/doc-viewer.tsx:36-39 | a plain word is its own base, and two words with a space, tab, line end or dash between them are joined by one dash |
| `Slug.NamelessHeading` | dashboard/src/components/docs/doc-viewer.tsx:39 | a text without letters and digits is named h1, h2, h3 or h4 |
| `Slug.SuffixText` | dashboard/src/components/docs/doc-viewer.tsx:45-46 | the suffix is a dash and the decimal number |
| `Slug.SuffixesDiffer` | dashboard/src/components/docs/doc-viewer.tsx:45-46 | different numbers give different suffixed ids |
| `Slug.Pigeonhole` | dashboard/src/components/docs/doc-viewer.tsx:45 | a taken base with n taken suffixes needs more than n taken ids |
| `Slug.TakenIds.SlugId` | dashboard/src/components/docs/doc-viewer.tsx:27-49 | returns the base if free, else the least free suffix, after at most as many tries as there are ids; adds exactly that id |
| `Slug.SlugAll` | dashboard/src/components/docs/doc-viewer.tsx:27-49 | over any headings all ids differ, and each is the slug given those before it |
| `Toasts.TruncateThenPush` | dashboard/src/components/shared.tsx:165-171 | what truncation drops before a push would be dropped after it |
| `Toasts.ShownIsLatest` | dashboard/src/components/shared.tsx:165-171 | after any pushes the list is the last `limit` of each key's latest push over the whole history |
| `Toasts.ShownIsLatestIff` | dashboard/src/components/shared.tsx:165-171 | for every limit: that holds if and only if the limit is at least 0 or there are no more keys than it is negative |
| `Toasts.LatestMember` | dashboard/src/components/shared.tsx:170 | the reference holds a push exactly if no later one has its key |
| `Toasts.LatestInOrder` | dashboard/src/components/shared.tsx:170 | in the order of these pushes |
| `Toasts.FiveShown` | dashboard/src/components/shared.tsx:168 | with the default limit the last five keys are shown |
| `Toasts.NegativeLimitForgets` | dashboard/src/components/shared.tsx:165-171 | a concrete history for limit -1 |
| `ArgDiff.SortKeys` | api/src/agentx_api/app.py:360-362 | visiting the set in any order gives its one strictly increasing list |
| `ArgDiff.SortedKeysUnique` | api/src/agentx_api/app.py:362 | a set has only one such list, so both languages visit keys in the same order |
| `ArgDiff.ArgDiffKeys` | api/src/agentx_api/app.py:350-369 | the server's loop over the sorted keys |
| `ArgDiff.DiffKeysAreDifferences` | api/src/agentx_api/app.py:350-369 | the diff's keys are strictly sorted and exactly the differing ones |
| `ArgDiff.RecordedIff` | api/src/agentx_api/app.py:350-369 | an entry is recorded exactly if it tells of a key added or removed, with null on the other side, or of one changed, with both values |
| `ArgDiff.LookalikeIff` | api/src/agentx_api/app.py:366-367 | which values Python calls equal: identical ones, containers of one content, and what counts as 0 or as 1; of these JavaScript tells all different ones apart |
| `ArgDiff.DiffRoundTrip` | api/src/agentx_api/app.py:350-369 | applying the diff to `before` gives `after`, undoing it gives `before`, and it is empty exactly when they are equal |
| `ArgDiff.PreviewDiffKeys` | dashboard/src/lib/api.ts:842-858 | the browser's loop over the sorted keys |
| `ArgDiff.PreviewRefines` | dashboard/src/lib/api.ts:834-858 | the recorded diff is the preview without its changes between values Python calls equal, if and only if no key added or removed is named like an `Object.prototype` member |
| `ArgDiff.PreviewEqualsRecordIff` | dashboard/src/lib/api.ts:834-858 | the two are equal if and only if, besides, no key's values are containers of one content, a boolean and its number, or 0 and -0 |
| `ArgDiff.OneForTrue` | dashboard/src/lib/api.ts:853-855 | changing 1 to `true` is previewed and not recorded |
| `ArgDiff.ToStringAdded` | dashboard/src/lib/api.ts:848-855 | a key named `toString` is recorded as added and previewed as changed |
| `Channels.MergeList` | scripts/discovery_report.py:120-125 | the inner loop, whose seen set is always that of the bucket |
| `Channels.LoadBuyerChannels` | scripts/discovery_report.py:108-126 | rebuilding the seen set per receipt is one pass over each candidate's concatenated lists; a candidate is listed exactly when some receipt lists it |
| `Channels.MergeDedups` | scripts/discovery_report.py:101-125 | the URL-bearing channels kept are the first of each URL over all receipts |
| `Channels.AbsentUrlsKept` | scripts/discovery_report.py:120-125 | of the channels lacking the field, exactly those before the first explicit null are kept |
| `Channels.KeptIff` | scripts/discovery_report.py:120-125 | the fate of every channel: a text is kept once, a null or absent URL until the first null, an explicit empty text once and only if no absent one was kept before it |
| `Channels.UrllessChannelsLost` | scripts/discovery_report.py:120-125 | two concrete lists that lose a channel without a URL |
| `Channels.AbsentUrlsAllKept` | scripts/discovery_report.py:120-125 | so without explicit nulls all of them are |
| `Manifest.Parse` | scripts/discovery_report.py:129-145 | the parsing loop over the chosen chunks |
| `Manifest.MatcherIsTheExpression` | scripts/discovery_report.py:139-141 | the matcher finds something if and only if the regular expression has a reading, and then a reading with the shortest name |
| `Manifest.ChunkMeaning` | scripts/discovery_report.py:139-144 | a chunk gives the trimmed parts of a shortest reading, and where there is none is a name without channels |
| `Manifest.HeaderIff` | scripts/discovery_report.py:133 | the header is cut off exactly where its regular expression matches |
| `Manifest.HeaderIgnored` | scripts/discovery_report.py:133 | its number changes nothing, and without it the body parses the same |
| `Manifest.BarsSplit` | scripts/discovery_report.py:136 | texts between bars are the chunks |
| `Manifest.ManifestRoundTrip` | scripts/discovery_report.py:129-145 | any items with newline-free, bar-free, trimmed parts, written as documented and parsed, come back unchanged, also none or one, and channels holding parentheses |
| `Manifest.CommaRoundTrip` | scripts/discovery_report.py:137-138 | names joined by commas come back as items without channels |
| `Faculty.BuildFacultyLibrary` | dashboard/src/lib/api.ts:623-657 | the nested loops over map and arrays, the fixtures and the sort give the library grouped by naive filters |
| `Faculty.LibraryMeaning` | dashboard/src/lib/api.ts:623-657 | sorted by category and name, like-named entries as met; one entry per key, used by exactly the titles binding that key; and one entry per name and version, with exactly that pair's titles in order of first occurrence, and of the fixtures the first of each unbound pair, if and only if no two different pairs given share a key, as when no name continues another with an `@` |
| `Faculty.DescribedByFirst` | dashboard/src/lib/api.ts:635-641 | the entry of a key has the name, version, category and description of its first reference, or a description made of name and version |
| `Faculty.KeyInjective` | dashboard/src/lib/api.ts:627 | two names keep their keys apart, whatever the versions, if and only if neither continues the other with an `@` |
| `Faculty.AtSignCollides` | dashboard/src/lib/api.ts:627-640 | a concrete library of one entry for two faculties, used by both titles; the second faculty has none |
| `EvalStats.ComputeMean` | dashboard/src/lib/eval-stats.ts:25-30 | the mean of the values, none for none |
| `EvalStats.SummariseEvalCases` | dashboard/src/lib/eval-stats.ts:36-98 | the single pass with its per-origin records equals the statistics by filtering |
| `EvalStats.CountsMeaning` | dashboard/src/lib/eval-stats.ts:57-78 | each count counts the cases of its promotion or origin, a missing origin as synthetic |
| `EvalStats.AveragesMeaning` | dashboard/src/lib/eval-stats.ts:25-30 | each average is the sum of the scores over their number; there is none exactly where no case has a score |
| `EvalStats.StatsAreConsistent` | dashboard/src/lib/eval-stats.ts:36-98 | origin counts add up to the total, and the overall mean is the per-origin means weighted by their scored counts |
| `EvalStats.TimelineKeepsScores` | dashboard/src/lib/eval-stats.ts:80-86 | the timeline is the scores of the cases in id order, equal ids in their given order, none lost or repeated |
| `EvalStats.ScaffoldIff` | dashboard/src/lib/eval-stats.ts:105-134 | each state of the gate, by the number of cases that are not synthetic; the default threshold is 100 |
| `EvalStats.CompilerNeverFallsBack` | dashboard/src/lib/eval-stats.ts:105-134 | more cases never move the gate back, for any threshold, and it is blocked exactly while there are cases and all are synthetic |

## Left out

- The gateway, scheduler, settlement, control and run loop: only the events they append matter here.
- HTTP, server-sent-event framing, heartbeats, authentication, database drivers; a frame is an event or malformed.
- A frame lost in flight when a connection breaks: the model sees it as a disconnect before that frame.
- React rendering, hooks and timers; of toasts, their dismissal and the timers behind it.
- `/commands/*` beyond the edit diff, approval cards, manual queue, capability rows, instance memory, demo seeding: wiring.
- Fields that no modelled reader looks at: events carry the rest as abstract content, `RunHydrated` and the display strings of a timeline are not modelled.
- Rounding and overflow of floats: amounts and scores are reals. Time zones: timestamps are integers, and `updated_at`, which the source compares as ISO text, is compared as a time.
- `localeCompare` and UTF-16 order: strings are compared by code point. `toLowerCase` beyond ASCII and Unicode digits in `\d`: ASCII only; white space follows each language's `\s`.
- An explicit null where the source calls `str(...)` on an id or customer, which gives the text "None".
- When a duplicate-key error says nothing about its index the source guesses from its text; the model lets an insert rejected by both indexes be reported as either.
- `Manifest.CommaRoundTrip`: names must hold no comma, bar or literal `(channels`, which the format has no way to escape.
- The projectors' liveness field values that are constants (`kind`, `description`, empty histories).
- `Views.ListAgreesWithDetail`: assumes that no limit of 1000 cuts an event of the run, a rank test; what the two views read otherwise is stated by `Views.ListAndDetailReadTheSame`. `Views.ListedOnce` assumes the same.
- Numbers beyond double precision in edited arguments, which Python keeps apart and JavaScript rounds together; a container's content is taken up to Python's equality.
- `Reconnect.ExactlyOnceAcrossReconnects`: a sufficient condition over whole runs; the exact condition is stated for each event and connection by `Delivery.FirstReadDecides` and `Snapshot.SnapshotDecides`.
- `StreamLoop.PollUntilIdle`: from where it starts nobody appends or registers an instance; while appends go on the loop need not end, and `Delivery` covers those runs.
- `Manifest.ManifestRoundTrip`: names must not hold the literal `(channels:`, which the format has no way to escape.
