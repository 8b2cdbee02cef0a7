# Benchmark fixtures, verified

A Dafny model of the stateful and algorithmic code of the benchmark suite and of two example
readers, with proofs of what that code is relied upon for.

- `Store.dfy` – the two compare-and-swap record stores and the text store's append log.
- `Clients.dfy` – any number of clients sharing a store; no accepted change is ever lost.
- `Counting.dfy` – the counting wrapper and its cache of last landed writes.
- `StepJob.dfy` – the step job: its rendezvous channel, its loop, and its two ways of being durable.
- `RigView.dfy`, `Correlation.dfy`, `Sockets.dfy` – the Tier-2 parent/child protocol, the request
  tables of the rig and of the thread pool, and the child's socket accounting.
- `OrderStats.dfy`, `Compare.dfy`, `AbVerdict.dfy`, `Markdown.dfy` – from samples to medians, to
  comparisons, to A/B verdicts, to a report of bounded length.
- `Sorting.dfy` – stable sorting by a total preorder, which statistics and report share.
- `Histogram.dfy`, `Slope.dfy`, `Edges.dfy` – reservoir sampling, the heap slope, load-balancer
  edges and the strided visit.
- `Exposition.dfy`, `Follow.dfy` – the Prometheus text reader (exposition format version 0.0.4,
  "Text format details") against a printer of that format, and the NDJSON stream reader.
- `Common.dfy` – optional values, the JSON codec, joined sequences, sums, quotients, lines of text.

Stateful code is modelled as classes whose methods are proved against functions on values: the stores
against `RecordStore.Step` and `TreeStep`, the counting wrapper against `Counting.Advance`, the
reservoir against `Histogram.Record`, a rig member and the pool against `Correlation.Next` and
`PoolNext`, the socket accounting against `Sockets.Next`. The step channels are proved against
`StepJob.Deliver`, `Next` and `Settle`, and the two ends of the rig against `RigView.Broadcast`,
`Invoke`, `TaskFor`, `Rpc` and `Handle`; the runs of `StepJob.Move1` and `RigView.Next` are put
together from these same functions. The main theorems are about every run.
`dafny verify dfyconfig.toml` checks everything.

## Where the code falls short of its comments

The model follows the code. Each difference is stated with the exact condition under which the
promise is kept, and with inputs that break it.

- The change table's closing note calls the rows it cuts smaller moves. They are no more severe, but
  they are smaller moves only if the verdicts' groups are in order (`Markdown.NoteHoldsIff`,
  `Markdown.CutCanBeABiggerMove`).
- The report is said to be built so that its headline always fits. It stays within its limit exactly
  under the condition of `Markdown.ReportFitsIff`; a headline that leaves less room is not cut
  (`Markdown.HeadlineCanOverrun`).
- A metric is meant to be judged when every round matched it. It is judged when its surplus matches
  equal its missed rounds (`AbVerdict.JudgedIffSurplusIsMissed`), so a name repeated within a round
  can make up for a missing round or unseat a metric that no round missed
  (`AbVerdict.JudgedAsMeantIff` and the two lemmas after it).
- A reported last write is meant to be one the store holds. That is so for all runs over given types
  exactly if no two of the types clash in their record ids (`Counting.ReportHoldsIffNoClash`), which
  takes a NUL inside a type (`RecordStore.NulFreeTypesNeverClash`).
- The pool means to settle every call. One made after `close` is not settled by a worker's exit
  (`Correlation.CallIsSettledIff`, `Correlation.ExitSettlesCallIffNeverClosed`).
- A label value with a carriage return, U+2028 or U+2029 and a label called `__proto__` do not
  survive the exposition reader; everything else does (`Exposition.RoundTripIff`).

## Limits of the code that its comments do not deny

- The wider of the two spreads protects a verdict from the current run's own scatter only where the
  current median is not zero and no further from zero than the baseline
  (`Compare.CurrentIsGuardedIff`).
- Flipping a metric's direction mirrors its verdict unless just one of the two middle deltas clears
  the floor, which takes an even number of rounds; the lower-middle median then favours regressions
  (`AbVerdict.FlipMirrorsIff`).
- One round cannot tell drift from effect (`AbVerdict.OneRoundIsFooled`).
- While the rig starts, its newest child can hold a stale view with nothing in flight
  (`RigView.NewestChildCanBeStale`); every other child converges (`RigView.RigConverges`).

## Model

| member | source | states |
|---|---|---|
| `RecordStore.StringifyStorage.constructor` | benchmarks/src/host-fixture.ts:100-104 | a new tree store is empty and its counter is at zero |
| `RecordStore.StringifyStorage.Load` | benchmarks/src/host-fixture.ts:106-109 | the parsed record with its etag, absent, or the exception of a malformed text; the store is untouched |
| `RecordStore.StringifyStorage.Save` | benchmarks/src/host-fixture.ts:110-118 | accepted only under the current etag (`null` for no record), and then under the next counter value; otherwise a conflict and no change at all |
| `RecordStore.StringifyStorage.Clear` | benchmarks/src/host-fixture.ts:119-126 | removes the record only under its current etag, clears an absent one under `null`; otherwise a conflict and no change |
| `RecordStore.TextStorage.constructor` | benchmarks/src/host-fixture.ts:142-149 | a new text store is empty and its counter is at zero |
| `RecordStore.TextStorage.Load` | benchmarks/src/host-fixture.ts:167-176 | state, etag and the parsed log; one malformed entry makes the whole load throw |
| `RecordStore.TextStorage.SaveText` | benchmarks/src/host-fixture.ts:151-164 | compare-and-swap of the text, emptying the log; a conflict changes nothing, not even the counter |
| `RecordStore.TextStorage.Save` | benchmarks/src/host-fixture.ts:177-178 | the same for a state, through its text |
| `RecordStore.TextStorage.AppendText` | benchmarks/src/host-fixture.ts:180-187 | appends one entry under the current etag and issues a new one; absent record or stale etag is a conflict |
| `RecordStore.TextStorage.Clear` | benchmarks/src/host-fixture.ts:188-195 | removes record and log under the current etag, clears an absent record under `null`, otherwise a conflict; the counter goes on |
| `RecordStore.ShareAnIdIffClash` | benchmarks/src/host-fixture.ts:149 | records of two types can share an id if and only if one type with the separator after it is a prefix of the other |
| `RecordStore.IdInjective` | benchmarks/src/host-fixture.ts:149 | where two types do not clash like that, their records share an id only if they are the same record |
| `RecordStore.NulFreeTypesNeverClash` | benchmarks/src/host-fixture.ts:149 | types without NUL never clash |
| `RecordStore.EtagInvariants` | benchmarks/src/host-fixture.ts:151-195 | over every run: live records carry distinct etags, issued etags increase, a consumed etag names no live record and is never consumed again |
| `RecordStore.EtagsNeverReissued` | benchmarks/src/host-fixture.ts:158-163 | no etag is issued twice, across all keys and clears |
| `RecordStore.OneWritePerEtag` | benchmarks/src/host-fixture.ts:151-195 | at most one save, append or clear is accepted per numeric etag in a whole run |
| `RecordStore.LogIsEntriesSinceLastSave` | benchmarks/src/host-fixture.ts:151-195 | the record is the last full save that still stands, and the log is exactly the entries accepted since, in order; no record means no save since the last clear |
| `RecordStore.RecordIsItsHistory` | benchmarks/src/host-fixture.ts:151-195 | for every run and record: the store holds exactly what the answers so far say of it |
| `RecordStore.AnswersFollowFromHistory` | benchmarks/src/host-fixture.ts:151-195 | every answer of every run: a load gets the record of the history; a save or clear is accepted exactly under the etag the history leaves current, an append only if there is a record as well; an issued etag is the next in order |
| `RecordStore.EffectsFollowFromHistory` | benchmarks/src/host-fixture.ts:151-195 | what each accepted command leaves: the saved text with an empty log, one entry more, or no record; a load, a conflict and every other record change nothing |
| `RecordStore.StepsAgree` | benchmarks/src/host-fixture.ts:100-197 | one load, save or clear: both stores move to matching states with the same answer |
| `RecordStore.ArmsAgree` | benchmarks/src/host-fixture.ts:100-197 | restricted to load, save and clear, the two stores answer every command of every run alike: results, conflicts and etags |
| `RecordStore.ParseAllFails` | benchmarks/src/host-fixture.ts:167-176 | one malformed entry makes the log malformed |
| `RecordStore.ParseAllIff` | benchmarks/src/host-fixture.ts:167-176 | a log is read entry by entry in order, and can be read exactly if every entry can |
| `Clients.ReadAppended` | benchmarks/src/host-fixture.ts:180-187 | loading after an append gives the previous state, the previous log and the one new entry |
| `Clients.WrittenValue` | benchmarks/src/host-fixture.ts:151-195 | an accepted command leaves the record holding exactly the value its client computed |
| `Clients.RunOk` | benchmarks/src/host-fixture.ts:151-195 | the invariant over every interleaving: each record folds to its accepted changes, and a client whose etag is current remembers the value right |
| `Clients.NoLostUpdate` | benchmarks/src/host-fixture.ts:151-195 | after any interleaving of any number of clients that load, save, append, rewrite and clear, a record folds to exactly the changes accepted since its last clear, in order |
| `Clients.AcceptedIffUpToDate` | benchmarks/src/host-fixture.ts:151-195 | an action is accepted exactly if its client presents the current etag, an append only on a record; it joins the accepted changes of its record and of no other, and otherwise nothing happens |
| `Clients.FreshClientIsAccepted` | benchmarks/src/host-fixture.ts:151-195 | whatever went before, a client that has just loaded the record gets its change accepted |
| `Clients.CounterIsSumOfAccepted` | benchmarks/src/host-fixture.ts:151-195 | a shared counter equals the sum of the accepted additions since its last clear |
| `Clients.FoldIsRows` | benchmarks/src/job-fixtures.ts:138-141 | folding rows with `apply` rebuilds exactly the rows |
| `Clients.RowsAreTheAcceptedRows` | benchmarks/src/job-fixtures.ts:87-157 | by whole checkpoints or by appended rows, a load yields exactly the accepted rows |
| `Counting.CountingStorage.Load` | benchmarks/src/host-fixture.ts:281-351 | one more load counted, the inner result unchanged |
| `Counting.CountingStorage.Save` | benchmarks/src/host-fixture.ts:281-351 | the inner answer is passed on, one more save counted, and a landed write queues its continuation |
| `Counting.CountingStorage.Clear` | benchmarks/src/host-fixture.ts:281-351 | the same for a clear, whose continuation forgets only a write of that very key |
| `Counting.CountingStorage.SaveText` | benchmarks/src/host-fixture.ts:281-351 | the same for a text save, counted as a save |
| `Counting.CountingStorage.AppendText` | benchmarks/src/host-fixture.ts:340-348 | the same for an append: forwarded as one, counted as one, and nothing is remembered |
| `Counting.CountingStorage.RunContinuation` | benchmarks/src/host-fixture.ts:281-351 | the oldest continuation updates the cache |
| `Counting.CountingStorage.LastWrite` | benchmarks/src/host-fixture.ts:281-351 | the text of the remembered write, if one is remembered |
| `Counting.CountingStorage.ResetCounts` | benchmarks/src/host-fixture.ts:281-351 | all counts to zero and the cache emptied; pending continuations still run |
| `Counting.WrapperIsTransparent` | benchmarks/src/host-fixture.ts:281-351 | every run through the wrapper gives the same answers and the same inner state as the bare store, whenever the continuations run |
| `Counting.CountersCountCalls` | benchmarks/src/host-fixture.ts:286-349 | after every run each counter is the number of calls of its kind since the last reset, rejected ones included, a text save counting as a save |
| `Counting.ReportedAlways` | benchmarks/src/host-fixture.ts:281-351 | at every moment of every run that names no two clashing types: what the cache will report once its queue has drained is held by the inner store |
| `Counting.LastWriteIsHeld` | benchmarks/src/host-fixture.ts:281-351 | for every such run: with the queue drained, a reported last write is the text the inner store holds under that type now |
| `Counting.ReportHoldsIffNoClash` | benchmarks/src/host-fixture.ts:281-351 | over all runs that name only the given types, the report can be relied upon if and only if no two of them clash |
| `Counting.LandedWriteIsReported` | benchmarks/src/host-fixture.ts:281-351 | the converse, over any number of further steps: a save that lands is what is reported once the queue has drained, until another write of its type lands, it is cleared, or the counts are reset |
| `Counting.LastWriteFromHistory` | benchmarks/src/host-fixture.ts:281-351 | the reported last write at any moment of any run: among the continuations run since the last reset, the last that remembers a write of the type, unless a later one forgets that record |
| `Counting.StaysReported` | benchmarks/src/host-fixture.ts:281-351 | a remembered write stays the reported one through any sequence of steps that do none of these |
| `Counting.SaveIsReported` | benchmarks/src/host-fixture.ts:281-351 | a save that lands is what the drained cache reports |
| `Counting.ClashBreaksTheReport` | benchmarks/src/host-fixture.ts:281-351 | for every two clashing types there is a run that names only them and ends with a report the store does not hold |
| `StepJob.Channels.GetChannel` | benchmarks/src/job-fixtures.ts:45-52 | the channel of a key, created empty on first use; other keys untouched |
| `StepJob.Channels.DeliverTo` | benchmarks/src/job-fixtures.ts:54-59 | the oldest waiter gets the command, else it is queued last |
| `StepJob.Channels.NextCommand` | benchmarks/src/job-fixtures.ts:61-66 | the oldest queued command, else the caller parks |
| `StepJob.Channels.SendStep` | benchmarks/src/job-fixtures.ts:71-76 | the acknowledgement is registered before the command is delivered |
| `StepJob.Channels.SendStop` | benchmarks/src/job-fixtures.ts:79-81 | a stop is delivered without an acknowledgement |
| `StepJob.Channels.Acknowledge` | benchmarks/src/job-fixtures.ts:105-106 | the oldest acknowledgement is resolved |
| `StepJob.Channels.ResetStepChannel` | benchmarks/src/job-fixtures.ts:83-85 | the key's channel is forgotten, the others are not |
| `StepJob.WriteHolds` | packages/actors/src/host/activation.ts:2152-2175 | the job's durable write, whole or appended, is never refused and leaves exactly its rows in the record |
| `StepJob.JobInvariant` | benchmarks/src/job-fixtures.ts:87-157 | over every interleaving of driver and job: channel, loop position, record and acknowledgements agree |
| `StepJob.TakenInDeliveryOrder` | benchmarks/src/job-fixtures.ts:45-66 | the k-th command taken is the k-th delivered, and there are never both queued commands and parked waiters |
| `StepJob.AckMeansDurable` | benchmarks/src/job-fixtures.ts:71-110 | the k-th `sendStep` resolves k-th, and then a load returns exactly the first k rows |
| `StepJob.ArmsHoldTheSameRows` | benchmarks/src/job-fixtures.ts:87-157 | after equally many acknowledged steps the two arms' records fold to the same rows |
| `StepJob.ResultIsStepsBeforeStop` | benchmarks/src/job-fixtures.ts:87-110 | the run returns the number of steps delivered before the first stop |
| `StepJob.DeliveredIsDriven` | benchmarks/src/job-fixtures.ts:71-81 | what arrives in the channel is exactly what the driver sent, in order |
| `StepJob.ParkedJobIsWoken` | benchmarks/src/job-fixtures.ts:54-66 | a poll that finds nothing parks the job; the next command sent wakes it and is taken at once |
| `StepJob.StopEndsTheRun` | benchmarks/src/job-fixtures.ts:92-108 | the run does return: for every run in which a stop was sent after n steps, enough further rounds of the loop end it with the result n and exactly n steps acknowledged |
| `StepJob.EveryStepIsAcknowledged` | benchmarks/src/job-fixtures.ts:92-108 | and for every run without a stop, enough further rounds acknowledge every step that was sent |
| `StepJob.EachArmWritesItsForm` | benchmarks/src/job-fixtures.ts:87-157 | for every run: the whole arm holds one checkpoint of all landed rows, the appending arm a checkpoint of the first and one entry for each other |
| `StepJob.TheKthTakeGetsTheKthPut` | benchmarks/src/job-fixtures.ts:45-66 | with any number of consumers: the k-th call of nextCommand receives the k-th command delivered, whichever comes first |
| `StepJob.ParkedMeansAllAcknowledged` | benchmarks/src/job-fixtures.ts:71-110 | while the job is parked every `sendStep` ever made has resolved |
| `RigView.ChildProcess.CallStore` | benchmarks/src/tier2/child.ts:87-96 | a fresh id, registered as pending, goes out with the operation |
| `RigView.ChildProcess.OnMessage` | benchmarks/src/tier2/child.ts:317-333 | a view replaces the cached one; a reply settles its own RPC only, and a refresh result becomes the cached view; an unknown id is dropped |
| `RigView.Parent.BroadcastView` | benchmarks/src/tier2/rig.ts:262-269 | the hub's view is appended to the channel of every registered child still connected |
| `RigView.Parent.ReceiveStore` | benchmarks/src/tier2/rig.ts:210-258 | the operation runs on the child's own provider; exactly one answer is owed for it |
| `RigView.Parent.SendReply` | benchmarks/src/tier2/rig.ts:210-232 | the reply goes to its child, followed by a broadcast if the operation was a membership one |
| `RigView.Parent.Fork` | benchmarks/src/tier2/rig.ts:120-130 | a new channel and provider, not yet registered |
| `RigView.Parent.Register` | benchmarks/src/tier2/rig.ts:103-174 | the broadcast precedes the registration |
| `RigView.HubIsItsHistory` | packages/actors/src/cluster/memory.ts:101-125 | for every run: the hub lists exactly the hosts that joined and have not left, each with the last status its own child set, and its version counts the changes |
| `RigView.OperationsArriveInOrder` | benchmarks/src/tier2/child.ts:87-96 | for every run: a child's operations reach the hub in the order in which it called them, none lost and none twice |
| `RigView.AnswersAreThoseDue` | benchmarks/src/tier2/rig.ts:210-258 | for every run: every reply on its way is the one due for an RPC of that child, and a refresh carries the hub's view at its invocation |
| `RigView.AlwaysConserved` | benchmarks/src/tier2/child.ts:87-96 | for every run, child and id: a connected child's pending RPC is in flight exactly once, a settled one not at all |
| `RigView.QuietMeansAnswered` | benchmarks/src/tier2/child.ts:87-96 | a connected child with empty channels and no answer owed has no pending RPC |
| `RigView.AlwaysConverging` | benchmarks/src/tier2/rig.ts:210-269 | for every run: unless a broadcast is owed, a covered connected child's channel ends in the hub's current view |
| `RigView.DeliveredMeansCurrent` | benchmarks/src/tier2/rig.ts:210-269 | once a covered connected child's messages are delivered and no membership reply is owed, its cached view is the hub's |
| `RigView.WhoIsCovered` | benchmarks/src/tier2/rig.ts:103-116 | all registered children but the newest are covered by a broadcast during startup, all of them once the rig is up |
| `RigView.RigConverges` | benchmarks/src/tier2/rig.ts:103-116 | a connected child with nothing left to deliver holds the hub's current view: every child once the rig is up, every child but the newest while it starts |
| `RigView.ComesToRest` | benchmarks/src/tier2/rig.ts:210-269 | from every state of every run, delivering alone leads to one with nothing asked, owed or undelivered |
| `RigView.AtRestAllIsAnswered` | benchmarks/src/tier2/rig.ts:103-116 | and there, with the rig up, every connected child has all its RPCs answered and holds the hub's current view |
| `RigView.StartupGoesOn` | benchmarks/src/tier2/rig.ts:103-174 | children are forked and registered in turn, and the rig comes up once all are, covering them all |
| `RigView.NewestChildCanBeStale` | benchmarks/src/tier2/rig.ts:103-174 | during startup the newest registered child can hold a stale view with nothing in flight |
| `Correlation.Member.Request` | benchmarks/src/tier2/rig.ts:180-208 | a waiter under the expected key and an armed timer |
| `Correlation.Member.RequestWithId` | benchmarks/src/tier2/rig.ts:271-313 | each later request takes a fresh id and the next request number |
| `Correlation.Member.OnReply` | benchmarks/src/tier2/rig.ts:141-178 | the waiter of the reply's key is settled and its timer cleared; no waiter, no effect |
| `Correlation.Member.OnTimer` | benchmarks/src/tier2/rig.ts:180-208 | a timeout removes its own waiter and settles its request |
| `Correlation.Member.Abort` | benchmarks/src/tier2/rig.ts:135-150 | a child's failure settles every waiting request |
| `Correlation.Member.OnStop` | benchmarks/src/tier2/rig.ts:304-312 | stopping only raises the flag; the stop requests are ordinary ones |
| `Correlation.Member.OnExit` | benchmarks/src/tier2/rig.ts:152-154 | an exit is a failure only while the rig is not stopped |
| `Correlation.AlwaysAgrees` | benchmarks/src/tier2/rig.ts:132-208 | for every run: entry present, timer armed and request unsettled are the same thing, and no two requests share a key |
| `Correlation.SettledAtMostOnce` | benchmarks/src/tier2/rig.ts:132-208 | one event settles exactly the requests that wait for that reply, that own that timer, or all of them on a failure; none was settled before |
| `Correlation.AskWaitsForItsReply` | benchmarks/src/tier2/rig.ts:180-208 | a request waits under its reply type and the next id, with its timer armed, and disturbs no other one |
| `Correlation.ReplySettlesItsRequest` | benchmarks/src/tier2/rig.ts:141-151 | the reply of a waiting request settles it, and nothing else |
| `Correlation.RequestSettledForGood` | benchmarks/src/tier2/rig.ts:132-208 | a settled request stays settled the same way |
| `Correlation.StartedIsAskedAfterReady` | benchmarks/src/tier2/rig.ts:156-168 | the boot asks for `ready` once, and for `started` only after that was answered |
| `Correlation.LateReplySettlesNothing` | benchmarks/src/tier2/rig.ts:132-208 | a late or duplicate reply changes nothing |
| `Correlation.FailureSettlesEverything` | benchmarks/src/tier2/rig.ts:132-208 | after a failure nothing waits and no timer is armed |
| `Correlation.ExitSettlesIffRunning` | benchmarks/src/tier2/rig.ts:152-154 | a child's exit leaves nothing waiting if and only if the rig was not stopped, or nothing was waiting |
| `Correlation.ThreadPool.Run` | benchmarks/src/thread-pool.ts:83-99 | the next id is returned, the next worker in turn is used; a post that throws rejects the call and drops its entry |
| `Correlation.ThreadPool.FailPending` | benchmarks/src/thread-pool.ts:53-58 | every pending call is rejected |
| `Correlation.ThreadPool.OnMessage` | benchmarks/src/thread-pool.ts:61-66 | the call of that id is resolved with the value of the message; an unknown id is ignored |
| `Correlation.ThreadPool.OnExit` | benchmarks/src/thread-pool.ts:71-74 | a worker's exit fails the pending calls unless the pool is closed |
| `Correlation.ThreadPool.CloseAll` | benchmarks/src/thread-pool.ts:100-108 | marks the pool closed and fails what is pending |
| `Correlation.PoolAlwaysOk` | benchmarks/src/thread-pool.ts:38-110 | for every run: each call ever made is either pending or settled, never both |
| `Correlation.SettledForGood` | benchmarks/src/thread-pool.ts:38-110 | a settled call stays settled the same way |
| `Correlation.CloseSettlesEarlierCalls` | benchmarks/src/thread-pool.ts:100-108 | whatever follows, every call made before `close` is settled |
| `Correlation.CallIsSettledIff` | benchmarks/src/thread-pool.ts:38-110 | for every run: a posted call is settled if and only if, after it, its own message arrived, a worker failed, the pool was closed, or a worker exited while the pool was open |
| `Correlation.OutcomeIsTheFirstToSettle` | benchmarks/src/thread-pool.ts:53-99 | for every run: a posted call is resolved with v if and only if the first event that settles it is its message carrying v, and rejected if and only if that is a worker's error, a close, or an exit while open |
| `Correlation.ThrownPostIsRejected` | benchmarks/src/thread-pool.ts:87-98 | a call whose post throws is rejected at once and for good, and never pending |
| `Correlation.IdsCountCalls` | benchmarks/src/thread-pool.ts:83-84 | the calls are numbered in the order they are made |
| `Correlation.ExitSettlesCallIffNeverClosed` | benchmarks/src/thread-pool.ts:71-99 | so a worker's exit settles a call just posted if and only if the pool was never closed: a late call can hang |
| `Correlation.RoundRobin` | benchmarks/src/thread-pool.ts:83-99 | call k goes to worker k modulo the size |
| `Sockets.SocketStats.OnConnection` | benchmarks/src/tier2/child.ts:168-189 | a new live socket, the peak raised if needed |
| `Sockets.SocketStats.OnClose` | benchmarks/src/tier2/child.ts:168-189 | the socket's bytes move into the totals |
| `Sockets.SocketStats.Snapshot` | benchmarks/src/tier2/child.ts:207-229 | totals plus the in-flight sockets' own counters |
| `Sockets.SocketStats.ResetStats` | benchmarks/src/tier2/child.ts:374-390 | the rebase: totals start at minus what the live sockets have counted so far |
| `Sockets.ReportedIsWindowTraffic` | benchmarks/src/tier2/child.ts:168-229 | for every run: reported bytes are exactly the traffic since the last reset, sockets that straddle it included |
| `Sockets.NowIsOpenSockets` | benchmarks/src/tier2/child.ts:168-189 | `concurrentNow` is the number of open sockets |
| `Sockets.PeakIsWindowMaximum` | benchmarks/src/tier2/child.ts:374-390 | `concurrentPeak` is the maximum of open sockets over the window since the last reset, attained in it |
| `Sockets.AcceptedIsConnects` | benchmarks/src/tier2/child.ts:176-180 | `accepted` is the number of sockets connected since the last reset |
| `StableSort.SortBySorts` | benchmarks/src/markdown.ts:288-291 | sorting by a total preorder gives a sorted rearrangement |
| `StableSort.SortByStable` | benchmarks/src/markdown.ts:288-291 | elements that tie keep the order they had |
| `OrderStats.SortSorts` | benchmarks/src/runner.ts:34-47 | sorting gives a sorted rearrangement |
| `OrderStats.SortOrderFree` | benchmarks/src/runner.ts:34-47 | the order of the values does not matter |
| `OrderStats.RankCounts` | benchmarks/src/runner.ts:34-47 | how many values reach, and how many pass, the k-th smallest |
| `OrderStats.KthByCounts` | benchmarks/src/runner.ts:34-47 | the k-th smallest value is the one that at most k values fall below and more than k do not exceed, and no other is |
| `OrderStats.MediansByCounts` | benchmarks/src/runner.ts:34-41 | the median is the average of the two middle values, which are one for an odd count |
| `OrderStats.QuantileByCounts` | benchmarks/src/runner.ts:43-47 | a quantile is the one value that at least that fraction does not exceed while fewer lie below it |
| `OrderStats.NegatedMedian` | benchmarks/src/ab-verdict.ts:118-122 | negation turns the lower-middle median into the upper-middle one |
| `OrderStats.MediansOrdered` | benchmarks/src/ab-verdict.ts:118-122 | the two medians are ordered, and equal for an odd count |
| `OrderStats.MedianWithinRange` | benchmarks/src/runner.ts:34-41 | the averaged median lies within the range |
| `Compare.NamedOnce` | benchmarks/src/runner.ts:49-66 | each name is listed once, exactly if some metric carries it |
| `Compare.Aggregate` | benchmarks/src/runner.ts:49-99 | one summary per metric name, in order of first appearance, over all its values in run order |
| `Compare.ValuesByPlace` | benchmarks/src/runner.ts:49-66 | the values of a name are those of all its metrics in their order, and its first metric decides unit, direction and flags |
| `Compare.NamesByFirstAppearance` | benchmarks/src/runner.ts:49-66 | the names stand in the order in which they first appear |
| `Compare.SummaryMeans` | benchmarks/src/runner.ts:68-92 | a summary: the samples, their smallest and largest, and the average of the two middle ones |
| `Compare.SpreadMeans` | benchmarks/src/runner.ts:82-92 | its spread times the median is the dispersion, and it is zero for a median of zero |
| `Compare.DispersionMeans` | benchmarks/src/runner.ts:82-83 | the dispersion is the full range below eight samples, and from eight on the distance between the quartiles |
| `Compare.CompareRuns` | benchmarks/src/report.ts:276-326 | the judged comparisons, in scenario and metric order, and exactly the regressed ones among them |
| `Compare.RowsInOrder` | benchmarks/src/report.ts:285-295 | every metric of every scenario that did not fail has its row, in order, and there are no others |
| `Compare.BaselineIsTheLastOfItsName` | benchmarks/src/report.ts:282-294 | a row is matched with the last metric of its name in the last scenario of its name, and with nothing if there is none |
| `Compare.RegressionsInOrder` | benchmarks/src/report.ts:317 | the regressions are the regressed rows, each in its place |
| `Compare.NewIffNoBaseline` | benchmarks/src/report.ts:171-182 | a row is new if and only if it has no baseline entry |
| `Compare.ExactVerdictMeans` | benchmarks/src/report.ts:202-211 | an exact row is called at any difference, regressed exactly if the current value is the worse one |
| `Compare.TimingVerdictMeans` | benchmarks/src/report.ts:221-248 | a timing against a positive baseline: unchanged within the floor or the threshold, inconclusive within either spread, and beyond them called by its direction |
| `Compare.InformationalIsUnchanged` | benchmarks/src/report.ts:212-220 | an informational row is never called |
| `Compare.VerdictWithoutPercentage` | benchmarks/src/report.ts:224-240 | against a baseline at or below zero only the floor applies, and the direction decides |
| `Compare.CalledByDirection` | benchmarks/src/report.ts:165-249 | every called row is regressed if and only if its current value is the worse one in its own direction |
| `Compare.DeltaMeans` | benchmarks/src/report.ts:184-248 | where a row has a delta, it is the improvement as a fraction of the baseline |
| `Compare.CalledBeatsNoise` | benchmarks/src/report.ts:184-248 | a called timing moved by more than either run's noise |
| `Compare.CalledIsOutsideBaseline` | benchmarks/src/report.ts:165-249 | a called timing's median lies strictly outside the baseline's whole range, for fewer than 8 baseline samples |
| `Compare.CalledIsOutsideCurrent` | benchmarks/src/report.ts:165-249 | and, when the current median is not zero and no further from zero than the baseline, the baseline median lies outside the current range, for fewer than 8 current samples |
| `Compare.CalledIffMoved` | benchmarks/src/report.ts:202-248 | a timing is called if and only if its move passes the floor, the threshold and both runs' noise |
| `Compare.CurrentIsGuardedIff` | benchmarks/src/report.ts:165-249 | for every baseline, median and threshold, that guard is exact: the range of the current run protects every verdict if and only if the guard holds or the move is too small to be called at all |
| `Compare.ReachingIsCalled` | benchmarks/src/report.ts:165-249 | the failing inputs: for a median above the baseline, of zero, or below minus the baseline, three samples that reach the baseline and are called |
| `Compare.DriftSilencesTimings` | benchmarks/src/report.ts:306-315 | where the probe moved by more than a twentieth no timing is called, exact metrics keep their verdict, nothing else changes |
| `Compare.SteadyMachineKeepsVerdicts` | benchmarks/src/report.ts:297-315 | and where it did not, every row keeps its verdict |
| `AbVerdict.TimingVerdictOrderFree` | benchmarks/src/ab-verdict.ts:132-161 | a timing verdict is unchanged by any reordering of the rounds |
| `AbVerdict.ExactVerdictOrderFree` | benchmarks/src/ab-verdict.ts:132-161 | and so is an exact row's |
| `AbVerdict.CalledMeansHalfTheRounds` | benchmarks/src/ab-verdict.ts:132-161 | called: every round moved that way and at least half of them by max(3%, both spreads) |
| `AbVerdict.CalledIff` | benchmarks/src/ab-verdict.ts:132-161 | a timing is called if and only if both sides are close, every round moved that way, and enough of them by the floor or more, counted exactly |
| `AbVerdict.NoisyIffASideIsNotClose` | benchmarks/src/ab-verdict.ts:124-147 | a timing is noisy if and only if on one side two values differ, by more than a tenth of the smaller or with one not positive |
| `AbVerdict.FloorMeans` | benchmarks/src/ab-verdict.ts:156-158 | the floor is the largest of 3% and the two spreads |
| `AbVerdict.ExactRowMeans` | benchmarks/src/ab-verdict.ts:133-144 | an exact row is nondeterministic exactly if a side varies, and otherwise regressed exactly if the head is the worse one |
| `AbVerdict.OtherVerdicts` | benchmarks/src/ab-verdict.ts:132-161 | a row is info exactly if it is informational; a timing is noisy, called, or shows no change |
| `AbVerdict.FlipMirrorsIff` | benchmarks/src/ab-verdict.ts:118-161 | flipping the direction mirrors a timing verdict if and only if the series is not lopsided: quiet sides, one sign, and just one of the two middle deltas clearing the floor; where it is lopsided, both verdicts are given |
| `AbVerdict.OddRoundsMirror` | benchmarks/src/ab-verdict.ts:118-161 | for an odd number of rounds the verdict always mirrors |
| `AbVerdict.EvenRoundsNeedNotMirror` | benchmarks/src/ab-verdict.ts:118-161 | two rounds whose regression has no improvement for its mirror image, and whose flip is an unchanged row with a regression for its own |
| `AbVerdict.OppositeDirectionNegatesDelta` | benchmarks/src/report.ts:184-200 | opposite directions give opposite deltas |
| `AbVerdict.BuildReport` | benchmarks/src/ab-verdict.ts:178-249 | a verdict for exactly the metrics with as many matches as rounds, on all their matches and with the first match's flags; every other matched metric is partial |
| `AbVerdict.MatchesByPlace` | benchmarks/src/ab-verdict.ts:188-214 | the matches of a metric are all its two-sided rows, in their order |
| `AbVerdict.SeriesByPlace` | benchmarks/src/ab-verdict.ts:193-214 | each round holds the two values and the delta of its row |
| `AbVerdict.JudgedIffSurplusIsMissed` | benchmarks/src/ab-verdict.ts:178-249 | for all rounds: a metric is judged if and only if its surplus matches equal the rounds that missed it |
| `AbVerdict.JudgedAsMeantIff` | benchmarks/src/ab-verdict.ts:172-249 | judged is the same as matched in every round if and only if no round names the metric twice, or some round missed it and the surplus differs |
| `AbVerdict.DuplicateStandsInForAMissingRound` | benchmarks/src/ab-verdict.ts:178-249 | a name repeated in one round makes up for a missed round: judged though not matched in every round |
| `AbVerdict.DuplicateUnseatsAFullRow` | benchmarks/src/ab-verdict.ts:178-249 | and matched in every round, a repeated name keeps a metric from being judged |
| `AbVerdict.RunRounds` | benchmarks/src/ab.ts:144-171 | even rounds measure base first, odd ones head first, each side in its slot |
| `AbVerdict.CalledHasTheSignOfTheEffect` | benchmarks/src/ab.ts:156-171 | two rounds or more, any monotone drift, any constant effect: a called verdict has the sign of the effect, so identical code is never called |
| `AbVerdict.OneRoundIsFooled` | benchmarks/src/ab.ts:156-171 | with one round identical code can be called improved |
| `AbVerdict.LinearDriftCancels` | benchmarks/src/ab.ts:156-171 | under linear drift the paired differences sum to R times the effect for even R, plus one step of drift for odd R |
| `Rng.XorshiftInjective` | benchmarks/src/histogram.ts:30-39 | the generator's step is injective on 32-bit words |
| `Rng.NeverZero` | benchmarks/src/histogram.ts:30-39 | its state is never zero, from any seed |
| `Rng.FirstStates` | benchmarks/src/histogram.ts:30-39 | its first states from 1 are the published ones |
| `Histogram.Samples.Keep` | benchmarks/src/histogram.ts:60-72 | the value goes to the next free slot, or replaces the picked one, or is dropped |
| `Histogram.Samples.RecordValue` | benchmarks/src/histogram.ts:60-72 | count, sum, extremes and reservoir after one more value |
| `Histogram.Samples.GetPercentiles` | benchmarks/src/histogram.ts:78-99 | the report of the current state, which it leaves alone |
| `Histogram.PercentilesMean` | benchmarks/src/histogram.ts:78-99 | p50, p90, p99 and p999 are the held samples that 1/2, 9/10, 99/100 and 999/1000 of the held ones do not exceed while fewer lie below; min and max are attained in the stream |
| `Histogram.PickBelow` | benchmarks/src/histogram.ts:60-72 | the picked index is below the count seen |
| `Histogram.PicksAreEven` | benchmarks/src/histogram.ts:69-71 | every index below the count seen is picked by 2^32 over that count words, rounded down or up |
| `Histogram.HeldComesFromTheStream` | benchmarks/src/histogram.ts:60-72 | always min(seen, capacity) values, from distinct positions of the stream |
| `Histogram.EveryPositionEquallyOften` | benchmarks/src/histogram.ts:60-72 | counted over all sequences of picks, every position of the stream is held equally often |
| `Histogram.SurvivalIsCapacityOverSeen` | benchmarks/src/histogram.ts:69-71 | namely in capacity out of n of the cases, for every capacity and n |
| `Histogram.ExactUpToCapacity` | benchmarks/src/histogram.ts:60-72 | up to capacity the reservoir is the stream |
| `Histogram.SumOfTheStream` | benchmarks/src/histogram.ts:60-72 | the sum covers everything seen |
| `Histogram.ExtremesOfTheStream` | benchmarks/src/histogram.ts:60-72 | minimum and maximum are the whole stream's |
| `Histogram.PercentileIsNearestRank` | benchmarks/src/histogram.ts:78-99 | each percentile meets the nearest-rank definition |
| `Histogram.PercentilesOrdered` | benchmarks/src/histogram.ts:78-99 | min ≤ p50 ≤ p90 ≤ p99 ≤ p999 ≤ max |
| `Histogram.PercentilesNeedCapacity` | benchmarks/src/histogram.ts:78-99 | percentiles exist exactly if the capacity is not zero |
| `Slope.HeapSlopeBytesPerSample` | benchmarks/src/memory.ts:114-127 | zero for fewer than two samples, else the quotient of the deviation sums |
| `Slope.SxxPositive` | benchmarks/src/memory.ts:114-127 | the denominator is positive for two samples or more |
| `Slope.LeastSquares` | benchmarks/src/memory.ts:114-127 | no line has a smaller sum of squared residuals, and no other line as small a one |
| `Slope.BestIsFit` | benchmarks/src/memory.ts:114-127 | the minimising line is unique |
| `Slope.RecoversEveryLine` | benchmarks/src/memory.ts:114-127 | samples on a line give back that line |
| `Slope.OffsetIgnored` | benchmarks/src/memory.ts:114-127 | a constant offset does not change the slope |
| `Slope.ReversalNegates` | benchmarks/src/memory.ts:114-127 | reversing the series negates the slope |
| `Edges.RoundRobin.Edge` | benchmarks/src/scenarios/cluster.ts:606-609 | hosts in turn, by arrival |
| `Edges.Skewed.Edge` | benchmarks/src/scenarios/cluster.ts:616-620 | the host of the k-th skewed call; every fifth goes through its own counter |
| `Edges.SpreadIsAFifth` | benchmarks/src/scenarios/cluster.ts:616-620 | after k calls exactly ⌈k/5⌉ went through that counter |
| `Edges.SpreadOnHost` | benchmarks/src/scenarios/cluster.ts:616-620 | exactly how many of them each host got |
| `Edges.SpreadIsEven` | benchmarks/src/scenarios/cluster.ts:616-620 | no two hosts differ by more than one |
| `Edges.WhereTheCallsGo` | benchmarks/src/scenarios/cluster.ts:616-620 | of k calls host 0 gets all but the fifth that is spread and its share of that, every other host its share only |
| `Edges.VisitAll` | benchmarks/src/scenarios/cluster.ts:668-680 | the actors in the order the measured loop visits them |
| `Edges.StrideVisitsEachOnce` | benchmarks/src/scenarios/cluster.ts:668-680 | every actor is visited exactly once if and only if stride and actor count are coprime |
| `Edges.Stride97` | benchmarks/src/scenarios/cluster.ts:668-680 | the stride of 97 does so for both actor counts |
| `Markdown.ChangeRows` | benchmarks/src/markdown.ts:287-308 | the first 60 of the ranked rows, and how many were cut |
| `Markdown.BiggerDeltaRanksFirst` | benchmarks/src/markdown.ts:64-68 | rows with a delta rank by its absolute value |
| `Markdown.RowsWithoutADelta` | benchmarks/src/markdown.ts:64-68 | a called row without a delta outranks every row with one, an uncalled one moved by nothing, new rows come last |
| `Markdown.SeverityOrder` | benchmarks/src/markdown.ts:45-51 | regressed, improved, inconclusive, unchanged, new, and among equals the bigger move |
| `Markdown.CutIsLessActionable` | benchmarks/src/markdown.ts:287-308 | a row cut from the table is no more severe than any kept; if it is a regression, so is every kept row |
| `Markdown.NoteHoldsIff` | benchmarks/src/markdown.ts:287-308 | for every table that is cut: its note (no cut row moved more than a kept one) is true if and only if the last kept row of each verdict is at least as big as the first cut row of each |
| `Markdown.NoteHoldsForOneVerdict` | benchmarks/src/markdown.ts:287-308 | in particular when all rows have one verdict |
| `Markdown.CutCanBeABiggerMove` | benchmarks/src/markdown.ts:301-308 | across verdicts it can be false |
| `Markdown.AppendixLines` | benchmarks/src/markdown.ts:162-199 | the appendix' lines: rows biggest first while they fit, and a notice for the rest |
| `Markdown.NoticeFits` | benchmarks/src/markdown.ts:189-198 | the notice fits its 200 reserved characters |
| `Markdown.ReportFitsIff` | benchmarks/src/markdown.ts:162-199 | the report stays within 60 000 characters if and only if the fixed parts leave room for the reserve, or for the notice that drops every row |
| `Markdown.HeadlineCanOverrun` | benchmarks/src/markdown.ts:26-30 | a headline that leaves no room overruns the limit, whatever the metrics |
| `Markdown.DroppedMovedLess` | benchmarks/src/markdown.ts:162-199 | a metric dropped from the appendix moved no more than any kept |
| `Markdown.NoRowLeftOutFits` | benchmarks/src/markdown.ts:178-189 | the first row left out would overrun the limit beside everything else and the reserve |
| `Markdown.AppendixRowByRow` | benchmarks/src/markdown.ts:162-199 | the appendix opens, lists the biggest movers in order, notes how many are left out, and closes |
| `Markdown.DecimalReadsBack` | benchmarks/src/markdown.ts:194 | the number in the notice, read back, is the number of rows left out |
| `Markdown.NothingLostInSorting` | benchmarks/src/markdown.ts:162-199 | both rankings are rearrangements of the comparisons |
| `Follow.FollowStream` | examples/cf-workers/src/page.ts:145-166 | the callbacks and final status of the read loop |
| `Follow.DrainInTwo` | examples/cf-workers/src/page.ts:145-166 | draining a buffer in two pieces is draining it at once |
| `Follow.CutsDoNotMatter` | examples/cf-workers/src/page.ts:145-166 | two ways of cutting the same text into reads give the same callbacks and status |
| `Follow.StreamMeaning` | examples/cf-workers/src/page.ts:145-166 | they are the chunks before the first done or error frame among the complete lines, and that frame's status; an unterminated last line is ignored |
| `Exposition.EscapeLabelIsEscape` | packages/actors-otel/src/prometheus.ts:120-124 | the three replacements escape each character on its own |
| `Exposition.UnescapeEscape` | examples/providers/src/prometheus.ts:20-22 | unescaping undoes escaping, for every string |
| `Exposition.QuotedEscape` | examples/providers/src/prometheus.ts:18 | an escaped value ends at the quote after it, whatever it holds |
| `Exposition.TailIff` | examples/providers/src/prometheus.ts:17 | the end of a sample line, on any text: blanks, a value, and nothing or blanks and digits |
| `Exposition.BracedLineIff` | examples/providers/src/prometheus.ts:17 | a line with labels, on any text: the match is the decomposition with the longest labels, and there is none exactly if there is no decomposition |
| `Exposition.BareLineIff` | examples/providers/src/prometheus.ts:17 | a line without labels, on any text |
| `Exposition.LabelAtIff` | examples/providers/src/prometheus.ts:18 | a label at the front of any text: a name, an equals sign, and well-quoted text |
| `Exposition.TrimMeans` | examples/providers/src/prometheus.ts:28 | trimming takes just the blanks at both ends |
| `Exposition.LastLabelWins` | examples/providers/src/prometheus.ts:33-38 | of labels of one name the last one is kept |
| `Exposition.CollectLabels` | examples/providers/src/prometheus.ts:33-38 | the labels `matchAll` finds, assigned in order |
| `Exposition.ParseLine` | examples/providers/src/prometheus.ts:27-44 | one pass of the loop: a sample, or nothing for a blank, comment, malformed or NaN line |
| `Exposition.ParseExposition` | examples/providers/src/prometheus.ts:25-46 | the samples of all lines, in order |
| `Exposition.LabelsComeBackIff` | examples/providers/src/prometheus.ts:33-38 | printed labels with distinct names are read back exactly if none is called `__proto__` |
| `Exposition.LineRoundTripIff` | examples/providers/src/prometheus.ts:17-46 | a printed line gives its sample back if and only if no label value holds CR, U+2028 or U+2029 and no label is `__proto__`; it never gives more |
| `Exposition.RoundTripIff` | examples/providers/src/prometheus.ts:25-46 | parsing a printed exposition returns exactly the printed samples if and only if every line is like that |
| `Exposition.ReturnLosesSample` | examples/providers/src/prometheus.ts:17 | a carriage return in a label value loses the sample |
| `Exposition.ProtoLosesLabel` | examples/providers/src/prometheus.ts:34-37 | a label called `__proto__` is lost from its sample |
| `Exposition.Hit` | examples/providers/src/prometheus.ts:52-61 | the first sample of that name with at least those labels; none exactly if no sample fits |
| `Exposition.ScrapeAnswers` | examples/providers/src/prometheus.ts:52-61 | asked for a name and labels, a readable scrape answers with the value of the first line printed for them, or none |

## Left out

- Etags are natural numbers here; the stores issue the counter's decimal digits, which name the same numbers.
- Records are values in a map that the methods reassign; the stores update a record object in place that nothing else holds.
- JSON is a pair of functions; where a theorem needs it, parsing undoes printing. What JSON itself does to values is not modelled.
- Counting.LastWriteIsHeld: entries and bytes of a last write are read off its text and not modelled.
- The eventual-durability arm, the lifecycle and parked jobs, and a `resetStepChannel` in the middle of a job's run (the method itself is modelled).
- StepJob.JobInvariant: the record is written by this one job; the actor runtime around it (turns, placement, recovery) is not modelled, only its choice between an append and a full save.
- The rig's kill and process signals, send failures, directory contents, the payloads of drive and statistics messages, and the child's handle and memory readings.
- RigView.AlwaysConserved: an exit or a kill is one `Disconnects` event, after which nothing more is delivered.
- Correlation.AlwaysAgrees: a waiter's string key is a pair of reply type and optional id; the reply types of the protocol hold no colon, so both tell the same keys apart.
- Floating-point rounding: measurements, medians and slopes are reals; `Infinity` spreads and magnitudes are separate constructors, and NaN does not occur.
- Measurement itself, clocks, garbage collection and child processes: `AbVerdict.RunRounds` takes them as a function of side and slot.
- The order of the A/B report's rows, which is a locale-aware sort, and which rows fail a run.
- The text of one table row (a function of the comparison) and how the headline and the footer are composed (given lines).
- Histogram.EveryPositionEquallyOften: counts over all sequences of picks; whether the seeded generator picks as evenly is not stated.
- The `byGrain` edge, whose host is a string hash.
- Aborting a stream, the HTTP request before it, and UTF-8 decoding: the stream reader starts from decoded text.
- The regular expressions of the exposition reader as such: their matches are written out, backtracking included where it can happen.
- Metadata lines other than as comments, and blank lines, in the printed exposition; the order in which the exporter emits its families.
- Exposition.RoundTripIff: `Number` is a function that reads back what the printer wrote for a value and gives NaN for a text with a quote in it.
- `writeCountingStorage`, a simpler repetition of the counting wrapper, and the path resolvers.
