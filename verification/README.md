# XMBox in Dafny

XMBox drives sing-box nodes from a panel. This project models its stateful
algorithms and concurrent protocols in Dafny and proves what they keep over
every run. Objects that update their fields are classes whose methods are proved
against functions on values; protocols with several actors are step functions,
and their laws are proved by induction over every sequence of steps.

| files | what they model |
|---|---|
| `NaivePadding`, `NaiveConn` | the padding codec of the naive inbound: writer, reader and runs of both over one wire, proved against a reference meaning of the wire |
| `IpLimit`, `IpSweep`, `SweepAmid`, `OnlineReport` | the address limit many nodes share through one hash a subscription: the atomic script, the sweep in separate steps, the batched sweep as written, alone and amid other nodes, and what becomes of its report |
| `Admission` | the admission of one connection: what the limiter has stored for its user decides |
| `Traffic`, `TrafficReport`, `TrafficMonitor` | traffic counters, batches, push, HTTP fallback and settlement, with a ghost ledger of all bytes ever added and of all records received |
| `Scheduler`, `TaskRegistry` | the periodic scheduler with generations, the registry of tasks, and runs of its calls and timers |
| `SlotTable`, `HotUsers`, `FrontedNode`, `UserSync` | the slot table of the VLESS inbound, the list of the ShadowTLS wrapper compacted in place, the two kept in step, and both against the panel's list |
| `ConnTracker` | the table of open connections, with self-deregistration and bulk close racing |
| `LimiterSync`, `RelayRules`, `Polling`, `Controller` | a poll: the diff against a rebuild, relay rules spliced into a node's part of the router, early returns and failures, and runs of polls |
| `SharedRouter`, `NodeManagers` | the one rule list of the box, which the managers of all nodes replace, each under a lock of its own |
| `Api`, `Commons` | shared types |

Where the code does not do what one would expect, the model follows the code, the
project gives the input, and states when it does:

- `readerReplaceable` (core/inbound/protocol/naive_conn.go:169) looks at the frame
  count only. While padding of the eighth frame is owed the raw connection is not
  what the peer sent (`ReplaceableTooEarly`); it is exactly when none is owed
  (`ReaderRawIff`). Data still owed does not matter: it is raw either way.
- A slot table is pushed outside the lock (core/inbound/protocol/vless.go:241-255).
  An older push landing last brings deleted users back into the service
  (`StalePushCanLand`). The service ends up current, whichever pushes land and in
  whichever order, exactly when each was collected from a table with the active
  slots of now (`LandingsCurrentIff`).
- The diff of two lists does not look at emails (subscription/manager.go:400). An
  entry that changes its email leaves a stale key, or has none, except in the case
  `IncrementalIsRebuildIff` names; `StaleEmailStays` is an instance. The users of the
  inbounds fare alike (`UsersFollowDiffIff`).
- A removal the protocol refuses is not taken over by the limiter, yet the new list
  is remembered (controller/controller.go:446-452, 485), so no later diff contains
  it. `IncrementalIsRebuildIff` and `Controller.ApiMonitor` say exactly when the
  limiter is wrong afterwards.
- A relay that fails after its first rule leaves rules nobody will remove
  (node/node.go:371-399), and so does a removal that fails, since its error is only
  logged (controller/controller.go:330-338). A node's part of the router is in order
  exactly when no poll so far did either (`ReconciledUnlessLeft`), and no later poll
  repairs it (`SpoiledStays`). An id that appears twice does the same on removal
  (`UndoneIffUniqueIds`).
- All nodes of a server replace one rule list (core/instance/instance.go:234-246,
  node/node.go:450-485), but each manager has a lock of its own (node/node.go:31-32).
  Two of them can read the list before either writes it. Then a rule that was added
  is missing (`AddedRuleIsLost`) or one that was removed is back for good
  (`RemovedRuleReturns`). A node keeps its rules through the write of another exactly
  when they have not changed since the other read the list (`CommitKeepsOtherIff`).
  With no write lost, nodes do not disturb each other (`NodesShareTheRouter`); the
  rules the box was built with survive in any case (`BoxRulesSurvive`).
- A node that moves to another tag drops its counters (controller/controller.go:371).
  What they hold then, and what connections opened under the old tag still add, is
  never reported; nothing else is lost (`MonitorThroughMoves`, `LostIsHeld`).
- The addresses of a report are gone from the store before it is sent
  (limiter/limiter.go:479-488, subscription/manager.go:333-364). They reach the panel
  exactly when all batches are pushed or the HTTP call succeeds, and batches pushed
  before a failing one are told twice (`ArrivedIff`).
- A field is attributed to its address only for tags without "|"
  (`AddrRecoveredIff`), and a connection to its user for tags without NUL
  (`CollidesIff`). A node tag has either only if the protocol name the panel sends
  has it (`NodeTagSeparator`).
- The node speed limit is refreshed without touching rate buckets
  (limiter/limiter.go:194-203): `UpdateNodeInfo` says when they are still right.
- Without the wrapper inbound, adding users reports an error after the protocol has
  taken them (subscription/manager.go:42-59); removing them passes over the wrapper
  silently (subscription/manager.go:188). `Node.AddSubscriptions` and
  `Node.RemoveSubscriptions` say exactly when the two lists come apart.
- `deregister` is still nil while `add` has already published the connection
  (core/dispatcher/dispatcher.go:81-92). A bulk close in that window finds no
  callback to run, and needs none: it has claimed the entry already.

## Model

| member | source | states |
|---|---|---|
| `NaivePadding.RoundTrip` | core/inbound/protocol/naive_conn.go:37-146 | For every interleaving of writes (any length, either write path, any padding draw), reads (any buffer, any short read) and transport failures: the bytes returned are a prefix of the bytes written, and all of them once an unbroken wire is settled |
| `NaivePadding.EverythingCanBeRead` | core/inbound/protocol/naive_conn.go:44-146 | From every reachable state of an unbroken wire there are further reads that return every byte written |
| `NaivePadding.FrameMeansData` | core/inbound/protocol/naive_conn.go:91-107 | A frame followed by anything means its data followed by what the rest means to a reader one frame further on |
| `NaivePadding.ChunkMeansData` | core/inbound/protocol/naive_conn.go:91-109 | What one padded write emits means its data, at every frame count |
| `NaivePadding.ChunkedMeansData` | core/inbound/protocol/naive_conn.go:128-146 | Splitting a write of any length at 65535 bytes loses and reorders nothing, at every frame count and for every draw |
| `NaivePadding.BufferMeansData` | core/inbound/protocol/naive_conn.go:111-126 | The buffer path, with its own split above 65535 bytes, means the same data |
| `NaivePadding.FrameLayout` | core/inbound/protocol/naive_conn.go:91-107 | A frame is the length in two bytes, the high one first, the padding size, the data and that many zeros |
| `NaivePadding.WritesOnTheWire` | core/inbound/protocol/naive_conn.go:128-146 | The first eight frames carry padding and no later one does; a write of up to 65535 bytes is one of them, a longer one starts with a frame of exactly that many |
| `NaivePadding.BuffersOnTheWire` | core/inbound/protocol/naive_conn.go:111-126 | A buffer of up to 65535 bytes, an empty one included, is one frame among the first eight; a longer one is split |
| `NaivePadding.PayloadMonotone` | core/inbound/protocol/naive_conn.go:44-89 | More bytes on the wire never change what the bytes before them mean |
| `NaivePadding.ReadDelivers` | core/inbound/protocol/naive_conn.go:44-89 | A successful read from any reader state, with any buffer and any short count, returns exactly the next bytes of the meaning and leaves the rest |
| `NaivePadding.RunKeepsWhole` | core/inbound/protocol/naive_conn.go:91-146 | On an unbroken wire the bytes in flight are always whole items, in step with the frame counters of both ends |
| `NaivePadding.ReadPossible` | core/inbound/protocol/naive_conn.go:44-89 | While anything but padding is in flight, some read is possible and consumes bytes |
| `NaivePadding.WriterRawAfterEight` | core/inbound/protocol/naive_conn.go:91-146 | From the eighth frame on both write paths are the identity on the wire and the count stands still |
| `NaivePadding.ReaderRawIff` | core/inbound/protocol/naive_conn.go:63-88 | The wire means itself exactly when the eight frames are used up and no padding is owed |
| `NaivePadding.ReplaceableTooEarly` | core/inbound/protocol/naive_conn.go:169 | A run after which readerReplaceable holds while a padding byte is still in flight: handing the raw connection over would deliver a byte nobody sent |
| `NaiveConn.PaddingConn.ReadHeader` | core/inbound/protocol/naive_conn.go:63-75 | Success consumes three bytes and decodes length and padding from them; failure consumes a prefix at most |
| `NaiveConn.PaddingConn.ReadFrame` | core/inbound/protocol/naive_conn.go:63-88 | The read once nothing is owed: the header and as much of the next frame as fits, or raw bytes after the eighth |
| `NaiveConn.PaddingConn.ReadWithPadding` | core/inbound/protocol/naive_conn.go:44-89 | A successful call is one reading step of the model, in all three counters, wire and buffer, and returns as much as one step can where the transport does; a healthy transport with enough bytes makes it succeed; an error returns no bytes, has consumed only a front part of the wire, and at most forgets the padding it was skipping |
| `NaiveConn.PaddingConn.WriteWithPadding` | core/inbound/protocol/naive_conn.go:91-109 | Emits one frame, or the bytes themselves after eight; a transport failure leaves a prefix of it, and the frame is counted all the same |
| `NaiveConn.PaddingConn.WriteChunked` | core/inbound/protocol/naive_conn.go:128-146 | The loop emits exactly the chunked wire of the model, or the prefix of it that fitted before the transport broke |
| `NaiveConn.PaddingConn.WriteBufferWithPadding` | core/inbound/protocol/naive_conn.go:111-126 | The same for the buffer path; a single frame counts even when it fails, a chunked write counts no further than a complete one |
| `NaiveConn.Converse` | core/inbound/protocol/naive_conn.go:37-146 | Any sequence of calls of the two ends over one transport, which may break at any byte, is a run of the model, one event a call except for the reads from the first that fails on: the bytes returned are a prefix of the bytes written |
| `IpLimit.ScriptAddrMatches` | limiter/limiter.go:78 | What the script captures from a field is a match of its pattern: a non-empty address, a separator, a rest without separators |
| `IpLimit.MatchesScriptAddr` | limiter/limiter.go:78 | Conversely every such split is the one captured, so the capture is unique |
| `IpLimit.AddressesAre` | limiter/limiter.go:75-83 | The addresses of a hash are exactly those of fields that are an address, a separator and a rest without one |
| `IpLimit.AddrRecoveredIff` | limiter/limiter.go:78 | The script recovers a non-empty address a node recorded exactly when the tag of the node has no separator |
| `IpLimit.OwnsIffOwnTag` | limiter/limiter.go:461-463 | With tags free of the separator, the suffix test of the sweep matches exactly the fields of its own node |
| `IpLimit.ClaimedMeans` | limiter/limiter.go:459-469 | A sweep claims a field exactly when it is some address recorded under the tag of its node with a readable number |
| `IpLimit.ParsersAgree` | limiter/limiter.go:461-468 | On every field the sweep claims, trimming and the pattern of the script name the same address, and the field is rebuilt from it |
| `IpLimit.ScriptDecision` | limiter/limiter.go:71-94 | A connection is rejected exactly when a limit is set, reached, and the address is new; rejected means the hash is unchanged, admitted means recorded and nothing else changed |
| `IpLimit.ScriptBound` | limiter/limiter.go:71-94 | One run leaves no more distinct addresses than the larger of the count before and the limit |
| `IpLimit.StepBound` | limiter/limiter.go:429-490 | The same for every step of every node: script, sweep read, hand-over, delete, expiry |
| `IpLimit.LimitHolds` | limiter/limiter.go:70-94 | From an empty store a constant limit bounds the distinct addresses in every reachable state, over any number of nodes and any interleaving |
| `IpLimit.OnlyOwnReportedFieldsLeave` | limiter/limiter.go:459-490 | A field leaves a hash only by expiry, or by a delete of the node it belongs to, which has it in its report |
| `IpLimit.NothingLost` | limiter/limiter.go:429-490 | Whatever is stored at some moment is, in every later state, still stored, expired since, or in a report open or handed over since |
| `IpLimit.AdmittedNeverLost` | limiter/limiter.go:476-490 | Every admitted connection is accounted for that way ever after, however sweeps and admissions interleave |
| `IpSweep.KeySharedByNodes` | limiter/limiter.go:37-43 | The hash of a subscription is named by the prefix and its email alone, so two nodes use one hash exactly when the emails are the same |
| `IpSweep.KeyInjective` | limiter/limiter.go:419-423 | Two subscriptions of a node never share a hash |
| `IpSweep.SweepEachClosed` | limiter/limiter.go:429-490 | Visiting distinct hashes one by one claims and deletes the same in every order |
| `IpSweep.SweepEachIsRun` | limiter/limiter.go:448-489 | Those visits are a run of the step model, with that report and those hashes |
| `IpSweep.BatchIsRun` | limiter/limiter.go:437-488 | So is a batch whose reads all come before its deletes; uninterrupted it reports and leaves the same |
| `IpSweep.Redis.EvalLimitScript` | limiter/limiter.go:70-94 | The loop and branches of the script compute one atomic step of the model, on one key |
| `IpSweep.CountAddresses` | limiter/limiter.go:75-83 | The script loop, in any field order, counts the distinct addresses |
| `IpSweep.InboundInfo.CheckIPLimit` | limiter/limiter.go:509-528 | An admission check is one script step on the hash of the subscription; a store that fails admits |
| `IpSweep.ClaimsAreTold` | limiter/limiter.go:459-483 | With its claim in the report, every address the node recorded in a hash is told with its number and gone after the delete |
| `IpSweep.InboundInfo.ClaimFields` | limiter/limiter.go:459-470 | From one hash the sweep tells every address its node recorded with a readable number, of any form and in any map order, and nothing else, and means to delete exactly those |
| `IpSweep.InboundInfo.ReadBatch` | limiter/limiter.go:437-445 | The pipelined reads of a batch: each result is the hash of its key, or an error |
| `IpSweep.InboundInfo.CollectBatch` | limiter/limiter.go:447-474 | Per subscription either the whole claim or, after a failed read, nothing; a subscription is noted as quiet only if its hash was read as empty |
| `IpSweep.InboundInfo.DeleteBatch` | limiter/limiter.go:479-488 | Deletes from each hash only fields already in the report, all of them when the store is healthy |
| `IpSweep.InboundInfo.GetOnlineIPs` | limiter/limiter.go:399-505 | The batched sweep: with a healthy store, every address the node recorded for a current subscription is told with its number and gone afterwards; whatever is told was recorded so; reports and hashes are those of one-by-one visits in every order; with a failing store nothing is deleted unreported; a bucket is dropped only (and, when healthy, always) for a current subscription whose hash was empty |
| `IpSweep.InboundInfo.DropBuckets` | limiter/limiter.go:492-502 | The last loop removes exactly the buckets of current subscriptions that were quiet |
| `SweepAmid.DueStays` | limiter/limiter.go:429-490 | Amid anything else, an address of a node that is stored stays so unless it expires or its own sweep has it in the report |
| `SweepAmid.CompleteStays` | limiter/limiter.go:437-490 | At every moment of a sweep, what was stored when it began is reported, has expired, or is stored under a key not read yet |
| `SweepAmid.SoundStays` | limiter/limiter.go:437-490 | At every moment of a sweep, what is reported was stored at some moment of it under one of its keys |
| `SweepAmid.DeletingStays` | limiter/limiter.go:476-489 | At every moment of a sweep, what is in its report has been deleted or is about to be |
| `SweepAmid.Ends` | limiter/limiter.go:399-504 | When the report is handed over, nothing stored since the sweep began is lost, of the keys read every own address is reported or has expired, and with no delete outstanding everything reported has been deleted |
| `SweepAmid.SharedStore.SweepAmidOthers` | limiter/limiter.go:425-490 | The batched sweep with admissions, expiry and the sweeps of other nodes between any two of its reads and deletes: nothing is lost; what is reported was stored meanwhile; with a healthy store every address the node had recorded at the start is reported or has expired, and everything reported has left its hash since the start |
| `OnlineReport.ArrivedIff` | subscription/manager.go:336-363 | Every address taken from the store reaches the panel exactly when all batches were pushed or the HTTP report succeeded; none twice exactly when, besides, no batch had been pushed before it |
| `OnlineReport.PushBatches` | subscription/manager.go:338-352 | Exactly the batches of a hundred before the first push that fails arrive |
| `OnlineReport.ReportOnlineIPs` | subscription/manager.go:336-364 | For every outcome of the pushes and of the HTTP call: which records the panel receives; HTTP is used exactly when something was not pushed |
| `Admission.CheckAddress` | limiter/limiter.go:274-286 | For a connection that authenticated as a subscription on the list: unless the address is ignored, rejected exactly when the IP limit of that subscription is set and reached and the address is new; otherwise recorded in its hash under its number; a user the limiter does not know is not rejected |
| `Admission.Admit` | limiter/limiter.go:264-297 | The same, and a connection that is not rejected is limited exactly when its node or its subscription has a speed limit, at the tighter of the two |
| `Admission.CheckLimiter` | limiter/limiter.go:256-297 | A tag without limiter admits everybody without limits |
| `Traffic.TrafficCounter.GetCounter` | helper/counter/counter.go:33-37 | The storage of a user, made with zero counters if it was not there; no other user changes |
| `Traffic.TrafficCounter.GetUpCount` | helper/counter/counter.go:39-45 | The upload counter, zero for an unknown user |
| `Traffic.TrafficCounter.GetDownCount` | helper/counter/counter.go:47-53 | The download counter, zero for an unknown user |
| `Traffic.TrafficCounter.AddTo` | helper/counter/counter.go:18-21 | An atomic add moves one user by exactly that amount and nothing else |
| `TrafficReport.Chunk` | limiter/limiter.go:368-384 | The batches joined again are the pending records with their counters, in order; every batch but the last is full, none is empty or mixed up |
| `TrafficReport.ResetTraffic` | limiter/limiter.go:387-395 | Each counter loses exactly what was drained from it, while connections keep adding between the subtractions |
| `TrafficReport.PickedIsSent` | subscription/manager.go:282-298 | What the pushed batches hold together is, record by record, what falls into a hundred whose push succeeded |
| `TrafficReport.PushChunks` | subscription/manager.go:282-298 | For every pattern of failures, exactly the batches whose push succeeds are pushed and reset, and the others kept untouched for the fallback |
| `TrafficReport.PushAll` | subscription/manager.go:279-298 | The same for the records: each shares the fate of the hundred it falls into |
| `TrafficReport.ReportOverHttp` | subscription/manager.go:306-317 | The fallback sends all kept batches in one report and resets them all exactly when it succeeds, otherwise none |
| `TrafficReport.ReportTraffic` | subscription/manager.go:278-318 | Each record is delivered exactly once or retained, never both; nothing is retained when HTTP succeeds or all pushes do, and otherwise exactly the records of the hundreds whose push failed; the counters lose exactly the delivered amounts, once; the panel receives exactly the delivered records |
| `TrafficMonitor.TakenIsReported` | limiter/limiter.go:335-344 | What a set of pending counters takes from a user is what its records report for that user |
| `TrafficMonitor.BalanceKept` | subscription/manager.go:278-318 | For every user, bytes added = bytes taken by delivered counters + current counter survives any step, whatever was added and delivered meanwhile |
| `TrafficMonitor.BalancedIsConserved` | subscription/manager.go:278-318 | That balance is conservation in the terms of the panel where each id has stood for one key |
| `TrafficMonitor.ConservationKept` | subscription/manager.go:278-318 | Bytes added = bytes reported + current counter survives any step that settles exactly the delivered records, whatever was added meanwhile |
| `TrafficMonitor.DrainOne` | limiter/limiter.go:325-344 | Reading a user under concurrent adds takes, per direction, an amount between the counter before and the counter after |
| `TrafficMonitor.DrainDeltas` | limiter/limiter.go:313-352 | The same for all subscriptions in any map order; no record for a user without traffic, no result without records |
| `TrafficMonitor.SettlingKeepsNonNegative` | limiter/limiter.go:387-395 | Subtracting what was drained, or any part of it, never takes a counter below zero |
| `TrafficMonitor.CompleteCycle` | subscription/manager.go:278-318 | A cycle that retains nothing has taken from every counter, and with unique ids reported, at least what it held when the cycle began |
| `TrafficMonitor.MonitorTraffic` | subscription/manager.go:323-331 | One cycle with any map of subscriptions: the counters lose exactly what the received records were drained from, and none goes negative, for every outcome of pushes and HTTP; if HTTP or all pushes succeed, at least what every counter held at the start has been taken |
| `TrafficMonitor.MonitorForever` | controller/controller.go:184-185 | Any number of cycles from any balanced state, each with the map polls have left and with its own outcome: every byte ever added for a user was taken by a counter of a delivered record or is still in the counter; with any cycle that gets through, all its users' counters held at the start has been taken; where ids were unique throughout, the panel was told exactly that |
| `TrafficMonitor.MonitorThroughMoves` | controller/controller.go:368-372 | The same for a node that moves from tag to tag: every byte ever added to a set of counters, dropped or not, at any time, was taken by a counter of a delivered record or is in them still |
| `TrafficMonitor.LostIsHeld` | controller/controller.go:368-372 | Over any number of moves the bytes of a user no delivered record accounts for are exactly those the counters hold, the dropped ones included |
| `Scheduler.SingleLiveChain` | helper/scheduler/periodic.go:31-81 | In every reachable state running means exactly one timer or run carries the current generation; not running means none does and no timer is armed |
| `Scheduler.NoOverlap` | helper/scheduler/periodic.go:35-50 | No generation ever has two timers or runs, so two executions of one generation never overlap |
| `Scheduler.GenerationsPass` | helper/scheduler/periodic.go:45-81 | A generation that was closed never comes back: what is left of it only disappears |
| `Scheduler.RestartFromInside` | helper/scheduler/scheduler.go:82-88 | A task that restarts itself inside its own Execute, undisturbed, is left with one timer, of the new generation, at the new interval; its old run ends without rescheduling |
| `Scheduler.RestartInterleaved` | helper/scheduler/scheduler.go:82-88 | With anything interleaved between and after the three calls, its old run still ends without rescheduling, there is at most one live chain, of a newer generation, and it runs at the new interval unless somebody else closed it or set another |
| `Scheduler.FinishRearms` | helper/scheduler/periodic.go:45-50 | In every reachable state: a run that finishes under the current generation while running leaves exactly one timer, of that generation, due after the interval set at that moment; any other run that finishes arms nothing |
| `Scheduler.StartArms` | helper/scheduler/periodic.go:52-68 | In every reachable state: starting leaves exactly one timer, of a new generation, due at once or, with the delay flag, after the interval |
| `Scheduler.ExecutesOnlyCurrent` | helper/scheduler/periodic.go:35-43 | Execute begins only while running, and only for a run of the current generation |
| `Scheduler.Periodic.Start` | helper/scheduler/periodic.go:52-68 | One Start step, on the fields: a no-op when running, otherwise a new generation and one timer, due at once without delay |
| `Scheduler.Periodic.Close` | helper/scheduler/periodic.go:70-81 | One Close step: not running, a new generation, the armed timer stopped |
| `Scheduler.Periodic.BeginRun` | helper/scheduler/periodic.go:35-41 | The first critical section of a run: it goes on only if running under its own generation |
| `Scheduler.Periodic.EndRun` | helper/scheduler/periodic.go:45-50 | The second, on the fields: under the same condition it arms the next timer, due after the interval, and otherwise none |
| `TaskRegistry.DeadStaysDead` | helper/scheduler/periodic.go:70-81 | A closed scheduler never executes or arms anything again, whatever timers and runs were left, until it is started |
| `TaskRegistry.PeriodicTask.RestartWithInterval` | helper/scheduler/scheduler.go:82-88 | Close, set the interval and start: from every state running in a newer generation, with exactly one timer, due after the new interval where the task is delayed and at once otherwise |
| `TaskRegistry.Manager.GetTask` | helper/scheduler/scheduler.go:133-143 | The task of a tag, or none |
| `TaskRegistry.Manager.RemoveTask` | helper/scheduler/scheduler.go:145-159 | The tag is gone, its task is dead for good, every other task is untouched and tags stay unique |
| `TaskRegistry.Manager.AddAndStart` | helper/scheduler/scheduler.go:167-185 | The task runs and is the only one of its tag, also when it was registered before, with exactly one timer due when its delay says; a replaced one is dead for good; the others are untouched |
| `TaskRegistry.Manager.SyncTask` | controller/cert_tasks.go:51-76 | The tag is present exactly when wanted, at the wanted interval; a task that was dropped is dead for good; one that was added is new and waits for its first interval; one already at the interval is left alone; the others are untouched |
| `TaskRegistry.Manager.TouchedRuns` | helper/scheduler/scheduler.go:133-185 | What each call leaves is the registry of the expected tags and intervals, all running, one task a tag |
| `TaskRegistry.Manager.TouchedBuries` | helper/scheduler/scheduler.go:145-185 | What each call dropped or replaced joins the dead, apart from the registered tasks and their timers |
| `TaskRegistry.TickTask` | helper/scheduler/periodic.go:35-50 | A timer or run of any task, registered or dropped, changes no registration and wakes none of the dead |
| `TaskRegistry.Perform` | helper/scheduler/scheduler.go:145-185 | Every call touches one tag, leaves the other tasks as they were, and registers only tasks made for it |
| `TaskRegistry.Drive` | helper/scheduler/scheduler.go:82-185 | Any sequence of AddAndStart, RemoveTask, syncTask and interval changes, with timers of registered and dropped tasks firing between them: the registered tags and intervals are the map folded from the calls, all of them run, tags are unique, and every task ever dropped or replaced is dead and stays so |
| `SlotTable.AddRefines` | core/inbound/protocol/vless.go:199-209 | Adding users is upsert by name on the plain map of entries, and keeps slotMap the inverse of the live slots |
| `SlotTable.DeleteRefines` | core/inbound/protocol/vless.go:217-225 | Deleting users is delete by name on that map |
| `SlotTable.ActiveIsEntries` | core/inbound/protocol/vless.go:241-255 | A row is pushed exactly when some registered name with a non-empty UUID owns that slot |
| `SlotTable.LoadInverseIff` | core/inbound/protocol/vless.go:96-103 | The initial load gives an inverse slotMap exactly when no name repeats in the options |
| `SlotTable.UserTagsAreNames` | core/inbound/protocol/vless.go:315-324 | A registered name is never empty and never reads like a slot number, so the fallback cannot be mistaken for a name |
| `SlotTable.RunResolvesIff` | core/inbound/protocol/vless.go:315-324 | In every reachable state the published names resolve a slot to a user exactly when that user is registered in that slot |
| `SlotTable.NeverRebound` | core/inbound/protocol/vless.go:199-255 | Over every run, with calls and pushes in any order, a slot resolves to the one name it was created for or to its own number, that name is fixed, and a slot that has lost its name resolves to its number ever after |
| `SlotTable.EmptyStaysEmpty` | core/inbound/protocol/vless.go:197-225 | No call ever gives a name to a slot that was deleted |
| `SlotTable.ServiceInsideSnapshot` | core/inbound/protocol/vless.go:231-255 | Every slot the service can authenticate lies inside the published name snapshot |
| `SlotTable.ServiceIsSomeVersion` | core/inbound/protocol/vless.go:241-255 | The service holds the active rows of the table version its last push was collected at |
| `SlotTable.ActiveEqualIff` | core/inbound/protocol/vless.go:246-252 | Two tables push the same rows exactly when every slot has the same non-empty UUID and flow in both, or none in either |
| `SlotTable.ServiceCurrentIff` | core/inbound/protocol/vless.go:241-255 | In every reachable state the service is current exactly when its last push was collected from a table with the active slots of now |
| `SlotTable.LandingsCurrentIff` | core/inbound/protocol/vless.go:241-255 | In every reachable state, whichever pushes in flight land in whichever order, the service ends up current exactly when each of them was collected from a table with the active slots of now |
| `SlotTable.SequentialCallIsCurrent` | core/inbound/protocol/vless.go:199-229 | With one mutator at a time every call ends with the service holding exactly the current rows |
| `SlotTable.StalePushCanLand` | core/inbound/protocol/vless.go:217-255 | With two, from every state that has the name: an older push landing last puts a deleted user back into the service, under a slot without a name |
| `Api.UserTagInjective` | subscription/manager.go:434-437 | On one node two users have the same key exactly when they have the same email |
| `HotUsers.VLESSInbound.constructor` | core/inbound/protocol/vless.go:96-105 | The loaded table, valid exactly when no name repeats |
| `HotUsers.VLESSInbound.AddUsers` | core/inbound/protocol/vless.go:199-213 | The loop is the table step; whatever an older push had left in the service, snapshot and service are current afterwards; the entries are the old ones updated |
| `HotUsers.VLESSInbound.DelUsers` | core/inbound/protocol/vless.go:217-229 | The same for deletion |
| `HotUsers.VLESSInbound.UserName` | core/inbound/protocol/vless.go:315-324 | The snapshot name of a slot, or its number |
| `HotUsers.SurvivorsCredentials` | core/inbound/protocol/shadowtls.go:196-202 | Compaction removes exactly the named users from the map the list stands for |
| `HotUsers.SurvivorsConcat` | core/inbound/protocol/shadowtls.go:196-202 | Compaction keeps the order: of two lists together it leaves what it leaves of each |
| `HotUsers.PutGuestsCredentials` | core/inbound/protocol/shadowtls.go:173-184 | Upserting into the list is upserting into that map, and names stay unique |
| `HotUsers.MoveDown` | core/inbound/protocol/shadowtls.go:196-202 | The loop that overwrites the slots it has already read leaves exactly the survivors, in order |
| `HotUsers.ShadowTLSInbound.AddUsers` | core/inbound/protocol/shadowtls.go:170-186 | With its index of positions the loop upserts by name in place; the stored service serves exactly the list |
| `HotUsers.ShadowTLSInbound.DelUsers` | core/inbound/protocol/shadowtls.go:189-204 | The list loses exactly the named users, in the same backing array; the stored service follows |
| `HotUsers.ShadowTLSInbound.RebuildService` | core/inbound/protocol/shadowtls.go:214-237 | Version 3 with no users stores no service; otherwise the service of exactly the current list or, where the library does not accept it, an error and the old service |
| `FrontedNode.Node.AddSubscriptions` | subscription/manager.go:31-70 | From any state, for every missing inbound and refused rebuild: what table, list and service become. Lists that agreed still do, unless the wrapper was missing and registering changes anything |
| `FrontedNode.Node.RemoveSubscriptions` | subscription/manager.go:171-202 | The same for removal, where a missing wrapper is no error; only a successful call closes the connections of the removed users, all of them, and drops them from the tracker |
| `FrontedNode.WrapperAndProtocolAgree` | subscription/manager.go:31-202 | Over every run of calls, refused rebuilds included, the compacted list and the slot table, with the flow of the node, stand for the same map of users, and the list is empty exactly when that map is |
| `FrontedNode.ServiceFollows` | core/inbound/protocol/shadowtls.go:214-237 | Over the same runs the stored service serves exactly the users of the last accepted call, each with its own password; while the last call was accepted these are the current ones; in version 3 it is missing as long as there are none |
| `UserSync.UsersFollowDiffIff` | controller/controller.go:441-477 | The calls for a diff leave exactly the users of the new list, each with its new UUID, if and only if every entry that changes its email leaves the old one to another entry and is itself modified or had its UUID under the new email already |
| `UserSync.InboundsFollowDiffIff` | subscription/manager.go:31-202 | On a fronted node the same holds of wrapper and protocol both |
| `ConnTracker.CollidesIff` | core/dispatcher/dispatcher.go:191 | A user of a node can share a key with one of a node with a shorter tag exactly when the tag carries the separator |
| `ConnTracker.ConnKeyInjective` | core/dispatcher/dispatcher.go:191 | With tags free of it, keys are equal exactly when tag and email are |
| `ConnTracker.InsertedHolds` | core/dispatcher/dispatcher.go:197-205 | Inserting adds the one entry, keeps all others, and leaves no inner map empty |
| `ConnTracker.DroppedHolds` | core/dispatcher/dispatcher.go:207-216 | The deregistration removes the one entry at most, keeps all others, and leaves no inner map empty |
| `ConnTracker.InsertThenDrop` | core/dispatcher/dispatcher.go:193-216 | Registering and deregistering leaves the table as it was, key and all |
| `ConnTracker.RunKeepsInv` | core/dispatcher/dispatcher.go:193-243 | Every interleaving of numbering, insertion, hand-over, owner close, bulk claim, bulk close and deregistration keeps the tracker invariant |
| `ConnTracker.TrackedExactly` | core/dispatcher/dispatcher.go:193-243 | From a fresh tracker the entries are, in every reachable state, exactly the registered connections neither deregistered nor claimed, and no inner map is empty |
| `ConnTracker.TakenIsCurrent` | core/dispatcher/dispatcher.go:219-224 | A bulk close takes exactly the current connections under the key |
| `ConnTracker.ClaimTakesOneUser` | core/dispatcher/dispatcher.go:219-228 | With tags free of the separator it takes the connections of one user on one node, all of them and no others |
| `ConnTracker.LateLeaveDropsNoOther` | core/dispatcher/dispatcher.go:207-216 | A deregistration, however late, drops no other connection, in particular no newer one of the same user |
| `ConnTracker.LeaveAfterClaimIsIdle` | core/dispatcher/dispatcher.go:207-228 | After a bulk close claimed the connection, its deregistration changes nothing |
| `ConnTracker.ClaimedAreClosed` | core/dispatcher/dispatcher.go:219-228 | When no bulk close is under way, everything ever claimed has been closed |
| `ConnTracker.OpenIffTracked` | core/dispatcher/dispatcher.go:81-94 | With no call under way the table is exactly the set of connections nobody has closed |
| `ConnTracker.Tracker.Insert` | core/dispatcher/dispatcher.go:197-205 | The locked part of add, nested maps made on demand, is the insertion of the model |
| `ConnTracker.Tracker.Deregister` | core/dispatcher/dispatcher.go:207-216 | The locked part of the deregistration is the drop of the model |
| `ConnTracker.Tracker.CloseAll` | core/dispatcher/dispatcher.go:219-228 | The key is gone, every connection under it is closed with its callback used up, and no other entry or connection changed, although each close runs its own deregistration |
| `ConnTracker.CloseUserConns` | subscription/manager.go:198-200 | The bulk closes of several users leave exactly the other entries, and every connection of those users closed |
| `ConnTracker.CloseNotifyConn.Close` | core/dispatcher/dispatcher.go:238-242 | The callback runs once; it deregisters if the function is assigned and otherwise does nothing |
| `ConnTracker.RoutedConnection` | core/dispatcher/dispatcher.go:81-94 | One fresh number, one entry for the new wrapper under its user, and the deregistration assigned last |
| `LimiterSync.ByIdFinds` | subscription/manager.go:383-390 | The map of a list has exactly its ids; with unique ids each maps to its own entry |
| `LimiterSync.CompareSubscriptions` | subscription/manager.go:372-405 | For every map order the three parts are the gone, the new and the differing entries, each listed once; a missing list counts as the code says |
| `LimiterSync.DiffMeans` | subscription/manager.go:392-403 | In terms of the lists: deleted, added and modified hold exactly the entries without a counterpart, new ones, and ones whose speed limit, IP limit or UUID differs |
| `LimiterSync.StoredFinds` | limiter/limiter.go:177-184 | A stored list has exactly its own keys beside the old ones, and with unique emails each key holds the id, speed limit and IP limit of its own entry |
| `LimiterSync.IncrementalIsRebuildIff` | controller/controller.go:441-477 | Deleted, added, modified applied in turn give the rebuilt map exactly when every entry that stays keeps its email, or changes it together with a compared field and leaves the old email to another entry, and a refused removal has its email taken over and a refused addition is empty |
| `LimiterSync.FixedEmailsSettle` | controller/controller.go:383-397 | With an email fixed per id and nothing refused that always holds |
| `LimiterSync.StaleEmailStays` | subscription/manager.go:400 | A new email sent with a new limit leaves the old key in the map |
| `LimiterSync.StoringOverwrites` | controller/controller.go:463-475 | Storing entries again gives the same map whether or not they were taken out first |
| `LimiterSync.DetermineRate` | limiter/limiter.go:530-544 | The tighter of the two limits that are set; zero exactly when neither is |
| `LimiterSync.InboundLimits.constructor` | limiter/limiter.go:160-185 | A rebuild: each entry of the list under its own key with its own id, speed limit and IP limit, and no buckets |
| `LimiterSync.InboundLimits.UpdateLimiter` | limiter/limiter.go:206-232 | Each entry of the list under its own key with its own numbers, on top of the old map; exactly the buckets of its users are set to the rate now due, or dropped where that is unlimited, and none is made |
| `LimiterSync.ReratedRepairs` | limiter/limiter.go:213-230 | Storing a list puts the buckets of its users right, whatever they were, and leaves the others alone |
| `LimiterSync.RerateKeepsIff` | limiter/limiter.go:220-230 | A listed user keeps the bucket exactly where there is a limit, at the tighter of the two; without one the bucket goes |
| `LimiterSync.InboundLimits.RemoveSubscriptions` | limiter/limiter.go:242-252 | Exactly the named entries and buckets are gone, and rates stay right |
| `LimiterSync.InboundLimits.Bucket` | limiter/limiter.go:289-297 | A user with a limit gets the bucket there is, or a new one at the rate due; where all buckets are at the rate due, so is the one handed out |
| `LimiterSync.InboundLimits.UpdateNodeInfo` | limiter/limiter.go:194-203 | Buckets keep their rate, so they are all right afterwards exactly when the new speed changes the rate due to none of them |
| `LimiterSync.InboundLimits.ApplyDiff` | controller/controller.go:442-475 | The guarded calls of a poll apply exactly the parts of the diff the protocol accepted; the result is the rebuilt map exactly under the condition above, and then each listed user has the numbers of its own entry; rates stay right in any case |
| `LimiterSync.StoredAt` | limiter/limiter.go:177-184 | One key of a map after a list was stored: the entry of the list with that email, else what was there before |
| `LimiterSync.IncrementalAt` | controller/controller.go:442-475 | One key after a diff was applied: modified before added before old, unless deleted |
| `LimiterSync.GetEmails` | subscription/manager.go:408-417 | The keys of the entries, in order |
| `RelayRules.AddedRulesRelay` | node/router.go:21-35 | Each rule a list adds matches its own subscription on the inbound of the node and leads to the outbound of that subscription |
| `RelayRules.MadeRoutes` | node/router.go:21-35 | With unique ids and emails the first rule that matches a connection of a subscription on the inbound of the node leads to its own outbound |
| `RelayRules.MadeRoutesNoOther` | node/router.go:21-35 | A connection of another inbound, or of a user not on the list, matches none of these rules |
| `RelayRules.AddRulesMakesAll` | node/node.go:371-399 | Without failures and with unique ids: the own rules, then one rule a subscription in list order, each on file under its own tag |
| `RelayRules.RemoveRulesUndoes` | node/node.go:420-427 | Removing them by tag leaves exactly the rules before, in order, and nothing on file |
| `RelayRules.UndoneIffUniqueIds` | node/node.go:371-427 | Setting up and taking down restores the list exactly when no id repeats |
| `RelayRules.LostStaysThroughRemoves` | node/node.go:462-492 | A rule no tag leads to any more survives every later removal |
| `RelayRules.RemoveUpToLeaves` | node/node.go:420-427 | From a relay completely set up, a removal that fails leaves at least the rule it failed at |
| `RelayRules.RemoveUpToStops` | node/node.go:420-427 | It has removed exactly the rules before that one: all others stay, in order and on file |
| `RelayRules.NotUnderStays` | node/node.go:462-492 | A rule no tag of a list leads to survives removing that list, complete or not |
| `RelayRules.OlderIsNotUnder` | node/node.go:433-459 | Setting a relay up leaves older rules in the list, and no tag of the new list leads to them |
| `SharedRouter.CommitOnOwnView` | node/node.go:443-458 | A manager that has seen its own latest rules does to its own part of the shared list and to its file what it would do on a list of its own |
| `SharedRouter.CommitKeepsOtherIff` | node/node.go:450-485 | The race, exactly: another node keeps its rules through a write if and only if they have not changed since the writer read the list |
| `SharedRouter.BoxRulesSurvive` | node/node.go:433-492 | Over every interleaving of reads and writes of any managers, lost writes included, the rules the box was built with stay in front and in order |
| `SharedRouter.ViewsAreIndependent` | node/node.go:433-492 | As long as no write is lost, the part of the list and the file of each manager are what its own additions and removals alone make of them |
| `SharedRouter.AddedRuleIsLost` | node/node.go:433-459 | From every state a schedule after which a rule is on file and not in the list |
| `SharedRouter.RemovedRuleReturns` | node/node.go:462-492 | From every state with the rule on file a schedule after which it is in the list again and on no file, so that nobody will remove it |
| `SharedRouter.PollIsItsEdits` | controller/controller.go:302-487 | A poll, whatever it meets, changes its node's part of the router by a sequence of additions and removals of single rules |
| `SharedRouter.NodesShareTheRouter` | core/instance/instance.go:219-254 | Several nodes on one box, their additions and removals interleaved in any way with no write lost: the rules of the box stay in front, and those of a node that has finished its polls are one a current subscription when its relay is up, and none otherwise, exactly when no poll of its own left rules behind |
| `SharedRouter.OthersStayElsewhere` | node/node.go:433-492 | Over every interleaving, races included, no rule of another node is ever for the inbound of this one |
| `SharedRouter.OtherNodesOtherTags` | controller/controller.go:568-570 | Nodes with different ids never add rules for each other's inbounds |
| `SharedRouter.ConnectionsFollowTheirNode` | core/instance/instance.go:219-254 | On a box with several nodes, once a node has finished its polls and none left rules behind, the whole shared list sends a connection of one of its current subscriptions to that subscription's own relay outbound, and its rules touch no other connection |
| `NodeManagers.NodeManager.Append` | node/node.go:450-458 | The critical section of an addition: the old list and one rule of this node, which matches the subscription on the node's inbound and leads to its own outbound; every other node's rules are in place |
| `NodeManagers.NodeManager.Splice` | node/node.go:466-491 | The critical section of a removal, by identity of the rule object |
| `NodeManagers.NodeManager.AddRouterRule` | node/node.go:433-459 | Whatever the other nodes did before: a rule that matches the subscription on the node's inbound and leads to its outbound goes to the end of this node's part and on file, replacing what was filed under the tag; a rule that cannot be built changes nothing |
| `NodeManagers.NodeManager.RemoveRouterRule` | node/node.go:462-492 | Takes the filed rule out of this node's part; an unknown tag changes nothing and is no error; an unreachable list is one |
| `NodeManagers.NodeManager.AddRelayTag` | node/node.go:371-399 | With the other nodes at work between the additions: a rule for each subscription, leading from the node's inbound to its own outbound, up to the one that fails; the rules before it stay |
| `NodeManagers.NodeManager.RemoveRelayRules` | node/node.go:420-427 | With the other nodes at work between the removals: the rule of every subscription of the list goes, up to the first that fails |
| `Polling.NodeTagSeparator` | controller/controller.go:568-570 | A node tag has NUL or a bar exactly when the protocol name has |
| `Polling.NodeTagInjective` | controller/controller.go:568-570 | Two node tags are the same exactly when protocol, port and id are, whatever the protocol name holds |
| `Polling.RelayTagInjective` | controller/controller.go:572-574 | Two relay tags are the same exactly when node type, port and relay node id are |
| `Polling.TagsWrittenOut` | controller/controller.go:568-574 | A node tag and a relay tag written out |
| `Polling.RuleTagTextInjective` | node/outbound.go:14-16 | Two rules or outbounds have the same tag exactly when relay tag and subscription id are the same |
| `Polling.ChangedStructurallyIff` | controller/controller.go:289-298 | The inbound stays exactly when nothing but speed limit, ignore list and poll interval differ |
| `Polling.RelayRuleAt` | node/router.go:21-35 | With the relay up, the i-th rule of a node in order has the node's tag as inbound, the i-th subscription as user, and its relay outbound |
| `Polling.RelayedToOwn` | node/router.go:18-35 | In order, a connection of a current subscription on the node goes to that subscription's own relay outbound when the relay is up, and every other connection past the relay rules |
| `Polling.SetUpIsConsistent` | controller/controller.go:505-511 | A relay set up completely has one rule a current subscription after the own ones |
| `Polling.TakenDownIsConsistent` | controller/controller.go:329-339 | Taking it down leaves the own rules |
| `Polling.HalfWayIsConsistentIff` | controller/controller.go:507-511 | A relay that failed on the way agrees with having none only if no rule had been added |
| `Polling.PollDecides` | controller/controller.go:302-487 | The router here is the part of the list one node owns. From a part in order a poll leaves it in order, or leaves behind a rule nothing leads to; the second exactly when removing failed or building failed after the first rule |
| `Polling.SpoiledStays` | controller/controller.go:302-487 | A rule left behind is in its node's part after every later poll of that node, whatever it meets |
| `Polling.ReconciledUnlessLeft` | controller/controller.go:302-487 | Over every run of polls of a node with lists of unique ids, its part of the router is one rule a current subscription when the relay is up, and none otherwise, exactly when no poll so far left rules behind; `NodesShareTheRouter` carries this over to the shared list |
| `Polling.ClosingRestoresIff` | controller/controller.go:205-212 | At the end of a run the node has no rule left in the router exactly when nothing was left behind then or before |
| `Controller.Controller.Start` | controller/controller.go:130-179 | Succeeds exactly when every answer is there, the inbound and its users are taken and a declared relay is completely set up; then relay rules and limiter are in step with the list, each user has the numbers of its own entry, the limiter goes by the speed limit and ignore list of the node, and there is a relay exactly when the node declares one |
| `Controller.Controller.SetupRelay` | controller/controller.go:492-512 | The set-up step of the model: a no-op without a declared relay or with one up; an error exactly when one is declared and not up afterwards |
| `Controller.Controller.ReplaceInbound` | controller/controller.go:341-382 | The branch that replaces the inbound: a refused step restores tag and node info and leaves the limiter in step; otherwise relay and limiter follow the new list under the new tag |
| `Controller.Controller.FollowList` | controller/controller.go:415-483 | The other branch: the inbound stays, the limiter takes over what the protocol accepted, the relay is set up for the new list |
| `Controller.Controller.ApiMonitor` | controller/controller.go:302-487 | One poll from any state, one in disorder included, is one step of the model, and the fields follow the answers, or roll back, case by case; the limiter goes on going by the settings of the node; from a reconciled one the node's part of the router is reconciled afterwards exactly when the poll left no rules, with other nodes at work throughout; a limiter that agreed still does exactly when the poll stopped half way, moved to a new tag, or its diff was as good as a rebuild |
| `Controller.Controller.Monitor` | controller/controller.go:130-487 | Start and any number of polls, other nodes changing the shared router throughout: the node's part of it agrees with the controller exactly when no poll left rules behind; the limiter goes by the current settings of the node; it is what a rebuild gives, with the numbers of each listed user, as long as emails stay with their ids and the protocol takes every change |
| `Controller.Controller.Close` | controller/controller.go:196-214 | Takes the relay down as a poll does, after which a node whose part was in order has no rule left in the router exactly if no removal fails, and drops the tag from the limiter |

## Left out

- NaiveConn.Converse: stops reading at the first read error, because the code has consumed part of a header by then and keeps no record of it; the round trip is for callers that do. A reader that returns data together with an error is not modelled.
- NaivePadding.RoundTrip: once a write has failed, later writes of the run reach nobody; the prefix law still covers them.
- Admission.Admit: the exact decision is for a store that answers, a node tag free of "|" and a non-empty address; a store that fails admits.
- UserSync.UsersFollowDiffIff: for calls the protocol takes; what a refused one leaves is stated for the limiter (`IncrementalIsRebuildIff`).
- IpLimit.LimitHolds: a check that fails against Redis admits the connection and records nothing, so it is outside the bound. Values of the time to live are not modelled: a hash may expire at any moment.
- IpSweep.InboundInfo.GetOnlineIPs: states the exact records and hashes for a sweep nobody interferes with; with interference `SweepAmid.SharedStore.SweepAmidOthers` states which addresses are reported, and leaves out the rate buckets.
- SweepAmid.SharedStore.SweepAmidOthers: node tags are free of "|", and admissions record a number, as they do in the code; sweeps of one node follow each other.
- IpLimit.NothingLost: accounts for an address up to the hand-over of the report; what happens to the report then is `OnlineReport`.
- TrafficReport.ReportTraffic: a push or HTTP call that fails is taken to have delivered nothing; one monitor a tag runs at a time.
- Traffic.TrafficCounter.AddTo: counters are unbounded integers; wrap-around of int64 is not modelled. The same goes for the uint64 generation and connection numbers.
- TrafficMonitor.MonitorThroughMoves: a cycle that is under way when the tag changes finishes on the counters it has fetched, as in the code; here the move follows it.
- Scheduler.SingleLiveChain: a run that passed its check before Close may begin Execute after Close returned; nothing is claimed about that moment.
- TaskRegistry.Drive: a new task is made for every registration, as callers do; `Add` without starting, `StartAll` and `CloseAll` are not among the calls.
- TaskRegistry.Manager.SyncTask: which certificate tasks are wanted is a parameter; `certTasksWanted` reads the TLS settings before testing them for nil, and that crash is not modelled.
- RelayRules.MadeRoutes: a connection is its inbound and its user, and the first rule that matches both decides; other conditions and actions of sing-box rules are not modelled.
- SlotTable.NeverRebound: starts from an inbound without initial users, which is how nodes are built.
- FrontedNode.WrapperAndProtocolAgree: runs of calls that find both inbounds; what a missing one does is stated for each call.
- Controller.Controller.ApiMonitor: polls run one after another; the webhook loop could run one concurrently and nothing locks them. Lists from the panel have unique ids and emails. Poll intervals and task restarts of the same function are in `Scheduler` and `TaskRegistry`; relay outbounds matter only through whether building them fails.
- NodeManagers.NodeManager.AddRouterRule: the other nodes act before each step of a node, and never between its read of the list and its write; `SharedRouter` models the two apart, with every race. So `Controller.Controller.Monitor` and `Controller.Controller.Close` are for runs in which no write is lost.
- NodeManagers.NodeManager.RemoveRouterRule: a rule tag is the pair of relay tag and id, which stands for their text (`RuleTagTextInjective`); building the options of a rule or an outbound is not modelled beyond its success or failure.
- The JSON API, the HTTP client, option building, TLS, certificates, key generation, configuration reload and the Reverb WebSocket.
- sing-box itself: a service is the table last pushed to it, the router a list of rules, a transport an unreliable byte stream.
- The token buckets of rate.Limiter: a bucket is the rate it is set to.
- The other inbounds (trojan, vmess, tuic, hysteria2, anytls): their user tables repeat the slot table. Shadowsocks reassigns slots in bulk and is not covered by slot stability.
- The password of a subscription: the diff does not look at it and no modelled state depends on it.
- UDP connections and dead connections: they take the same path as the ones modelled.
