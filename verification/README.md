# HWPanel: a verified model

HWPanel is a Windows service that samples hardware counters, keeps a short history, streams it to
clients, and applies power profiles. This project models its five cores in Dafny and proves what they
are for.

1. **Telemetry fan-out.** The history ring (`RingBuffer.dfy`), the hub, the event bus and their
   subscribers as classes (`TelemetryHub.dfy`), the same publish protocol as a transition system with
   one step per lock region (`FanOut.dfy`), what it guarantees over every interleaving with any number
   of publishers (`FanOutRuns.dfy`) and, with one publisher and the ring, for the hub (`HubRuns.dfy`),
   and the decimating stream to a client (`Stream.dfy`).
2. **Profile transaction.** Profile files and their replacement step by step (`ProfileStore.dfy`), the
   switch with its reverse rollback over one shared world (`ProfileManager.dfy`), every sequence of
   switches (`ProfileRuns.dfy`), and the power plan executor, whose GUID text makes the rollback exact
   (`PowerPlan.dfy`).
3. **Service lifecycle.** ServiceMain, the control handler and the collector threads as interleaved
   threads (`Lifecycle.dfy`), what holds in every run (`LifecycleRuns.dfy`), and the classes
   `CollectorPipeline`, `ServiceHost` and `ServiceController`, run from beginning to end, with the proof
   that the interleaved service refines them (`Service.dfy`). The tick loop and its timing are in
   `Pipeline.dfy`.
4. **Text decoders.** PDH counter paths, NUL-separated string blocks and the name table
   (`PdhPaths.dfy`), the wildcard walk and the summation of counters (`PdhCollector.dfy`).
5. **Reconnect monitor.** Backoff and stutter-free notifications (`ChannelManager.dfy`).

`Text.dfy` holds string order, searching and ordered maps.

How to read the models:

- A `Run` is a list of states and the actions between them; a theorem about every run quantifies over
  all of them, so over every interleaving of the threads.
- Runs of the fan-out carry history: `sent` is a publisher's own log, `got` what a subscriber was
  handed, `dropped[k]` whether the k-th item that left its queue was overwritten (true) or popped.
- An executor of the profile manager is its functions on one shared world. The undo law is assumed of
  each executor on its own (`Lawful`); `PowerPlan.PowerPlanLawful` proves it for power plans.
- A parsed JSON object is an ordered map (`Profiles.WellFormed`), as the JSON library keeps it.
- Foreign answers are parameters: the clock and the running flag as the loop reads them, which PDH
  handles read, what `PowerSetActiveScheme` accepts, whether a file could be opened and renamed.

Where the code and its documentation differ, the model follows the code. The repository's README speaks
of snapshot, apply, verify, rollback: there is no verify step. It names `profiles.json`: the store keeps
one `<id>.json` per profile and `active.json`. It says names are resolved with
`PdhLookupPerfIndexByEnglishNameW`: the collector scans the registry's name table itself.

Properties that do not hold as one might hope, with their exact conditions:

- With no publication in flight, the queue of an open, referenced subscriber equals `History(|queue|)` if
  and only if it is no longer than the ring (`HubRuns.QueueIsHistory`); `HubRuns.ShortRingForgets` is a
  run in which it is longer.
- Saving a profile keeps the active id if and only if the profile is not called `active` or there was no
  active id (`Profiles.SaveIsAtomic`).
- A power plan switch can be undone if and only if the scheme active before it could be read and is one
  the system would set again (`PowerPlan.UndoIffRestorable`).
- A rebuilt counter path parses to its parts if and only if they are well formed
  (`PdhPaths.PathRoundTrip`), and a parsed path is rebuilt to the same text if and only if nothing
  stands between `)` and the counter and the parentheses are not empty (`PdhPaths.ParseBuild`).
- Once STOPPED is reported and the state mutex is free, no collector loop runs if and only if the
  collectors are paused, or the host's start succeeded and no continue control found them paused after
  the stop (`LifecycleRuns.StoppedIsQuiet`). There are runs in which each of the last two fails:
  `LifecycleRuns.FailedStartNeverStops` and `LifecycleRuns.ContinueAfterStopRevives`.

## Model

| member | source | states |
|---|---|---|
| Rings.PushRepresents | libs/core/include/hwpanel/core/ring_buffer.h:19-28 | Overwriting the oldest slot keeps "the buffer, read from head around the wrap, is the newest part of the log" true for the log with the pushed value appended. |
| Rings.LastNIsSuffix | libs/core/include/hwpanel/core/ring_buffer.h:43-52 | The wrap-around reads return the suffix of the log of length min(n, capacity, pushes). |
| Rings.RingRefinesLog | libs/core/include/hwpanel/core/ring_buffer.h:19-61 | For every capacity and every sequence of pushes and clears, `LastN` and `History` (every int, negatives included) are suffixes of what was pushed since the last clear. |
| Rings.RingBuffer.constructor | libs/core/include/hwpanel/core/ring_buffer.h:17-17 | An empty log; capacity 0 becomes 1. |
| Rings.RingBuffer.Push | libs/core/include/hwpanel/core/ring_buffer.h:19-28 | The log grows by the value and the fields still represent it. |
| Rings.RingBuffer.Size | libs/core/include/hwpanel/core/ring_buffer.h:30-33 | min(capacity, pushes since the last clear). |
| Rings.RingBuffer.TotalPushed | libs/core/include/hwpanel/core/ring_buffer.h:37-40 | The length of the log. |
| Rings.RingBuffer.LastN | libs/core/include/hwpanel/core/ring_buffer.h:43-52 | The loop returns the suffix of the log, in chronological order. |
| Rings.RingBuffer.All | libs/core/include/hwpanel/core/ring_buffer.h:54-54 | Everything the ring still holds: the last min(capacity, pushes) values. |
| Rings.RingBuffer.Clear | libs/core/include/hwpanel/core/ring_buffer.h:56-61 | The log starts again empty. |
| Telemetry.Subscriber.Pop | libs/core/src/telemetry_hub.cpp:9-21 | Succeeds exactly on a non-empty queue and takes its front, the rest staying as it was. |
| Telemetry.Subscriber.Receive | libs/core/src/telemetry_hub.cpp:55-63 | A closed queue is untouched; a full one loses its oldest before the new sample is appended. |
| Telemetry.Broadcast.Subscribe | libs/core/src/telemetry_hub.cpp:67-72 | A fresh, open, empty subscriber is registered last. |
| Telemetry.PrunedNext | libs/core/src/telemetry_hub.cpp:45-52 | Looking at one more entry keeps or erases it: the list is what survives so far, then the entries still to be looked at. |
| Telemetry.Broadcast.Snapshot | libs/core/src/telemetry_hub.cpp:42-53 | The erase-while-iterating loop leaves exactly the referenced subscribers, in order, in the list and in the snapshot. |
| Telemetry.Broadcast.Deliver | libs/core/src/event_bus.cpp:43-53 | Each subscriber of the snapshot gets the item once unless closed. |
| Telemetry.Broadcast.Publish | libs/core/src/event_bus.cpp:30-54 | One undisturbed publication reaches every referenced open subscriber once and no other one. |
| Telemetry.TelemetryHub.Publish | libs/core/src/telemetry_hub.cpp:39-65 | The history log and every live open queue grow by the sample; the list loses exactly the dead entries. |
| Telemetry.TelemetryHub.History | libs/core/src/telemetry_hub.cpp:74-77 | For every int the answer is the newest part of the log, no longer than asked for, than the ring, or than what there is. |
| Telemetry.EventBus.Publish | libs/core/src/event_bus.cpp:30-54 | Every live open queue, of at most 32, gets the event; the list loses exactly the dead entries. |
| FanOut.StrongStep | libs/core/src/telemetry_hub.cpp:42-53 | No step makes an unreferenced subscriber referenced again. |
| FanOut.RegisteredStep | libs/core/src/event_bus.cpp:34-41 | Pruning keeps every subscriber that is still referenced in the list. |
| FanOut.PushConserved | libs/core/src/event_bus.cpp:43-53 | A locked push, dropping the oldest when full, keeps the account of handed, popped, dropped and queued items. |
| FanOut.WindowStep | libs/core/src/event_bus.cpp:30-54 | Every step of every thread keeps each subscriber's hand-over a window of each publisher's log, up to date while it is open and referenced. |
| FanOut.InvStep | libs/core/src/event_bus.cpp:8-61 | One step of a publisher, subscribe, pop, close or release keeps all fan-out invariants. |
| FanOut.Reachable | libs/core/src/event_bus.cpp:8-61 | All fan-out invariants hold in every state of every interleaving from the empty start. |
| FanOutRuns.HandedPerPublisher | libs/core/src/event_bus.cpp:30-61 | Per publisher a subscriber is handed the contiguous in-order segment starting with that publisher's first snapshot after the subscription, one item per snapshot (but for the one still owed) while open and referenced; and it is never pruned. |
| FanOutRuns.NothingAfterClose | libs/core/src/event_bus.cpp:45-47 | After Close nothing more is handed over, even by a publication in flight. |
| FanOutRuns.SnapshotPrunes | libs/core/src/event_bus.cpp:34-41 | A snapshot takes exactly the registered subscribers still referenced and unregisters exactly the others. |
| FanOutRuns.ReleaseForgets | libs/core/src/event_bus.cpp:34-41 | A subscriber its client lets go of while no publication holds it can never be locked again. |
| FanOutRuns.ForgottenForGood | libs/core/src/event_bus.cpp:34-41 | Once forgotten, a subscriber is handed nothing more in any run and the next snapshot takes it off the list for good. |
| FanOutRuns.NobodyWaits | libs/core/src/event_bus.cpp:30-61 | In every reachable state every publisher can make its next step and each brings it nearer its end; subscribing, popping, closing and releasing are always possible. |
| FanOutRuns.PopsAreKept | libs/core/src/telemetry_hub.cpp:9-21 | Over any stretch of a run the pops return, in order, exactly the items that left the queue without being overwritten. |
| FanOutRuns.Conservation | libs/core/src/telemetry_hub.cpp:54-64 | Handed = popped + overwritten + queued; pops are the items not overwritten, in order; the queue is the rest, within its bound; an overwritten item was overtaken by at least the bound. |
| FanOutRuns.DrainAfterClose | libs/core/src/telemetry_hub.cpp:9-29 | After Close the pops return exactly the remaining queue in order, then fail forever. |
| HubRuns.HistoryIsLog | libs/core/src/telemetry_hub.cpp:39-40 | In every reachable state the ring represents the published log, the sample in flight included. |
| HubRuns.HandedIsWindow | libs/core/src/telemetry_hub.cpp:39-65 | What a subscriber was handed is a window of the log, missing at most the sample in flight while it is open and referenced. |
| HubRuns.QueueIsWindow | libs/core/src/telemetry_hub.cpp:39-72 | Every queue is a contiguous window of the log; that of an open subscriber ends at the last sample or just before the one in flight. |
| HubRuns.QueueIsHistory | libs/core/src/telemetry_hub.cpp:54-77 | With no publication in flight, an open queue equals `History(its length)` exactly when it is no longer than the ring; always when the ring holds at least 64. |
| HubRuns.ShortRingForgets | libs/core/src/telemetry_hub.cpp:36-77 | A concrete run in which a ring of one holds less than an open queue with nothing in flight. |
| HubRuns.PoppedFromLog | libs/core/src/telemetry_hub.cpp:9-21 | The samples a subscriber pops sit at strictly increasing positions of the log. |
| Stream.Filtered | apps/hwpanel-service/grpc/telemetry_service_impl.cpp:35-35 | Only metrics named by the filter, each of them, and all of them for an empty filter. |
| Stream.FilteredInOrder | apps/hwpanel-service/grpc/telemetry_service_impl.cpp:35-35 | The filter keeps each metric it lets through, as often and in the order it came, and no other. |
| Stream.ToProto | apps/hwpanel-service/grpc/telemetry_service_impl.cpp:35-35 | The conversion keeps the timestamp and the filtered metrics in order. |
| Stream.DecimationIsNearest | apps/hwpanel-service/grpc/telemetry_service_impl.cpp:19-23 | For a rate hz in (0,1) whose rounded reciprocal d fits an int, d * hz differs from 1 by at most hz/2. |
| Stream.DecimatedNext | apps/hwpanel-service/grpc/telemetry_service_impl.cpp:32-34 | The index test lets a sample through exactly when it is the next multiple of d. |
| Stream.ServeDecimates | apps/hwpanel-service/grpc/telemetry_service_impl.cpp:28-38 | Of the samples popped, those at 0, d, 2d, ... are written, filtered; all samples are popped unless the client is gone. |
| Stream.GoneIffRefused | apps/hwpanel-service/grpc/telemetry_service_impl.cpp:32-37 | The stream ends early if and only if a sample that was due was refused; the first such one is the last popped. |
| Stream.FullRateWritesAll | apps/hwpanel-service/grpc/telemetry_service_impl.cpp:19-23 | For a rate outside (0,1) a client that takes everything is written every sample. |
| Stream.Subscribe | apps/hwpanel-service/grpc/telemetry_service_impl.cpp:14-41 | For every rate the loop pops all it is given, up to the first refused write that was due (`GoneIffRefused`), and writes exactly the samples popped at 0, d, 2d, ..., filtered. |
| Stream.StreamFromLog | apps/hwpanel-service/grpc/telemetry_service_impl.cpp:14-41 | End to end: when the turns of the loop deliver what the subscription pops in a run of the hub, what the loop writes for the requested rate is a strictly in-order, duplicate-free selection of the published log, filtered. |
| Profiles.DecodeEncode | libs/core/src/profile_store.cpp:33-44 | Reading what Save wrote gives the same profile. |
| Profiles.ParseSettings | libs/core/src/profile_store.cpp:38-42 | The settings loop keeps exactly the string-valued entries, in key order. |
| Profiles.ParseProfileFile | libs/core/src/profile_store.cpp:17-45 | Parsed, rejected (not a JSON object with a string id) or raising (name or description not a string), as `Decode` says; `DecodeEncode` is its partner. |
| Profiles.StringEntriesExactly | libs/core/src/profile_store.cpp:38-42 | A setting is kept exactly when its value is a string. |
| Profiles.TextFieldReads | libs/core/src/profile_store.cpp:34-35 | An optional text is what the field says, or the default when there is no such field. |
| Profiles.DecodeReads | libs/core/src/profile_store.cpp:29-43 | Field by field, which profile a JSON object holds: its id, its name or else its id, its description or else nothing, its textual settings and no other. |
| Profiles.DecodeAccepts | libs/core/src/profile_store.cpp:29-35 | Exactly the objects with a textual id are not rejected, and of these exactly those whose name and description, if any, are texts are profiles. |
| Profiles.ReplaceIsAtomic | libs/core/src/profile_store.cpp:88-99 | Stopping between any two of open, write and rename leaves every other file as it was and the replaced one entirely old or entirely new. |
| Profiles.ReplaceLeavesNoTemporary | libs/core/src/profile_store.cpp:88-99 | The temporary is `<id>.json.tmp`, is gone after the rename, and no file but these two changes at any step. |
| Profiles.SaveIsAtomic | libs/core/src/profile_store.cpp:77-100 | At every step each id reads as its old or new profile; the active id survives if and only if the profile is not called active (or none was set). |
| Profiles.SetActiveIsAtomic | libs/core/src/profile_store.cpp:122-135 | The active id changes with the rename and no profile other than `active` is touched at any step. |
| Profiles.ActiveReads | libs/core/src/profile_store.cpp:107-120 | The active id is what the textual field `active` of `active.json` says, and empty when nothing says it. |
| Profiles.ReplaceKeepsWellFormed | libs/core/src/profile_store.cpp:88-99 | At every step of a replacement all JSON in the directory stays well formed. |
| Profiles.ProfileStore.Get | libs/core/src/profile_store.cpp:73-75 | What the file of the id holds; a missing file is no profile. |
| Profiles.ProfileStore.Replace | libs/core/src/profile_store.cpp:88-99 | Which of the replacement steps was reached, for every failure of open and rename. |
| Profiles.ProfileStore.Save | libs/core/src/profile_store.cpp:77-100 | On success the id reads as the saved profile; all other ids, and the active id for ids but `active`, are unchanged; on failure nothing visible changes; well-formed files stay so. |
| Profiles.ProfileStore.SetActiveId | libs/core/src/profile_store.cpp:122-135 | The active id is the given one if open and rename succeeded, else the old one; no other profile changes. |
| Profiles.ProfileStore.List | libs/core/src/profile_store.cpp:53-71 | The readable profiles of the directory, each as often as it is stored, sorted by id; raises exactly when reading one of them does. |
| Profiles.SortSorts | libs/core/src/profile_store.cpp:68-69 | Sorting by id sorts. |
| Profiles.SaveKeepsFaithful | libs/core/src/profile_store.cpp:77-100 | Saving keeps every file named after the profile in it. |
| Profiles.ReadAllFaithful | libs/core/src/profile_store.cpp:56-67 | Reading a faithful directory in any order yields each profile exactly once. |
| Profiles.ListIsTheMap | libs/core/src/profile_store.cpp:53-75 | The listed profiles are strictly ascending by id and are exactly those Get finds. |
| Switching.Find | libs/config/src/profile_manager.cpp:27-34 | The first executor with the key, or none has it. |
| Switching.ProfileManager.FindExecutor | libs/config/src/profile_manager.cpp:27-34 | The loop finds the first executor with the key. |
| Switching.ProfileManager.ApplyAll | libs/config/src/profile_manager.cpp:44-77 | Settings are applied in key order up to the first missing, unavailable or failing one, remembering for each the value read just before. |
| Switching.SettingOutcome | libs/config/src/profile_manager.cpp:45-77 | Every way one setting can come out: missing, unavailable, failing (each ends the loop there), or applied with its earlier value remembered. |
| Switching.ProfileManager.Restore | libs/config/src/profile_manager.cpp:64-68 | The backwards loop restores last applied first and names the keys in that order. |
| Switching.ProfileManager.Refuse | libs/config/src/profile_manager.cpp:51-60 | Rolls back, publishes one error event, and names the rolled back keys and the reason. |
| Switching.ProfileManager.SwitchTo | libs/config/src/profile_manager.cpp:36-85 | World, files, events and result all come out as the transaction `Switch`, of which the theorems below speak, whether or not the active id can be written; the files stay well formed. |
| Switching.UndoOne | libs/config/src/profile_manager.cpp:61-76 | By the undo law of one executor, one more apply and one more undo leave the way back to the start unchanged. |
| Switching.Unwinds | libs/config/src/profile_manager.cpp:51-55 | Undoing in reverse order what was applied leads back to exactly the starting world. |
| Switching.FailedSwitchIsUndone | libs/config/src/profile_manager.cpp:36-85 | Every failing switch leaves world, files and active id unchanged; the rolled back keys are the reverse of those before the refused one, strictly descending; one error event is published. |
| Switching.AcceptedApplies | libs/config/src/profile_manager.cpp:45-77 | A setting is accepted if and only if the first executor with its key is available in the world so far and applies it. |
| Switching.SucceedsIffAllApply | libs/config/src/profile_manager.cpp:36-85 | A switch succeeds if and only if its profile can be read and its settings apply one by one; it ends in the world they lead to and announces the profile by name. |
| Switching.RefusalTells | libs/config/src/profile_manager.cpp:46-75 | Every failing switch of a readable profile names the first setting that cannot be applied after those before it, and why, in its result and in its one event. |
| Switching.MissingProfileChangesNothing | libs/config/src/profile_manager.cpp:39-41 | A profile that cannot be read changes and announces nothing and is reported as not found; with a bus it is the only case in which nothing changes. |
| ProfileRuns.AppliedFacets | libs/config/src/profile_manager.cpp:45-77 | After any number of applied settings an executor's facet is what its key's value denotes, or untouched if not mentioned. |
| ProfileRuns.SwitchFacet | libs/config/src/profile_manager.cpp:36-85 | One switch changes a facet exactly to the value a successful profile mentions for it. |
| ProfileRuns.SwitchFiles | libs/config/src/profile_manager.cpp:79-84 | A switch changes at most the active id, to its own id when it succeeds and the id can be written; it publishes one info event on success, one error event on failure, none for a missing profile. |
| ProfileRuns.MachineFollowsProfiles | libs/config/src/profile_manager.cpp:36-85 | After any sequence of switches each executor's facet is what the latest successful profile mentioning its key says. |
| ProfileRuns.ActiveAndEvents | libs/config/src/profile_manager.cpp:79-84 | After any sequence of switches the active id is that of the last successful one whose record was written, and there is exactly one event per profile found, in order, info for a successful switch and error for a failed one. |
| ProfileRuns.WellFormedAreOrdered | libs/core/src/profile_store.cpp:36-43 | Settings read from well-formed files come in ascending key order. |
| PowerPlan.PaddedIsHex | plugins/executors/power_plan_executor.cpp:20-27 | A number that fits is printed as exactly that many lower-case digits with its value. |
| PowerPlan.PrintHexValue | plugins/executors/power_plan_executor.cpp:20-27 | Printing the value of any hex digits gives them back in lower case. |
| PowerPlan.ScanHexExact | plugins/executors/power_plan_executor.cpp:32-34 | On exactly width hex digits the width-limited conversion reads their value and stops behind them. |
| PowerPlan.ScanHexReads | plugins/executors/power_plan_executor.cpp:32-34 | Every text of white space, sign, 0x and digits within the width is read as the value of its digits, negated in 32 bits after a minus, and the scan stops right behind them. |
| PowerPlan.ScanHexNothing | plugins/executors/power_plan_executor.cpp:32-37 | Where neither a digit nor a sign follows the white space nothing is read. |
| PowerPlan.SpacesAre | plugins/executors/power_plan_executor.cpp:32-34 | White space is the six characters of the C locale. |
| PowerPlan.ScanShaped | plugins/executors/power_plan_executor.cpp:32-37 | Scanning a text of the right shape yields the eleven numbers at their places. |
| PowerPlan.ScanNeedsDashes | plugins/executors/power_plan_executor.cpp:32-37 | A text with fewer dashes than the format has is refused. |
| PowerPlan.TrailingIgnored | plugins/executors/power_plan_executor.cpp:32-37 | Whatever follows a canonical text is not looked at. |
| PowerPlan.ScannedSpells | plugins/executors/power_plan_executor.cpp:29-45 | A canonical text denotes exactly the GUID whose bytes it spells field by field (section 4 of RFC 9562). |
| PowerPlan.ParseGuid | plugins/executors/power_plan_executor.cpp:29-45 | Succeeds exactly when all eleven conversions do and stores them through the casts. |
| PowerPlan.PrintParse | plugins/executors/power_plan_executor.cpp:20-45 | Every printed GUID parses back to itself and is no alias. |
| PowerPlan.AliasRoundTrip | plugins/executors/power_plan_executor.cpp:47-68 | The name given to a scheme always resolves to that scheme. |
| PowerPlan.SchemeRoundTrip | plugins/executors/power_plan_executor.cpp:47-68 | And the scheme an alias means goes by that alias. |
| PowerPlan.AliasIsPublished | plugins/executors/power_plan_executor.cpp:13-18 | Each alias resolves to the scheme with the published text of its name. |
| PowerPlan.CurrentAfterApply | plugins/executors/power_plan_executor.cpp:72-92 | Applying succeeds exactly for schemes the system would set; afterwards the current value is the alias asked for, or the lower-case form of a canonical text of any other scheme; a refusal names its reason. |
| PowerPlan.ParsePrint | plugins/executors/power_plan_executor.cpp:20-45 | Every canonical mixed-case text parses, and prints back in lower case. |
| PowerPlan.UndoIffRestorable | plugins/executors/power_plan_executor.cpp:72-92 | Every successful plan change can be undone exactly when the scheme active before it could be read and would be set again. |
| PowerPlan.PowerPlanLawful | plugins/executors/power_plan_executor.cpp:72-92 | The power plan executor obeys the laws the rollback needs on every machine whose active scheme can be read and set again. |
| PowerPlan.FailedSwitchKeepsPlan | libs/config/src/profile_manager.cpp:36-85 | A failing profile switch leaves the active power plan, and everything else, as it was. |
| PowerPlan.PlanSwitches | libs/config/src/profile_manager.cpp:36-85 | A profile that only names a plan is applied if and only if that plan can be set. |
| PowerPlan.PlanFacets | plugins/executors/power_plan_executor.cpp:82-92 | A successful application makes the active scheme what the value resolves to: the facet law of the sequence theorem holds of power plans. |
| PowerPlan.PlanFollowsProfiles | libs/config/src/profile_manager.cpp:36-85 | With the power plan as the only executor, after any switches the active plan is what the latest successful profile naming one resolves to, and unchanged if there is none. |
| LifecycleRuns.PlantWork | apps/hwpanel-service/service_host.cpp:82-110 | Each atomic action of a pause, continue or stop callback takes flags and collector threads to where the callback goes on. |
| LifecycleRuns.InvStep | apps/hwpanel-service/service_controller.cpp:39-130 | One step of ServiceMain, the handler or a collector thread keeps all lifecycle invariants. |
| LifecycleRuns.InvRun | apps/hwpanel-service/service_controller.cpp:39-130 | All lifecycle invariants hold in every state of every interleaving. |
| LifecycleRuns.ReportsAgree | apps/hwpanel-service/service_controller.cpp:58-111 | After a successful start and before a stop, whenever the state mutex is free, the last reported state, `StateName`, the request flag and the number of running collector loops agree. |
| LifecycleRuns.FirstReportDecided | apps/hwpanel-service/service_controller.cpp:93-121 | In every run the report after START_PENDING appears with FinalizeStart and is decided by the controls that got the mutex before it: any stop wins, else the last of pause and continue. |
| LifecycleRuns.StartupIsWhatArrived | apps/hwpanel-service/service_controller.cpp:43-95 | In every run startup is over exactly once FinalizeStart has had the mutex, and what it decides on are the controls the handler got the mutex for before, in order. |
| LifecycleRuns.NoLostStop | apps/hwpanel-service/service_controller.cpp:43-57 | STOPPED is reported only after the stop callback has run; once the mutex is free after startup every stop received has been carried out and ServiceMain released. |
| LifecycleRuns.CallbacksNeverOverlap | apps/hwpanel-service/service_controller.cpp:45-79 | Pause, continue and stop callbacks overlap neither each other nor the start callback. |
| LifecycleRuns.SpawnNeedsNoJoin | plugins/collectors/pipeline.cpp:24-31 | A new collector thread is never stored over one not yet joined. |
| LifecycleRuns.JoinsEnd | plugins/collectors/pipeline.cpp:33-40 | A callback waiting in a join is never stuck: the thread it waits for can always step and is at most four steps from its end. |
| LifecycleRuns.CallbacksGoOn | plugins/collectors/pipeline.cpp:33-40 | A callback can always go on, except in a join, and there exactly when the thread is out of its loop. |
| LifecycleRuns.JoinedHasExited | plugins/collectors/pipeline.cpp:33-40 | No collector thread is given up while it runs: one that is gone had left its loop before. |
| LifecycleRuns.HistoryIsTicks | apps/hwpanel-service/service_host.cpp:59-60 | In every run the ring represents the samples given to the callback by the collector threads, every one and in order. |
| LifecycleRuns.HistoryOfTicks | apps/hwpanel-service/service_host.cpp:59-60 | So every `History(n)` is the newest part of the samples published. |
| LifecycleRuns.LoopPublishes | plugins/collectors/pipeline.cpp:49-73 | As long as the flag is up the collector thread publishes once in every four of its steps, the third being the first, and nobody else does. |
| LifecycleRuns.PausedFreezesHistory | apps/hwpanel-service/service_controller.cpp:66-70 | From a PAUSED report to the next continue no collector thread steps and every `History(n)` keeps its answer, which until then is made of every tick (`HistoryOfTicks`). |
| LifecycleRuns.StoppedIsQuiet | apps/hwpanel-service/service_host.cpp:82-110 | After STOPPED the host is down; and, the mutex being free, no collector loop runs exactly when the collectors are paused, or the start had succeeded and no continue found them paused after the stop. |
| LifecycleRuns.ContinueAfterStopRevives | apps/hwpanel-service/service_host.cpp:104-110 | A concrete run in which a continue after a stop leaves a collector loop running behind a STOPPED report. |
| LifecycleRuns.FailedStartNeverStops | apps/hwpanel-service/service_host.cpp:60-85 | A concrete run in which no server can be built and a stop leaves the collector loop running behind a STOPPED report. |
| Service.OutlineRan | apps/hwpanel-service/service_host.cpp:82-110 | What a callback does to flags and threads does not depend on where the threads stand. |
| Service.SettledWork | apps/hwpanel-service/service_controller.cpp:39-111 | The single actions of a callback do not change how the service will stand once the callback is over. |
| Service.RefinesAtomic | apps/hwpanel-service/service_controller.cpp:39-130 | Every step of the interleaved service is a step of one in which each callback happens all at once. |
| Service.HostStartInTurn | apps/hwpanel-service/service_host.cpp:31-80 | ServiceMain's steps through the host's start come to what the class's `Start` does in one piece. |
| Service.ControlsInTurn | apps/hwpanel-service/service_controller.cpp:39-111 | Over any stretch of a run after startup and before STOPPED, the settled state is what the controls make of it one after the other. |
| Service.LastControlDecides | apps/hwpanel-service/service_controller.cpp:58-85 | Any sequence of pauses and continues leaves a serving service as the last one says, with two reports each and a new thread only for continues that follow a pause. |
| Service.StretchOfControls | apps/hwpanel-service/service_controller.cpp:58-85 | The same for every interleaved stretch between two moments when the mutex is free. |
| Service.CollectorPipeline.Start | plugins/collectors/pipeline.cpp:24-31 | Idempotent; otherwise flag up and one new thread. |
| Service.CollectorPipeline.Stop | plugins/collectors/pipeline.cpp:33-40 | Idempotent; otherwise flag down and the thread joined. |
| Service.ServiceHost.Start | apps/hwpanel-service/service_host.cpp:31-80 | Collectors run even when no server can be built; the host runs only if one can. |
| Service.ServiceHost.Stop | apps/hwpanel-service/service_host.cpp:82-94 | Has the effect of the stop callback's atomic actions run one after the other. |
| Service.ServiceHost.PauseCollectors | apps/hwpanel-service/service_host.cpp:96-102 | Has the effect of the pause callback's atomic actions run one after the other. |
| Service.ServiceHost.ResumeCollectors | apps/hwpanel-service/service_host.cpp:104-110 | Has the effect of the continue callback's atomic actions run one after the other. |
| Service.ServiceController.HandleControl | apps/hwpanel-service/service_controller.cpp:39-85 | Flags, reports and plant follow the atomic control that `RefinesAtomic` relates to the threads. |
| Service.ServiceController.FinalizeStart | apps/hwpanel-service/service_controller.cpp:93-111 | Flags, reports and plant follow the atomic end of startup: a stop wins over a pause. |
| Pipeline.Collect | plugins/collectors/pipeline.cpp:54-68 | One tick's metrics are those of the collectors that gave some, in order. |
| Pipeline.MergedExactly | plugins/collectors/pipeline.cpp:54-68 | A metric is in the sample exactly when some collector gave it; an unavailable or throwing one costs only its own. |
| Pipeline.MergedInOrder | plugins/collectors/pipeline.cpp:55-64 | Metrics stand in the order in which the collectors were polled, each collector's as it gave them. |
| Pipeline.TruncationIsExact | plugins/collectors/pipeline.cpp:76-78 | Truncating elapsed time to milliseconds does not matter: it reaches the interval exactly when the elapsed time does. |
| Pipeline.SleepOut | plugins/collectors/pipeline.cpp:75-94 | The sleep ends with the first clock reading at or past the deadline, or with the flag down, and makes one clock reading for each flag reading; none when the tick itself took the interval. |
| Pipeline.Loop | plugins/collectors/pipeline.cpp:47-96 | The loop ticks from reading to reading as the flag and the clock decide (`RunIsDecided`), is left only at a flag that is down, emits each tick's merged metrics, and consecutive ticks start at least the interval apart. |
| Pipeline.TicksAreSpaced | plugins/collectors/pipeline.cpp:47-96 | Consecutive ticks start at least the interval apart. |
| Pipeline.TicksAreDue | plugins/collectors/pipeline.cpp:47-96 | And at most two readings of the clock late. |
| Pipeline.RunIsDecided | plugins/collectors/pipeline.cpp:47-96 | Clock and flag alone decide which ticks there are, and how many. |
| Pipeline.SlowTicks | plugins/collectors/pipeline.cpp:47-96 | When every tick takes the interval there is no sleep and the flag is read once per tick, up each time but the last. |
| Pipeline.TickNoEarlier | plugins/collectors/pipeline.cpp:47-96 | The k-th later tick starts no earlier than k intervals later. |
| Pipeline.WindowBound | plugins/collectors/pipeline.cpp:47-96 | Any window of length w holds at most floor(w / interval) + 1 tick starts. |
| Pipeline.OncePerSecond | apps/hwpanel-service/service_host.cpp:16-16 | At the service's interval of 1000 ms any n seconds hold at most n + 1 ticks. |
| PdhPaths.ParsedIsWellFormed | plugins/collectors/pdh_collector.cpp:22-44 | Whatever parses has a non-empty object without '(', an instance without ')', and a non-empty counter without backslash. |
| PdhPaths.ParsesIff | plugins/collectors/pdh_collector.cpp:22-44 | Exactly the paths of the form object-counter or object-(instance)-anything-counter parse, to the parts they are made of. |
| PdhPaths.BuiltParses | plugins/collectors/pdh_collector.cpp:22-44 | Well-formed parts, put together, parse to themselves even with parentheses in the counter or backslashes in the instance. |
| PdhPaths.PathRoundTrip | plugins/collectors/pdh_collector.cpp:22-44 | Rebuilding and parsing gives the parts back exactly when they are well formed. |
| PdhPaths.ParseBuild | plugins/collectors/pdh_collector.cpp:22-44 | A parsed path rebuilt parses the same; its text comes back under an exact condition. |
| PdhPaths.LocalizedParts | plugins/collectors/pdh_collector.cpp:119-130 | For every name translation, localizing changes object and counter only (exactly when the translated names can stand in a path), and leaves alone what does not parse. |
| PdhPaths.InstanceDecidesWildcard | plugins/collectors/pdh_collector.cpp:119-134 | Whether a localized path is a wildcard is a matter of its instance alone, as long as names hold no asterisk. |
| PdhPaths.BlockFront | plugins/collectors/pdh_collector.cpp:146-147 | The first C string of a stored block is the first string stored. |
| PdhPaths.BlockRoundTrip | plugins/collectors/pdh_collector.cpp:146-153 | Reading a block wherever it lies gives back the strings it was laid out from. |
| PdhPaths.SameName | plugins/collectors/pdh_collector.cpp:82-89 | True exactly for names equal up to case. |
| PdhPaths.SameFoldedIsEqual | plugins/collectors/pdh_collector.cpp:80-88 | Names match exactly when they read the same with every letter folded; without folding, when they are the same. |
| PdhPaths.EnglishNameToIndex | plugins/collectors/pdh_collector.cpp:72-96 | The cursor loop, reading only inside the buffer, answers with the first case-insensitive match of the pairs stored there, or that there is none. |
| PdhPaths.TableLookup | plugins/collectors/pdh_collector.cpp:72-96 | For every table of storable strings the scan of its block is the lookup in the table. |
| PdhPaths.FirstMatchIsFirst | plugins/collectors/pdh_collector.cpp:74-95 | The lookup yields the index text of the least matching pair, and nothing when no pair matches. |
| PdhPaths.NameFindsItsIndex | plugins/collectors/pdh_collector.cpp:72-96 | In a table whose names differ in more than case, looking up any of them in any case yields exactly its own index. |
| PdhPaths.FoundIffThere | plugins/collectors/pdh_collector.cpp:72-96 | In any table a name is found if and only if it is there. |
| Counters.AddedExactly | plugins/collectors/pdh_collector.cpp:146-154 | Exactly the expanded paths PDH accepts become counters of the spec. |
| Counters.AddedInOrder | plugins/collectors/pdh_collector.cpp:146-154 | The counters of earlier paths come first. |
| Counters.BlockIsWalked | plugins/collectors/pdh_collector.cpp:146-154 | From the start of a stored list the cursor meets each path in turn and then the final NUL, inside the buffer all the way. |
| Counters.PdhCollector.AddExpanded | plugins/collectors/pdh_collector.cpp:134-156 | The wildcard walk asks for every expanded path once, in order, and reports whether any was accepted. |
| Counters.PdhCollector.Walk | plugins/collectors/pdh_collector.cpp:146-155 | The cursor loop opens every path stored in the buffer once, in order, and reports whether any was accepted. |
| Counters.PdhCollector.AddCounter | plugins/collectors/pdh_collector.cpp:132-164 | The localized path itself, or when it holds a wildcard every path of its expansion, becomes a counter if PDH accepts it. |
| Counters.TotalOfPermuted | plugins/collectors/pdh_collector.cpp:213-221 | The sum of a spec does not depend on the order its counters were added in. |
| Counters.PdhCollector.Sum | plugins/collectors/pdh_collector.cpp:213-221 | A spec has a sum exactly when one of its counters is readable, and then the total of those that are. |
| Counters.SummedExactly | plugins/collectors/pdh_collector.cpp:223-240 | A metric is reported exactly when one of its counters can be read, with their scaled sum. |
| Counters.SummedInOrder | plugins/collectors/pdh_collector.cpp:225-240 | The metrics of earlier specs come first. |
| Counters.ScaledIsSummed | plugins/collectors/pdh_collector.cpp:220-229 | A metric's value is the sum of its readable counters, each scaled into the metric's unit. |
| Counters.MemoryAddsUp | plugins/collectors/pdh_collector.cpp:230-260 | Used and total memory are reported exactly when the available memory can be read and the physical memory is known; used and available add up to total. |
| Counters.PdhCollector.Collect | plugins/collectors/pdh_collector.cpp:207-261 | The metrics of all readable specs in order, followed by used and total memory when both the available and the physical memory are known. |
| Channel.DestutterIsForm | libs/core/src/channel_manager.cpp:55-68 | Suppressing repeated states yields a stutter-free sequence of which the observed one is a stretching. |
| Channel.FormIsUnique | libs/core/src/channel_manager.cpp:55-68 | There is only one such sequence. |
| Channel.BackoffNext | libs/core/src/channel_manager.cpp:99-102 | Doubling with a cap follows the closed form min(2^k, 15), k the failures since the last READY. |
| Channel.WaitIsScheduled | libs/core/src/channel_manager.cpp:98-102 | Half a second when the channel has not failed, else 1, 2, 4, 8 and from then on 15 seconds by the failures before it. |
| Channel.FailuresCounted | libs/core/src/channel_manager.cpp:78-102 | The failures that count are those since the last READY, whatever else was seen meanwhile. |
| Channel.StateIsLastSaid | libs/core/src/channel_manager.cpp:80-96 | The state shown is what the last probe that says anything says; an idle channel changes nothing. |
| Channel.ChannelManager.SetState | libs/core/src/channel_manager.cpp:55-68 | The callback hears a state exactly when it is a change. |
| Channel.ChannelManager.Observe | libs/core/src/channel_manager.cpp:80-96 | One observation sets the state it means, if any, and is heard if it is a change. |
| Channel.ChannelManager.MonitorLoop | libs/core/src/channel_manager.cpp:70-105 | Every wait is half a second, or min(2^k, 15) seconds after a failure; the callback hears the stutter-free form of the observations followed by Disconnected. |
| Channel.NotificationsAreTheForm | libs/core/src/channel_manager.cpp:55-105 | What a callback installed before a fresh start hears is the one stutter-free form, ending in Disconnected if it hears anything. |

## Left out

- Telemetry.Subscriber.Pop: is modelled at the moment its wait ends; the condition variable, its timeout and spurious wake-ups are not.
- Pipeline.Loop: takes the running flag to fall for good at some reading; a run without a stop never returns. The sleep and yield calls inside the wait have no effect of their own.
- Stream.Subscribe: the value `lround` gives a reciprocal that fits no int is a parameter, since C++ leaves it unspecified. Timeouts and cancellation are the list of turns.
- HubRuns.QueueIsHistory: is about the one collector thread that publishes to the hub; two threads publishing to one hub are covered only by the per-publisher theorems.
- Counters.PdhCollector.AddExpanded: takes the expansion to fill its buffer with a double-NUL-terminated list, as PDH documents; the query handles are not modelled.
- ProfileRuns.MachineFollowsProfiles: a switch may name the id `active` only while `active.json` is the record of the active id (or missing) and not itself a profile, since recording the active id overwrites it.
- Pipeline.TicksAreDue: bounds the lateness in readings of the clock; how far apart the readings are is up to the system.
- PowerPlan.PlanFollowsProfiles: the power plan is the only executor; the brightness executor is not modelled.
- LifecycleRuns.ReportsAgree: covers successful starts before a stop. After a failed start `StateName` is STOPPED although RUNNING may be reported and collectors run (`LifecycleRuns.FailedStartNeverStops`); all other lifecycle theorems hold for failed starts and for controls after a stop too, `Service.StretchOfControls` excepted.
- The classes in `TelemetryHub.dfy` are sequential; interleaving is the subject of the transition systems, whose steps are the lock regions of the same methods. `TelemetryHub` and `EventBus` repeat the same code and both use the class `Broadcast`.
- The two copies of the rollback loop in `SwitchTo` are one method.
- Fixed widths: `total_`, the stream index and queue sizes are unbounded; the ring capacity is taken to fit an int.
- Floating point: metric values and rates are real numbers, so rounding is not modelled.
- JSON text: printing and parsing are not modelled; a file holds a JSON value or is corrupt. Write errors after a successful open, case-insensitive file names and separators in ids are not modelled.
- `ProfileStore.Remove`, `EnsureDefaults`, and the directory watch of the profile manager: simple uses of what is modelled, or foreign calls.
- `BrightnessExecutor`: it reads one monitor and sets all of them, so the undo law is not claimed for it.
- Controls: PRESHUTDOWN is a stop, INTERROGATE and unknown controls do nothing and are not steps; all four callbacks are taken to be set, and the SCM to deliver one control at a time.
- Clocks, wall-clock timestamps, the SCM, the registry, PDH, WMI, NVML, gRPC and file-system calls appear only as steps or parameters.
- The order of events of different publishers: the bus gives none across subscribers.
- The Qt client, logging, installer and scripts.
