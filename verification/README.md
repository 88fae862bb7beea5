# HardwareMon, modelled in Dafny

Models of the stateful parts of HardwareMon, with proofs of what they keep. State machines over whole runs
come first; methods over arrays, dictionaries and object fields are proved against them. `dafny verify
dfyconfig.toml` covers the whole project.

- **Disk scan** (`Sorting`, `DirectoryIndex`, `Forest`, `CutExactly`, `LargestFiles`, `DiskScan`). A streaming pass
  keeps a 100-slot min-heap of the largest files and a directory index three levels deep; the index is cut to 80
  entries by a stable sort and rebuilt into linked nodes. Each part is proved equal to a definition over the whole
  list of files. The cut is closed under parents because three things meet: parents enter the index earlier, the sort
  is stable, and a parent is never smaller. What is published is then said of the scanned files alone.
- **Block devices** (`BlockDevices`) and the **job table** (`JobTable`) from the same file.
- **Plugin broker and SDK** (`Plugins`, `BrokerState`, `BrokerEffects`, `BrokerSafety`, `RelaunchBudget`,
  `PluginBroker`). Every broker method, monitor action and protocol line is one event; each launch has two first-in
  first-out pipes, and its process may use the SDK, or read and write lines of any kind by itself. The invariant ties
  disk, registry, runtimes, processes, pipes and the SDK's copy of the grants together; `BrokerEffects` says of every
  call when it is refused, what it changes and what it leaves alone.
- **Benchmark run** (`Rounding`, `Benchmark`, `BenchmarkRuns`, `BenchmarkStages`, `BenchmarkCompletion`,
  `BenchmarkProgress`, `BenchmarkService`). The worker is a program counter interleaved with `start` and `cancel`;
  writing the result is one step that adds a row or fails.
- **Gaming sessions** (`GamingMetrics`, `GamingSessions`, `GamingReport`). Scans in two critical sections that may
  overlap, database writes that may fail, deletions in two steps, restarts of the detector and of the program.
- **Autostart** (`DesktopEntry`, `Autostart`). Line splitting, the parser, the in-place editor and override shadowing,
  on real text.
- **History buckets** (`HistoryQuery`), **network counters** (`NetworkCounters`), **watches** and **health score** of
  the Android app (`Watches`, `Health`). `Options` holds the option type and the ends of sequences, `Texts` the order
  of strings, `Arithmetic` facts on reals.

Numbers are unbounded integers and exact reals; rounding is modelled where results depend on it. Clocks, run ids,
tokens, random directory suffixes, the file walk, process behaviour and failing calls into the system are inputs;
"Left out" names the failures that are not among them.

## Where the code differs from what one may expect

- The Hidden flag does not always read back: the editor replaces the first line starting with `Hidden=`, while the
  parser takes the last line whose key is Hidden. `FlagReadsBack` says exactly when it does, `TwoHiddenLinesStay`
  shows a file where it does not.
- Switching a user entry on has no effect when its GNOME key says false (`ToggleTakesEffect`, `GnomeKeyStaysOff`).
- Disabling a plugin writes the record, saves the registry and only then stops the process. When the save fails, the
  call fails too, and the plugin goes on running although the registry says it is disabled; it can then be removed or
  updated under its running process (`FailedDisableLeavesRunning`, `GoneUnderProcess`). `LooseExactlyWhenEverOff` says
  exactly which plugins these are; every other registered plugin is enabled and fully approved
  (`RegisteredMeansApproved`).
- A bundled package whose first copy fails part-way stays as it is: the next start finds its directory and does not
  copy again (`InstallBundled`).
- "Running" is what a plugin says of itself. A launch is shown as running only after its SDK has handled the hello
  exactly as long as no ready or heartbeat line has been written for it before that (`RunningMeansGreeted`,
  `OrderlyExactlyNeverMisled`). Both bundled plugins greet the host before they read anything
  (`BundledPluginRunsUngreeted`). What the broker enforces does not depend on it (`RegisteredMeansApproved`,
  `EventsAreAccepted`, `SamplesOnlyWhenGranted`).
- Switching on a system entry that is off changes nothing, and the call succeeds all the same; with a user file of its
  name that gives no values, that file takes the entry's place, without a command (`EnablingSystemEntry`).
- Switching a system entry off and on again loses a user file of the same name that gives no values
  (`DisableThenEnableRestores`, `SilentFileIsLost`).
- A package update leaves a private directory behind when the copy fails part-way, the staged or a rejected new
  directory cannot be removed, or the old directory cannot be moved, put back or removed. When it cannot be put back
  the plugin is gone from its place (`RollBackMayLosePlace`); when it cannot be removed the new package is in place
  although the call reports failure (`SwapIsTransactional`).
- A benchmark `cancel` after the last check is accepted, yet the run does not end cancelled and may complete
  (`LateCancelIsIgnored`, `CancelStopsExactly`).
- A benchmark start whose thread fails to start leaves the service running for ever (`StuckExactlyByFailedThread`).
- A temporary file that cannot be removed turns a benchmark that was doing well, or was cancelled, into a failed one
  (`TempFileGone`, `FailingUnlinkFailsRun`).
- Restarting the detector inside one program marks the running session's row interrupted; its next sample marks it
  active again (`RestartInterruptsThenSampleRevives`). So the current session's row need not be active;
  `CurrentRowActiveExactly` says when it is.
- An active row need not be the current session's: one left open when the program ended stays active until the
  detector's start commits (`RestartLeavesRowOpen`). `OtherActiveRowsAreLeftOpen` says exactly which rows these are.
- A counter that only ever goes backwards also balances: both sides are then zero (`RatesCoverSession`).
- A thermal level below zero scores like the hottest (`ThermalRiseExactly`). This is a fact about the function alone:
  the collector passes on Android's thermal status constants, which start at zero.

## Model

| member | source | states |
|---|---|---|
| `DirectoryIndex.IndexAgrees` | hardwaremon_app/backend_fastapi/telemetry/storage.py:563-566 | for every stream of files the running index lists each directory once, parents first; its keys are exactly the directories one to three levels deep with a file at or below them, and each holds the sum of all those files |
| `DirectoryIndex.CreditAncestorsAt` | hardwaremon_app/backend_fastapi/telemetry/storage.py:564-566 | crediting one file adds its size once to each of its ancestors down to the given depth and to no other key |
| `DirectoryIndex.ContainmentMonotone` | hardwaremon_app/backend_fastapi/telemetry/storage.py:564-566 | a directory never outweighs one that contains it |
| `DirectoryIndex.SiblingsWithinParent` | hardwaremon_app/backend_fastapi/telemetry/storage.py:564-566 | any distinct children of a directory add up to at most that directory |
| `DirectoryIndex.IndexBalances` | hardwaremon_app/backend_fastapi/telemetry/storage.py:563-566 | at every level above the third, a directory's bytes are the files directly in it plus its indexed children |
| `DirectoryIndex.ScannedBytesBalance` | hardwaremon_app/backend_fastapi/telemetry/storage.py:556-566 | depth-1 totals plus the files directly in the root are all scanned bytes |
| `Sorting.SortKeepsTies` | hardwaremon_app/backend_fastapi/telemetry/storage.py:583-585 | stability, repeats included: the elements tied with any given one come out as they stood, all of them and in the same order |
| `Sorting.SortStable` | hardwaremon_app/backend_fastapi/telemetry/storage.py:583-585 | of a pair that is not out of order, some occurrence of the first stays ahead of some occurrence of the second; for lists without repeats this is their order |
| `Sorting.SortOrdered` | hardwaremon_app/backend_fastapi/telemetry/storage.py:583-585 | the sorted list is ordered |
| `Sorting.OrderedUnique` | hardwaremon_app/backend_fastapi/telemetry/storage.py:615 | under a total order the ordered arrangement of the same elements is unique, so the sort is determined |
| `Forest.CutClosedUnderParents` | hardwaremon_app/backend_fastapi/telemetry/storage.py:583-585 | for every scan and every limit the cut of the index has no repeats, is in descending size, carries the true sizes, and holds the parent of every kept directory ahead of it |
| `Forest.CutKeepsLargest` | hardwaremon_app/backend_fastapi/telemetry/storage.py:583-585 | no directory left out by the cut is larger than one kept; how many are kept is CutIsFirstDirectories |
| `Forest.RootsAreTopLevel` | hardwaremon_app/backend_fastapi/telemetry/storage.py:598-604 | the entries whose parent was not kept are exactly the kept depth-1 directories, in the order of the cut |
| `Forest.ForestHoldsEachOnce` | hardwaremon_app/backend_fastapi/telemetry/storage.py:598-606 | the forest holds every kept directory exactly once and nothing else |
| `Forest.GrowSound` | hardwaremon_app/backend_fastapi/telemetry/storage.py:598-606 | in every tree, at every node: children lie under their own parent, siblings descend in size, and the children add up to at most the node |
| `Forest.GrowStops` | hardwaremon_app/backend_fastapi/telemetry/storage.py:587-590 | no directory below the third level is in the forest: looking one level deeper shows the same trees |
| `CutExactly.CutIsFirstDirectories` | hardwaremon_app/backend_fastapi/telemetry/storage.py:583-585 | the cut holds exactly the first 80 of the directories one to three levels deep with a file beneath them, or all of them: larger ones first, and of one size those found first |
| `CutExactly.ListedAsFound` | hardwaremon_app/backend_fastapi/telemetry/storage.py:563-566 | directories enter the index in the order of their discovery: by the earlier file, and of one file's the shallower first |
| `CutExactly.ForestShowsFirst` | hardwaremon_app/backend_fastapi/telemetry/storage.py:583-626 | said of the files alone: the published trees are those of the first 20 top-level directories among these 80, each with every kept directory beneath it exactly once, true sizes at every node and siblings in the order of the cut |
| `CutExactly.AllShownWhenFew` | hardwaremon_app/backend_fastapi/telemetry/storage.py:583-626 | with at most 80 directories, at most 20 of them top-level, every one of them is in the published forest, once |
| `LargestFiles.LessOrder` | hardwaremon_app/backend_fastapi/telemetry/storage.py:558-561 | Python's order on (size, path) tuples is a total order |
| `LargestFiles.RootIsLeast` | hardwaremon_app/backend_fastapi/telemetry/storage.py:558-561 | in a binary heap nothing is less than the root |
| `LargestFiles.Heap.SiftUp` | hardwaremon_app/backend_fastapi/telemetry/storage.py:559 | a heap whose last entry may be too small becomes a heap with the same entries, in place |
| `LargestFiles.Heap.SiftDown` | hardwaremon_app/backend_fastapi/telemetry/storage.py:561 | a heap whose root may be too large becomes a heap with the same entries, in place |
| `LargestFiles.Heap.Push` | hardwaremon_app/backend_fastapi/telemetry/storage.py:559 | the heap holds one entry more, the new one, and is a heap again |
| `LargestFiles.Heap.Replace` | hardwaremon_app/backend_fastapi/telemetry/storage.py:561 | the new entry stands for the old root, and the heap is a heap again |
| `LargestFiles.Heap.Offer` | hardwaremon_app/backend_fastapi/telemetry/storage.py:558-561 | after every file the array is a well-formed heap of min(100, n) entries, everything scanned is kept or dropped, and nothing dropped is larger than anything kept |
| `LargestFiles.Heap.Largest` | hardwaremon_app/backend_fastapi/telemetry/storage.py:608-616 | the published sizes are those of the first 50 of the full descending sort of everything scanned |
| `LargestFiles.PublishedAreLargest` | hardwaremon_app/backend_fastapi/telemetry/storage.py:608-616 | whatever is kept under the heap's account, its 50 largest sizes are the 50 largest of the whole scan |
| `LargestFiles.FirstOfKept` | hardwaremon_app/backend_fastapi/telemetry/storage.py:608-616 | of what the heap keeps the first 50 in descending order are listed, and no other scanned file is larger than one of them |
| `DiskScan.CountFile` | hardwaremon_app/backend_fastapi/telemetry/storage.py:556-581 | one file: the counters, the heap, the credited ancestors, and a progress update every 250 files or when due |
| `DiskScan.ScanFiles` | hardwaremon_app/backend_fastapi/telemetry/storage.py:541-581 | one pass, up to the first error that is not a failed read, computes the index, the heap, the three counters and the progress updates of what it passed |
| `DiskScan.MakeNodes` | hardwaremon_app/backend_fastapi/telemetry/storage.py:586-597 | one fresh node without children for each kept directory, with its size |
| `DiskScan.LinkNodes` | hardwaremon_app/backend_fastapi/telemetry/storage.py:598-604 | after the loop each node's children are the nodes of its kept children in cut order, and the tree list holds the roots |
| `DiskScan.SortChildren` | hardwaremon_app/backend_fastapi/telemetry/storage.py:605-606 | sorting each child list leaves it as it was: the cut's order already was the wanted one |
| `DiskScan.BuildForest` | hardwaremon_app/backend_fastapi/telemetry/storage.py:586-606 | the linked nodes, the empty child lists of the third level included, show exactly the forest defined from the cut |
| `DiskScan.ScanWorker` | hardwaremon_app/backend_fastapi/telemetry/storage.py:530-636 | the job fails exactly when an error other than a failed read comes up; otherwise it publishes the true byte, file and error counts, the trees of the first 20 top-level among the first 80 directories with all kept beneath them, and 50 files, or all, in descending order, none left out being larger; either way it has shown the updates of what it passed |
| `DiskScan.ProgressClimbs` | hardwaremon_app/backend_fastapi/telemetry/storage.py:568-581 | from update to update progress and bytes never fall and the file count rises; progress stays at or below 0.99 |
| `DiskScan.UpdateAfterFile` | hardwaremon_app/backend_fastapi/telemetry/storage.py:568-581 | a file is followed by an update exactly when it is every 250th or the last one is 0.4 seconds old, showing the share of the used bytes, 0.99 at most, the bytes and the files |
| `DiskScan.OffersExactly` | hardwaremon_app/backend_fastapi/telemetry/storage.py:558-561 | what the heap is offered for a file is its size and its path |
| `DiskScan.PublishedForestSound` | hardwaremon_app/backend_fastapi/telemetry/storage.py:583-626 | every published tree is sound, its root is a top-level directory, and its size is the sum of all files beneath it |
| `DiskScan.PublishedRootsAreLargest` | hardwaremon_app/backend_fastapi/telemetry/storage.py:583-626 | no top-level directory missing from the published forest is larger than one in it, through both the cut to 80 and the cut to 20 |
| `JobTable.Jobs.Trim` | hardwaremon_app/backend_fastapi/telemetry/storage.py:518-527 | trimming drops exactly as many finished jobs as needed or as there are, and none that was created later than a finished job it keeps |
| `JobTable.OldestFirst` | hardwaremon_app/backend_fastapi/telemetry/storage.py:521-526 | the first n of the sorted (created_at, job_id) list are n distinct finished jobs, all older than the rest |
| `JobTable.TrimBounds` | hardwaremon_app/backend_fastapi/telemetry/storage.py:518-527 | no unfinished job is dropped; the table is back at 20 unless unfinished jobs alone exceed it, in which case no finished one is left |
| `JobTable.OldestGo` | hardwaremon_app/backend_fastapi/telemetry/storage.py:521-526 | what goes is complete or failed, and no complete or failed job that stays was created earlier |
| `JobTable.FinishedExactly` | hardwaremon_app/backend_fastapi/telemetry/storage.py:521-525 | finished means complete or failed |
| `BlockDevices.FlattenLsblk` | hardwaremon_app/backend_fastapi/telemetry/storage.py:161-186 | the loop over the roots computes the recursive flattening |
| `BlockDevices.Flattener.Visit` | hardwaremon_app/backend_fastapi/telemetry/storage.py:164-182 | a visit appends the flattening of the whole subtree to the list |
| `BlockDevices.Flattener.MergeInto` | hardwaremon_app/backend_fastapi/telemetry/storage.py:165-178 | the loop over the six inherited keys computes the merge |
| `BlockDevices.FlattenAllDescribes` | hardwaremon_app/backend_fastapi/telemetry/storage.py:161-186 | for every forest: one entry per device, parents first; each inherited field is the nearest truthy value upwards, else the root's own; the physical name and path are the topmost truthy ones from the root to the parent; every other field is the device's own |
| `BlockDevices.MergeDescribes` | hardwaremon_app/backend_fastapi/telemetry/storage.py:165-179 | one merge turns the parent's described entry into the device's |
| `BlockDevices.TopmostStep` | hardwaremon_app/backend_fastapi/telemetry/storage.py:171-176 | taking the parent's physical value, or failing that its merged one, yields the topmost truthy value of the longer path |
| `BrokerSafety.StepKeeps` | hardwaremon_app/backend_fastapi/plugins/broker.py:174-203 | every event, whatever the plugin writes, whichever save of the registry fails, and restarts of the program included, keeps the invariant of registry, runtimes, launches and pipes |
| `BrokerSafety.RegisteredMeansApproved` | hardwaremon_app/backend_fastapi/plugins/broker.py:174-203 | in every reachable state, whatever plugins write and whichever saves fail, a registered runtime is a launch of its own plugin whose hello carried every grant the registry holds now; and unless the plugin was disabled without being stopped, its directory is there with a valid manifest, it is enabled, every requested capability is granted, and its hello carried exactly the registry's grants |
| `BrokerSafety.LooseExactlyWhenEverOff` | hardwaremon_app/backend_fastapi/plugins/broker.py:189-203 | exactly: over any run a registered plugin counts as disabled without being stopped if and only if at some point of the run the launch it still has was registered while the plugin was not enabled |
| `BrokerSafety.StepRegistration` | hardwaremon_app/backend_fastapi/plugins/broker.py:287-358 | one step keeps a registration as it is, taking it out of supervision only by leaving its plugin not enabled, or replaces it by that of a new, supervised launch |
| `BrokerSafety.UnsavedDisable` | hardwaremon_app/backend_fastapi/plugins/broker.py:195-202 | a disable whose save of the registry fails leaves every runtime, process and pipe as it was, while the plugin is not enabled any more |
| `BrokerSafety.FailedDisableLeavesRunning` | hardwaremon_app/backend_fastapi/plugins/broker.py:189-203 | from any fresh broker: after enabling a fully granted plugin and such a disable its process lives on, registered, while the plugin is not enabled |
| `BrokerSafety.GoneUnderProcess` | hardwaremon_app/backend_fastapi/plugins/broker.py:237-285 | a registered plugin that is not enabled and not bundled can be removed, or replaced by another package, while its process and registration stay as they are |
| `BrokerSafety.LiveMeansRegistered` | hardwaremon_app/backend_fastapi/plugins/broker.py:287-358 | in every reachable state a live process is the registered one of its plugin, so no plugin has two; unless it was disabled without being stopped, its plugin is enabled with every capability granted, and its hello carried the registry's grants |
| `BrokerSafety.SetGrantsKeeps` | hardwaremon_app/backend_fastapi/plugins/broker.py:174-187 | changing grants stops the plugin and disables it before the registry differs from a hello, also when saving it then fails |
| `BrokerSafety.SetEnabledKeeps` | hardwaremon_app/backend_fastapi/plugins/broker.py:189-203 | enabling, with the launch it ends in, and disabling keep the invariant, also when the save or the launch fails |
| `BrokerSafety.InstallKeeps` | hardwaremon_app/backend_fastapi/plugins/broker.py:205-271 | installing keeps the invariant, however the swap ends |
| `BrokerSafety.RemoveKeeps` | hardwaremon_app/backend_fastapi/plugins/broker.py:273-285 | removing keeps the invariant: what may be removed is not registered, or was disabled without being stopped |
| `BrokerSafety.LaunchKeeps` | hardwaremon_app/backend_fastapi/plugins/broker.py:287-337 | launching registers only an approved plugin and puts the registry's grants into its hello |
| `BrokerSafety.StopKeeps` | hardwaremon_app/backend_fastapi/plugins/broker.py:339-358 | after a stop the plugin is not registered, and the invariant holds |
| `BrokerSafety.ExitKeeps` | hardwaremon_app/backend_fastapi/plugins/broker.py:396-409 | an exit report keeps the invariant, whichever of its saves fails |
| `BrokerSafety.ReadStdoutKeeps` | hardwaremon_app/backend_fastapi/plugins/broker.py:415-435 | taking one line of output keeps the invariant |
| `BrokerSafety.RunningMeansGreeted` | hardwaremon_app/plugin_sdk/python/hardwaremon_sdk.py:41-59 | a registered runtime shown as running, for which no ready or heartbeat line was written while its SDK was ungreeted, has handled the hello with its own token; its grants are then the registry's, unless the plugin was disabled without being stopped |
| `BrokerSafety.OrderlyExactlyNeverMisled` | hardwaremon_app/backend_fastapi/plugins/broker.py:415-435 | exactly: over any run no such line was written for a launch if and only if at no point of the run would reading on in its pipe have shown it as running before its SDK had handled the hello |
| `BrokerSafety.OrderlyStep` | hardwaremon_app/backend_fastapi/plugins/broker.py:415-435 | a step loses that order exactly when reading on from there shows the launch as running ungreeted, and it never returns |
| `BrokerSafety.MisledByLine` | hardwaremon_app/backend_fastapi/plugins/broker.py:426-429 | an ungreeted launch with a ready or heartbeat line in its pipe is shown as running when that line is read, its registration untouched |
| `BrokerSafety.SdkAgreesWithRegistry` | hardwaremon_app/plugin_sdk/python/hardwaremon_sdk.py:34-50 | in every reachable state the SDK of a registered runtime holds no grants before it has handled the hello and all of the registry's afterwards; unless the plugin was disabled without being stopped it holds no others, so what it agrees to publish is accepted |
| `BrokerSafety.OwnReadyRunsUngreeted` | hardwaremon_app/backend_fastapi/plugins/broker.py:426-429 | a process that writes its own ready or heartbeat line before any hello is shown as running all the same |
| `BrokerSafety.BundledPluginRunsUngreeted` | hardwaremon_app/backend_fastapi/official_plugins/org.hardwaremon.developer-tools/plugin.py:12-16 | so it goes with a bundled plugin from a fresh start: shown as running while its hello, with the grants, is unread |
| `BrokerSafety.EventsAreAccepted` | hardwaremon_app/backend_fastapi/plugins/broker.py:432-435 | in any state, an authenticated event at the head of the pipe is accepted and logged, clipped to 2000 characters, if and only if the registry grants events.publish; otherwise only the line goes |
| `BrokerSafety.AcceptedOnlyWhileGranted` | hardwaremon_app/backend_fastapi/plugins/broker.py:432-435 | in any state, an event is taken in only by reading an authenticated event line of that launch while the registry grants events.publish |
| `BrokerSafety.NoEventLost` | hardwaremon_app/backend_fastapi/plugins/broker.py:415-435 | while its runtime stays registered and its plugin was not disabled without being stopped, and whoever wrote them: with the grant the events written are accepted in order up to those still in the pipe; without it none is |
| `BrokerSafety.SamplesOnlyWhenGranted` | hardwaremon_app/backend_fastapi/plugins/broker.py:377-390 | whatever plugins write, telemetry is on its way only to launches whose hello carries the telemetry grant |
| `BrokerSafety.StaleExitIsHarmless` | hardwaremon_app/backend_fastapi/plugins/broker.py:396-401 | an exit report for a replaced or stopped runtime changes nothing |
| `BrokerSafety.ExitSparesLive` | hardwaremon_app/backend_fastapi/plugins/broker.py:396-407 | in every reachable state no exit report unregisters a live process or touches its plugin's record, restart counter included, whichever saves fail |
| `BrokerEffects.GrantsAreStored` | hardwaremon_app/backend_fastapi/plugins/broker.py:174-187 | refused, with nothing changed, exactly without a manifest or for a capability unknown or not requested; otherwise the record's grants are exactly those given, it is disabled, its other fields, all other records and the disk stay, the plugin is unregistered, and the file equals memory when the save works |
| `BrokerEffects.EnablingExactly` | hardwaremon_app/backend_fastapi/plugins/broker.py:189-203 | refused exactly without a manifest or, to enable, with a capability not granted; otherwise the record says so, enabling clears the counter, and when the save works a disabled plugin is stopped and an enabled one runs if its process starts |
| `BrokerEffects.LaunchExactly` | hardwaremon_app/backend_fastapi/plugins/broker.py:287-337 | a launch succeeds exactly when the plugin runs already, or is enabled and approved and its process gets its hello; the new launch is registered and greeted with the registry's grants |
| `BrokerEffects.StopExactly` | hardwaremon_app/backend_fastapi/plugins/broker.py:339-358 | a stop unregisters one plugin, sends the shutdown line to a process that listens, ends it, and touches nothing else |
| `BrokerEffects.RestartExactly` | hardwaremon_app/backend_fastapi/routes/plugins.py:75-82 | a restart stops the plugin and launches it anew exactly when it may run |
| `BrokerEffects.ManifestAccepted` | hardwaremon_app/backend_fastapi/plugins/broker.py:469-504 | a manifest is accepted exactly when it can be read, carries its directory's name as a valid identifier, API version 1, a usable entry point and known capabilities only |
| `Plugins.ValidIdExactly` | hardwaremon_app/backend_fastapi/plugins/broker.py:24 | an identifier is three to eighty lower-case letters, digits, dots, dashes or bars, a letter or digit first |
| `BrokerEffects.InstallExactly` | hardwaremon_app/backend_fastapi/plugins/broker.py:232-271 | installing is refused exactly for an unacceptable manifest or an installed plugin that is enabled; otherwise the swap is made, and when it goes through only the bundled mark of that record changes |
| `BrokerEffects.InstallInstalls` | hardwaremon_app/backend_fastapi/plugins/broker.py:232-271 | with nothing failing the package is in place and accepted afterwards; a new plugin is disabled and without grants |
| `BrokerEffects.BundledExactly` | hardwaremon_app/backend_fastapi/plugins/broker.py:114-124 | a missing bundled package is copied and its record marked, other fields kept; a partial copy makes no record |
| `BrokerEffects.RemoveExactly` | hardwaremon_app/backend_fastapi/plugins/broker.py:273-285 | removing is refused exactly without a manifest or for a bundled or enabled plugin; otherwise its directory and its record go |
| `BrokerEffects.ExitExactly` | hardwaremon_app/backend_fastapi/plugins/broker.py:396-409 | a relaunch is scheduled exactly after the exit of the registered launch of an enabled plugin with fewer than five exits counted, while the program is not stopping and both saves work; the record gains one log line and, if enabled, one count |
| `BrokerEffects.CrashIsRepaired` | hardwaremon_app/backend_fastapi/plugins/broker.py:396-413 | after such an exit the due relaunch registers a new live process, greeted with the same grants, and the exit is counted |
| `BrokerEffects.BackoffExactly` | hardwaremon_app/backend_fastapi/plugins/broker.py:409 | the wait is two seconds an exit counted, ten at most |
| `BrokerEffects.RelaunchExactly` | hardwaremon_app/backend_fastapi/plugins/broker.py:409-413 | when the wait is over the pending plugin, and no other, is launched as any other would be |
| `BrokerEffects.SampleExactly` | hardwaremon_app/backend_fastapi/plugins/broker.py:377-390 | a sample goes to exactly the registered live listening launches whose plugin holds the telemetry grant |
| `BrokerEffects.LateExactly` | hardwaremon_app/backend_fastapi/plugins/broker.py:393-394 | a late heartbeat marks exactly a registered live launch and changes nothing else |
| `BrokerEffects.LineExactly` | hardwaremon_app/backend_fastapi/plugins/broker.py:415-435 | what each kind of line does to the launch and which log line it gives |
| `BrokerEffects.LogExactly` | hardwaremon_app/backend_fastapi/plugins/broker.py:449-452 | a log line, cut to 2000 characters, ends the last 300 kept with the launch and the last 50 in its record |
| `BrokerEffects.RestartedProgramIsFresh` | hardwaremon_app/backend_fastapi/plugins/broker.py:520-525 | a program started again has the plugin root and the saved registry and runs nothing |
| `BrokerEffects.PluginReadsExactly` | hardwaremon_app/plugin_sdk/python/hardwaremon_sdk.py:41-59 | the SDK of a live process takes the next line sent and answers on the other pipe |
| `BrokerEffects.ProcessActsExactly` | hardwaremon_app/plugin_sdk/python/hardwaremon_sdk.py:31-37 | what a live process writes, publishes under its grant or takes by itself goes through its pipes; a dead one does nothing |
| `BrokerEffects.EventsAreCalls` | hardwaremon_app/backend_fastapi/plugins/broker.py:174-435 | every event of a run has the effect of its call alone |
| `RelaunchBudget.RelaunchesAreBounded` | hardwaremon_app/backend_fastapi/plugins/broker.py:195-197 | over any run, restarts of the program included, the counters of an enabled plugin in the registry and in its file both cover what was spent since the last explicit enable |
| `RelaunchBudget.AtMostFiveRelaunches` | hardwaremon_app/backend_fastapi/plugins/broker.py:396-413 | between two explicit enables at most five relaunches are scheduled and their delays add up to at most thirty seconds, however often the program is restarted in between |
| `RelaunchBudget.ScheduledIsCounted` | hardwaremon_app/backend_fastapi/plugins/broker.py:403-408 | a relaunch is scheduled only when the plugin is enabled, fewer than five were counted, and this one is counted in the registry and saved |
| `RelaunchBudget.AccountGrows` | hardwaremon_app/backend_fastapi/plugins/broker.py:396-413 | over any run the account grows by one, and by two seconds an exit counted up to ten, exactly when a relaunch of the plugin is scheduled |
| `RelaunchBudget.AccountClears` | hardwaremon_app/backend_fastapi/plugins/broker.py:195-197 | and is cleared exactly by an explicit enable that is not refused |
| `PluginBroker.Broker.Stop` | hardwaremon_app/backend_fastapi/plugins/broker.py:339-358 | the new state: unregistered, shutdown sent, process gone, status stopped; nothing when not registered; the safety invariant is kept |
| `PluginBroker.Broker.SaveRegistry` | hardwaremon_app/backend_fastapi/plugins/broker.py:527-532 | the registry as it is goes into its file, or the file stays as it was and the call fails |
| `PluginBroker.Broker.Launch` | hardwaremon_app/backend_fastapi/plugins/broker.py:287-337 | the new state and outcome for every refusal, a failed spawn, readers that do not start, a process dead or deaf before its hello, and success; the safety invariant is kept |
| `PluginBroker.Broker.SetGrants` | hardwaremon_app/backend_fastapi/plugins/broker.py:174-187 | refused with the state unchanged, or the plugin stopped, disabled and its record holding exactly the given grants (GrantsAreStored), also when the save then fails; the safety invariant is kept |
| `PluginBroker.Broker.SetEnabled` | hardwaremon_app/backend_fastapi/plugins/broker.py:189-203 | the new state and outcome, with the restart counter cleared by enabling only; a save that fails after the change ends the call before the launch or the stop; the safety invariant is kept |
| `PluginBroker.Broker.SwapPackage` | hardwaremon_app/backend_fastapi/plugins/broker.py:242-263 | the copy, set-aside, move, validate, roll back and clean up steps end in the plugin root the transition says, for every fault |
| `PluginBroker.Broker.RollBack` | hardwaremon_app/backend_fastapi/plugins/broker.py:253-257 | afterwards the directory set aside is back in its place, or the place is empty; when the new directory cannot be removed, or the old one not be put back, what is left then |
| `PluginBroker.Broker.MoveStaged` | hardwaremon_app/backend_fastapi/plugins/broker.py:250-261 | the move, its validation, the way back and the staged directory, for every fault |
| `PluginBroker.Broker.InstallArchive` | hardwaremon_app/backend_fastapi/plugins/broker.py:232-271 | the new state and outcome once the archive is unpacked, with a failing swap and a failing save; the safety invariant is kept |
| `PluginBroker.Broker.InstallBundled` | hardwaremon_app/backend_fastapi/plugins/broker.py:114-123 | a bundled package is copied only when its directory is missing; a copy that fails part-way stays and makes no record; the rest of the record and the safety invariant are kept |
| `PluginBroker.Broker.Remove` | hardwaremon_app/backend_fastapi/plugins/broker.py:273-285 | the new state and outcome, bundled and enabled plugins refused, a removal that fails part-way, and a save that fails afterwards; the safety invariant is kept |
| `PluginBroker.Broker.Restart` | hardwaremon_app/backend_fastapi/routes/plugins.py:75-82 | stop, then launch; the safety invariant is kept |
| `PluginBroker.Broker.ExitSeen` | hardwaremon_app/backend_fastapi/plugins/broker.py:396-409 | the new state, and whether a relaunch was scheduled, which neither a failing save of the log line nor one of the counter allows; for a process that is gone the safety invariant is kept |
| `PluginBroker.Broker.RelaunchDue` | hardwaremon_app/backend_fastapi/plugins/broker.py:409-413 | the new state after the delayed relaunch; the safety invariant is kept |
| `PluginBroker.Broker.Attend` | hardwaremon_app/backend_fastapi/plugins/broker.py:371-394 | one monitor turn for a live runtime: a sample when granted, and unresponsive when the heartbeat is late; the safety invariant is kept |
| `PluginBroker.Broker.HandleMessage` | hardwaremon_app/backend_fastapi/plugins/broker.py:418-435 | what becomes of the runtime and of the log for each kind of line: garbled, foreign token, ready, heartbeat, log, event, or one of an unknown type, which is ignored |
| `PluginBroker.Broker.ReadLine` | hardwaremon_app/backend_fastapi/plugins/broker.py:415-435 | the new state after one line; the safety invariant is kept |
| `PluginBroker.Broker.AppendRuntimeLog` | hardwaremon_app/backend_fastapi/plugins/broker.py:449-452 | the last 300 lines stay with the runtime, the last 50 of them in the registry, each clipped to 2000 characters |
| `PluginBroker.SwapIsTransactional` | hardwaremon_app/backend_fastapi/plugins/broker.py:242-263 | a failed move or validation that can be undone leaves the plugin root as it was; success changes only the package's own directory; a private directory survives exactly when the copy fails part-way, the staged one cannot be removed, or there was trouble with the old directory; when that cannot be removed the new package is in place although the call fails |
| `PluginBroker.RollBackMayLosePlace` | hardwaremon_app/backend_fastapi/plugins/broker.py:253-258 | when the old directory cannot be put back, the plugin is gone from its place and stands under the private name |
| `Plugins.HardwareMonPlugin.HandleLine` | hardwaremon_app/plugin_sdk/python/hardwaremon_sdk.py:41-59 | one turn of the SDK's loop: foreign token ignored, hello takes over the grants and answers ready, shutdown ends, a heartbeat after five seconds |
| `Plugins.HardwareMonPlugin.Run` | hardwaremon_app/plugin_sdk/python/hardwaremon_sdk.py:39-59 | the loop over all lines, ending at a shutdown |
| `Plugins.HardwareMonPlugin.PublishEvent` | hardwaremon_app/plugin_sdk/python/hardwaremon_sdk.py:34-37 | an event is sent exactly when the grant is held |
| `Plugins.SdkReadExactly` | hardwaremon_app/plugin_sdk/python/hardwaremon_sdk.py:41-59 | a foreign line is passed over, a shutdown stops the loop unanswered, a hello sets the grants and is answered, and a heartbeat follows when five seconds have passed |
| `Plugins.SdkRunLast` | hardwaremon_app/plugin_sdk/python/hardwaremon_sdk.py:34-59 | the loop handles every line up to a shutdown in order and none behind it |
| `BenchmarkRuns.StepKeeps` | hardwaremon_app/backend_fastapi/benchmark/service.py:84-116 | the invariant of status, workers, rows and temporary files survives every call and worker step; which stages a run goes through is CompletedRunPassedAll |
| `BenchmarkRuns.AtMostOneWorker` | hardwaremon_app/backend_fastapi/benchmark/service.py:84-108 | under every interleaving at most one worker lies between start and finish, it is the current run's, and the status is running |
| `BenchmarkRuns.EndedRunRows` | hardwaremon_app/backend_fastapi/benchmark/service.py:191-216 | a run that ended has stored row r exactly when it ended completed naming r: one row if completed, none otherwise |
| `BenchmarkRuns.CompletedNamesItsRow` | hardwaremon_app/backend_fastapi/benchmark/service.py:191-199 | a completed status names the one row of the current run |
| `BenchmarkRuns.TempFileGone` | hardwaremon_app/backend_fastapi/benchmark/service.py:323-329 | when a run has ended its temporary file is gone, unless removing it failed, and then the run has failed |
| `BenchmarkRuns.FailingUnlinkFailsRun` | hardwaremon_app/backend_fastapi/benchmark/service.py:323-329 | a run that leaves the disk stage cancelled, or done with reading, whose file cannot be removed ends failed with the file left |
| `BenchmarkRuns.WorkingUnlinkGoesOn` | hardwaremon_app/backend_fastapi/benchmark/service.py:323-329 | had the file gone, the same run would end cancelled, or go on |
| `BenchmarkRuns.CancelInTimeNeverCompletes` | hardwaremon_app/backend_fastapi/benchmark/service.py:110-161 | a cancel before the last check: the run never completes and never stores a row, whatever follows |
| `BenchmarkRuns.LateCancelIsIgnored` | hardwaremon_app/backend_fastapi/benchmark/service.py:110-199 | a cancel after the last check, the run not ending cancelled already, is accepted, and the run does not end cancelled |
| `BenchmarkRuns.CancelStopsExactly` | hardwaremon_app/backend_fastapi/benchmark/service.py:110-199 | a cancel is accepted while the run has not ended, and the run can still complete after it if and only if it came after the last check and no failure or cancellation had been met |
| `BenchmarkRuns.StuckForever` | hardwaremon_app/backend_fastapi/benchmark/service.py:84-108 | a service that says running without a worker stays so for ever |
| `BenchmarkRuns.StuckExactlyByFailedThread` | hardwaremon_app/backend_fastapi/benchmark/service.py:91-107 | and it gets there exactly by an admitted start whose thread does not start |
| `BenchmarkStages.CompletedRunPassedAll` | hardwaremon_app/backend_fastapi/benchmark/service.py:151-161 | over all runs and interleavings a run that has completed, or come to its last check, has entered and left the single-thread, multi-thread, memory, write and read stages in this order and no other; the timed ones lasted as configured, all tasks were done, and the file was written and then read in full |
| `BenchmarkStages.CancelStopsWork` | hardwaremon_app/backend_fastapi/benchmark/service.py:436-438 | after a cancel a run does at most the one unit of work it was about to do, whatever follows |
| `BenchmarkCompletion.MayCompleteExactly` | hardwaremon_app/backend_fastapi/benchmark/service.py:151-217 | in every reachable state a run can still complete if and only if it was not cancelled before its last check and has met no failure |
| `BenchmarkCompletion.StartMayComplete` | hardwaremon_app/backend_fastapi/benchmark/service.py:84-108 | whenever none runs, a benchmark can be started and then complete |
| `BenchmarkCompletion.StartExactly` | hardwaremon_app/backend_fastapi/benchmark/service.py:84-108 | a start is refused exactly while one runs; the new run starts from nothing of the last, its cancel flag included |
| `BenchmarkCompletion.CancelExactly` | hardwaremon_app/backend_fastapi/benchmark/service.py:110-116 | a cancel is refused exactly while none runs |
| `BenchmarkCompletion.UpdateExactly` | hardwaremon_app/backend_fastapi/benchmark/service.py:429-434 | a running benchmark shows what it is told, within 0 and 100 and to one decimal |
| `BenchmarkCompletion.EnterShows` | hardwaremon_app/backend_fastapi/benchmark/service.py:218-308 | entering the stages shows 5, 25, 50, 70 and 85 percent |
| `BenchmarkCompletion.WorkShows` | hardwaremon_app/backend_fastapi/benchmark/service.py:218-317 | a unit of work shows how far its stage has come, by the share of its time or of the file |
| `BenchmarkCompletion.WorkCounts` | hardwaremon_app/backend_fastapi/benchmark/service.py:297-317 | a unit of work writes one chunk, or what is left, or reads one block; the timed stages do neither |
| `BenchmarkProgress.StepProgress` | hardwaremon_app/backend_fastapi/benchmark/service.py:429-434 | no event lowers the progress of the current run or takes it past what the worker's position allows |
| `BenchmarkProgress.FractionMonotone` | hardwaremon_app/backend_fastapi/benchmark/service.py:218-317 | within a stage, time passing and work done never lower the fraction behind the worker |
| `BenchmarkProgress.ProgressNeverFalls` | hardwaremon_app/backend_fastapi/benchmark/service.py:218-317 | across all stages and any interleaving the progress of a run never decreases |
| `BenchmarkProgress.HundredIffCompleted` | hardwaremon_app/backend_fastapi/benchmark/service.py:429-464 | progress is 100 exactly when the status is completed, and at most 99 otherwise |
| `BenchmarkService.Service.Start` | hardwaremon_app/backend_fastapi/benchmark/service.py:84-108 | the new state: refused while running, otherwise a new run with a fresh cancel event; the invariant of all interleavings is kept |
| `BenchmarkService.Service.Cancel` | hardwaremon_app/backend_fastapi/benchmark/service.py:110-116 | the new state: refused unless running; the invariant is kept |
| `BenchmarkService.Service.Update` | hardwaremon_app/backend_fastapi/benchmark/service.py:429-434 | the new state: clamped to 0..100 and rounded to one decimal, only while running; the invariant is kept |
| `BenchmarkService.Service.Finish` | hardwaremon_app/backend_fastapi/benchmark/service.py:440-464 | the new state: written only by the run that is still current; the invariant is kept when the worker is at its end |
| `BenchmarkService.WriteAll` | hardwaremon_app/backend_fastapi/benchmark/service.py:295-302 | the loop ends; through means exactly the total, in full chunks but for the last; stopped and raised stop at the first such answer |
| `BenchmarkService.ReadAll` | hardwaremon_app/backend_fastapi/benchmark/service.py:308-317 | the read loop counts the blocks it took; through means all of the file, stopped and raised are told apart by the first such answer |
| `BenchmarkService.RunDisk` | hardwaremon_app/backend_fastapi/benchmark/service.py:280-329 | however the stage ends, by cancellation or by a failing create, write, flush, open, read or unlink, the file is gone if unlinking works; a full pass wrote and read the total; without any failure it does not raise |
| `GamingMetrics.MetricAccumulator.Add` | hardwaremon_app/backend_fastapi/gaming/service.py:133-142 | the new total, count and maximum; missing values, and zeros where they do not count, change nothing |
| `GamingMetrics.AddSummarises` | hardwaremon_app/backend_fastapi/gaming/service.py:133-148 | an accumulator holding the sum, count and greatest of the counted readings still does after one more |
| `GamingMetrics.AverageAtMostPeak` | hardwaremon_app/backend_fastapi/gaming/service.py:144-148 | the average is there exactly when the peak is, and is at most the peak after both are rounded |
| `GamingMetrics.AddSampleSummarises` | hardwaremon_app/backend_fastapi/gaming/service.py:175-194 | after a sample every metric's accumulator still summarises the full list |
| `GamingMetrics.SummaryGivesColumns` | hardwaremon_app/backend_fastapi/gaming/service.py:196-237 | the stored columns are those recomputed from the full sample list, zeros skipped for temperature, clock and power |
| `GamingMetrics.AveragesAtMostPeaks` | hardwaremon_app/backend_fastapi/gaming/service.py:216-229 | every stored average is at most its matching peak |
| `GamingMetrics.MatchExactly` | hardwaremon_app/backend_fastapi/gaming/service.py:127-171 | columns that match hold, said of the samples, the mean of the readings that count and the greatest of them: for usage and memory all count, for temperatures, clock and power those above zero |
| `GamingMetrics.StoresExactly` | hardwaremon_app/backend_fastapi/gaming/service.py:127-171 | these are the columns the accumulators store, with peaks for usage, memory and temperatures only |
| `GamingSessions.StepKeeps` | hardwaremon_app/backend_fastapi/gaming/service.py:297-348 | every critical section, failed write, delete and restart keeps the invariant |
| `GamingSessions.ActiveRowIsCurrent` | hardwaremon_app/backend_fastapi/gaming/service.py:278-348 | over all runs a row is active exactly when its end time is null, and while the detector's committed start holds an active row is the current session's |
| `GamingSessions.OtherActiveRowsAreLeftOpen` | hardwaremon_app/backend_fastapi/gaming/service.py:278-348 | over all runs, a row is active without being the current session's if and only if it was active when the program last started and has been neither closed by a committed start nor deleted since |
| `GamingSessions.RestartLeavesRowOpen` | hardwaremon_app/backend_fastapi/gaming/service.py:691-712 | such a row: the program ends while a session runs and is started again without its detector |
| `GamingSessions.ClearedUntilRestart` | hardwaremon_app/backend_fastapi/gaming/service.py:278-289 | from any committed start on, through any events but a restart of the program, every active row is the current session's |
| `GamingSessions.RestartInterruptsThenSampleRevives` | hardwaremon_app/backend_fastapi/gaming/service.py:278-282 | a restart of the detector while a session runs marks its row interrupted, and the next sample marks it active again |
| `GamingSessions.CurrentRowActiveExactly` | hardwaremon_app/backend_fastapi/gaming/service.py:278-282 | exactly: over all runs the row of the current session, when it has one, is active if and only if no start of the detector has committed since the last insert or sample write of that session that succeeded; otherwise it is interrupted |
| `GamingSessions.SamplesStayHome` | hardwaremon_app/backend_fastapi/gaming/service.py:342-348 | a sample taken for one session is never added to another |
| `GamingSessions.SamplesAreTaken` | hardwaremon_app/backend_fastapi/gaming/service.py:342-348 | over all runs the samples of the running session are exactly those that arrived for it while it ran, once each and in order |
| `GamingSessions.StoredColumnsAreRecomputed` | hardwaremon_app/backend_fastapi/gaming/service.py:342-348 | after a successful update the stored columns are recomputed from every sample, this one included |
| `GamingSessions.CompletedColumnsAreRecomputed` | hardwaremon_app/backend_fastapi/gaming/service.py:658-671 | likewise when the session is completed, which sets its end time |
| `GamingSessions.StoredAveragesAtMostPeaks` | hardwaremon_app/backend_fastapi/gaming/service.py:216-229 | in every reachable state the averages the current session would store are at most their peaks |
| `GamingSessions.StoredRowsStaySound` | hardwaremon_app/backend_fastapi/gaming/service.py:610-656 | over all runs every row written in the run has the columns its session's samples, up to some point, give when recomputed, and no average above its peak |
| `GamingSessions.FinalRowsNeverChange` | hardwaremon_app/backend_fastapi/gaming/service.py:297-348 | a closed row of a session that is not running is never written again, only deleted, and then never comes back |
| `GamingSessions.FoundExactly` | hardwaremon_app/backend_fastapi/gaming/service.py:301-323 | a scan that finds a game joins the running session or begins one without samples, whose row is active if the insert works; nothing else changes |
| `GamingSessions.NotFoundExactly` | hardwaremon_app/backend_fastapi/gaming/service.py:324-332 | a scan that finds none completes the running session, its end and columns written, if the write works; otherwise nothing changes |
| `GamingSessions.SampledExactly` | hardwaremon_app/backend_fastapi/gaming/service.py:342-348 | a sample is added to the session it was taken for if that still runs, and its row, if there is one, is active with the new columns when the write works |
| `GamingSessions.StartedExactly` | hardwaremon_app/backend_fastapi/gaming/service.py:278-289 | a start ends exactly the active rows as interrupted, with their columns, and nothing when the thread is alive or the database fails |
| `GamingSessions.DeletedExactly` | hardwaremon_app/backend_fastapi/gaming/service.py:452-466 | a deletion is refused exactly for the running session, and otherwise takes that row alone |
| `GamingSessions.RestartedExactly` | hardwaremon_app/backend_fastapi/gaming/service.py:262-271 | a program started again keeps the table and nothing else |
| `GamingSessions.EventsAreSections` | hardwaremon_app/backend_fastapi/gaming/service.py:278-466 | every event of a run is one of these sections as it stands |
| `GamingSessions.GamingService.Detect` | hardwaremon_app/backend_fastapi/gaming/service.py:301-332 | the new state of the first section for every case, and the session to sample; the invariant is kept |
| `GamingSessions.GamingService.Record` | hardwaremon_app/backend_fastapi/gaming/service.py:342-348 | the new state of the second section: counted only if the session it was taken for still runs; the invariant is kept |
| `GamingSessions.GamingService.UpdateSession` | hardwaremon_app/backend_fastapi/gaming/service.py:610-656 | the row is rewritten when the write works and the row exists; otherwise nothing changes |
| `GamingSessions.GamingService.CloseInterruptedSessions` | hardwaremon_app/backend_fastapi/gaming/service.py:691-712 | the loop gives every active row, and no other, an end time and the status interrupted |
| `GamingSessions.GamingService.Start` | hardwaremon_app/backend_fastapi/gaming/service.py:278-289 | the new state: nothing when the thread is alive or the database fails; the invariant is kept |
| `GamingSessions.GamingService.AskToDelete` | hardwaremon_app/backend_fastapi/gaming/service.py:452-455 | deletion is refused exactly for the current session; the invariant is kept |
| `GamingSessions.GamingService.Delete` | hardwaremon_app/backend_fastapi/gaming/service.py:457-466 | the row goes when the statement works, and the answer says whether there was one; the invariant is kept |
| `GamingReport.GroupByGame` | hardwaremon_app/backend_fastapi/gaming/service.py:475-482 | one bucket a game in order of first appearance, with that game's number of sessions and seconds |
| `GamingReport.MostPlayed` | hardwaremon_app/backend_fastapi/gaming/service.py:484-488 | the first of the games with the most seconds |
| `GamingReport.MostPlayedGame` | hardwaremon_app/backend_fastapi/gaming/service.py:475-488 | for the sessions themselves: none has a game with more seconds than the one named, and a game with as many was first played no earlier |
| `GamingReport.GroupsConserve` | hardwaremon_app/backend_fastapi/gaming/service.py:475-482 | counts and seconds over the games add up to all sessions and all seconds |
| `DesktopEntry.ReadDesktopEntry` | hardwaremon_app/backend_fastapi/routes/optimization.py:156-167 | the parsing loop computes the dictionary defined line by line |
| `DesktopEntry.LastLineDecides` | hardwaremon_app/backend_fastapi/routes/optimization.py:162-164 | the last line with a key decides its value |
| `DesktopEntry.ValuesAreClean` | hardwaremon_app/backend_fastapi/routes/optimization.py:162-164 | values come out without surrounding blanks and without line breaks |
| `DesktopEntry.SplitOfJoin` | hardwaremon_app/backend_fastapi/routes/optimization.py:277 | joining lines and splitting them again gives the same lines |
| `DesktopEntry.SetDesktopFlag` | hardwaremon_app/backend_fastapi/routes/optimization.py:265-277 | the editing loop replaces the first Hidden line, or appends one, and nothing else |
| `DesktopEntry.WrittenValue` | hardwaremon_app/backend_fastapi/routes/optimization.py:268-277 | for every file the Hidden value afterwards is the written one when no line has the replaced form or the replaced line is the last Hidden line, and otherwise what it was |
| `DesktopEntry.FlagReadsBack` | hardwaremon_app/backend_fastapi/routes/optimization.py:268-277 | for every file the flag reads back as written if and only if the flag decides in that sense, or the file said the same before |
| `DesktopEntry.TwoHiddenLinesStay` | hardwaremon_app/backend_fastapi/routes/optimization.py:268-274 | two lines Hidden=true: after writing false the file still says true |
| `DesktopEntry.SingleHiddenReadsBack` | hardwaremon_app/backend_fastapi/routes/optimization.py:268-277 | with at most one Hidden line, in whatever spelling, it always reads back |
| `DesktopEntry.OtherKeysUnchanged` | hardwaremon_app/backend_fastapi/routes/optimization.py:265-277 | for every file every other key keeps its value or its absence |
| `DesktopEntry.SecondWriteWins` | hardwaremon_app/backend_fastapi/routes/optimization.py:265-277 | for every file a second write gives the text the second alone would give |
| `DesktopEntry.ReadAfterWrite` | hardwaremon_app/backend_fastapi/routes/optimization.py:265-277 | reading the written text is parsing the edited lines |
| `DesktopEntry.StripExactly` | hardwaremon_app/backend_fastapi/routes/optimization.py:160-164 | stripping takes off all blanks at both ends and nothing else |
| `DesktopEntry.LineGives` | hardwaremon_app/backend_fastapi/routes/optimization.py:161-164 | a line gives a value exactly when it is no comment and has an equals sign; the first one divides key and value |
| `DesktopEntry.FirstFlagExactly` | hardwaremon_app/backend_fastapi/routes/optimization.py:270-274 | the line replaced is the first that reads Hidden= once stripped |
| `DesktopEntry.OtherLinesStay` | hardwaremon_app/backend_fastapi/routes/optimization.py:267-278 | the editor replaces that line or appends one; every other line stays as it stands |
| `Autostart.ListApps` | hardwaremon_app/backend_fastapi/routes/optimization.py:189-229 | the listing is exactly the user's speaking files and the system files no earlier directory's speaking file shadows, each with its own fields |
| `Autostart.ListDirectory` | hardwaremon_app/backend_fastapi/routes/optimization.py:190-228 | one directory extends the listing and the seen names by exactly its own |
| `Autostart.StartupFolder.Set` | hardwaremon_app/backend_fastapi/routes/optimization.py:280-310 | the user's directory and the outcome for each case; OwnEntrySwitched, EnablingSystemEntry and DisableThenEnableRestores say what each case amounts to |
| `Autostart.OverrideReads` | hardwaremon_app/backend_fastapi/routes/optimization.py:302-310 | what the written override says when read: hidden, ours, the command, and the name exactly when it has no surrounding blanks or breaks |
| `Autostart.DisableThenEnableRestores` | hardwaremon_app/backend_fastapi/routes/optimization.py:280-310 | disabling a listed system entry and enabling the override then listed leaves the directory without a file of that name, so restores it exactly when there was none; in between it is listed off, with the same command, and the same name exactly when that is clean |
| `Autostart.EnablingSystemEntry` | hardwaremon_app/backend_fastapi/routes/optimization.py:294-301 | switching a listed system entry on succeeds and changes nothing when there is no user file of its name; a user file that gives no values is written to and from then on stands in for the entry, switched on, under the stem of its name and with the command Unavailable |
| `Autostart.SilentFileIsLost` | hardwaremon_app/backend_fastapi/routes/optimization.py:280-310 | a user file of a system entry's name that only holds a comment is lost by off and on |
| `Autostart.OthersListedAsBefore` | hardwaremon_app/backend_fastapi/routes/optimization.py:189-229 | a change to one file name leaves the listing of every other name as it was |
| `Autostart.ToggleTakesEffect` | hardwaremon_app/backend_fastapi/routes/optimization.py:200-210 | for every file: when the flag decides, off takes effect and on takes effect unless the GNOME key forbids it; otherwise the entry is listed as before |
| `Autostart.OwnEntrySwitched` | hardwaremon_app/backend_fastapi/routes/optimization.py:283-289 | switching a user's own listed entry changes only its file and keeps name and command; it is on afterwards exactly when that was asked and its GNOME key allows it, or, where the flag does not decide, when it was on before |
| `Autostart.OwnEntryGone` | hardwaremon_app/backend_fastapi/routes/optimization.py:284-289 | an override switched on goes; any other own entry whose file is missing fails and changes nothing |
| `Autostart.EnabledExactly` | hardwaremon_app/backend_fastapi/routes/optimization.py:200-201 | an entry is on unless its Hidden value spells true or its GNOME value spells false, in any case of letters |
| `Autostart.EntryShows` | hardwaremon_app/backend_fastapi/routes/optimization.py:202-226 | the name and command listed are the file's own, or its bare name and Unavailable |
| `Autostart.GnomeKeyStaysOff` | hardwaremon_app/backend_fastapi/routes/optimization.py:200-210 | a file that only says X-GNOME-Autostart-enabled=false stays off when switched on |
| `Autostart.SecondHiddenLineStaysOff` | hardwaremon_app/backend_fastapi/routes/optimization.py:200-210 | a file with two lines Hidden=true stays off when switched on |
| `HistoryQuery.WidthIsLeast` | hardwaremon_app/backend_fastapi/database/history_query.py:19-20 | the bucket width is the least positive integer with width times points at least the range |
| `HistoryQuery.SqlDivSpread` | hardwaremon_app/backend_fastapi/database/history_query.py:34-40 | times at most k widths apart are at most k buckets apart, also across zero with SQLite's truncating division |
| `HistoryQuery.KeysOk` | hardwaremon_app/backend_fastapi/database/history_query.py:40-41 | the group keys are descending and are exactly the buckets some row falls into |
| `HistoryQuery.MinIdIsLeast` | hardwaremon_app/backend_fastapi/database/history_query.py:32 | the id of a bucket is the least id of its rows, and one of theirs |
| `HistoryQuery.AtMostOneBucketLost` | hardwaremon_app/backend_fastapi/database/history_query.py:23-51 | rows between now minus the range and now fill at most points+1 buckets; the limit keeps the newest and can lose only the single oldest; which rows the window holds is FetchedExactly |
| `HistoryQuery.AveragesAddBack` | hardwaremon_app/backend_fastapi/database/history_query.py:25-40 | count-weighted bucket averages, nulls skipped, add back to the column total over the window, whose rows are those FetchedExactly names |
| `HistoryQuery.FetchedExactly` | hardwaremon_app/backend_fastapi/database/history_query.py:23-51 | said of the rows: one line for each of the newest buckets that hold a row of the range, as many as asked for or as there are, newest first, with the least id of those rows and the mean of their readings, nulls skipped |
| `HistoryQuery.SqlDivTruncates` | hardwaremon_app/backend_fastapi/database/history_query.py:40 | the bucket key is the quotient rounded towards zero |
| `NetworkCounters.NetworkCollector.Collect` | hardwaremon_app/backend_fastapi/telemetry/network.py:419-471 | the loop over the interfaces: each report depends on its own interface's past alone, and the remembered readings afterwards |
| `NetworkCounters.RemembersLatestAndFirst` | hardwaremon_app/backend_fastapi/telemetry/network.py:428-441 | over any run what is remembered of an interface is its own latest and its own first reading |
| `NetworkCounters.RatesNeverNegative` | hardwaremon_app/backend_fastapi/telemetry/network.py:428-470 | rates, also rounded, and session bytes are never negative, whatever counters and clock do |
| `NetworkCounters.RateExactly` | hardwaremon_app/backend_fastapi/telemetry/network.py:432-435 | a rate is the bytes gained over the seconds passed, a thousandth at least, and zero when the counter did not go up |
| `NetworkCounters.ReportExactly` | hardwaremon_app/backend_fastapi/telemetry/network.py:419-470 | over any run a report shows the counter as polled, the rates against the interface's own last reading to two decimals, and the bytes since its own first one |
| `NetworkCounters.RatesCoverSession` | hardwaremon_app/backend_fastapi/telemetry/network.py:428-470 | over any run rate times elapsed adds up to at least the reported session bytes, and to exactly them if and only if the counter never went back or never went forward |
| `NetworkCounters.RoundingDrift` | hardwaremon_app/backend_fastapi/telemetry/network.py:428-464 | the rates as reported, rounded to two decimals, are off from the exact total by at most 0.005 bytes per second elapsed |
| `Rounding.RoundMonotone` | hardwaremon_app/backend_fastapi/telemetry/network.py:463-464 | rounding to a number of decimals never reverses an order |
| `Rounding.RoundNear` | hardwaremon_app/backend_fastapi/telemetry/network.py:463-464 | and moves a value by at most half a unit of its last place |
| `Rounding.RoundTies` | hardwaremon_app/backend_fastapi/telemetry/network.py:463-464 | half-way between two neighbours it takes the even one |
| `Watches.DashboardViewModel.Evaluate` | android/app/src/main/java/com/hardwaremon/android/viewmodel/DashboardViewModel.kt:182-197 | the key becomes active exactly when its condition holds, and an event is raised exactly when it was not active before |
| `Watches.DashboardViewModel.EvaluateWatches` | android/app/src/main/java/com/hardwaremon/android/viewmodel/DashboardViewModel.kt:177-241 | the five evaluations raise the events of newly holding keys in order and leave exactly the holding keys active |
| `Watches.DashboardViewModel.CollectTelemetry` | android/app/src/main/java/com/hardwaremon/android/viewmodel/DashboardViewModel.kt:135-175 | the new state after a snapshot or a failure |
| `Watches.DashboardViewModel.SetMonitoringLens` | android/app/src/main/java/com/hardwaremon/android/viewmodel/DashboardViewModel.kt:84-94 | the score is recomputed from the latest snapshot for the new lens |
| `Watches.DashboardViewModel.UpdateWatchSettings` | android/app/src/main/java/com/hardwaremon/android/viewmodel/DashboardViewModel.kt:96-99 | the new settings, and nothing else: active keys and events stay until the next sample |
| `Watches.DashboardViewModel.ClearWatchEvents` | android/app/src/main/java/com/hardwaremon/android/viewmodel/DashboardViewModel.kt:130-133 | both event lists are emptied; the active keys stay, so what still holds raises nothing new |
| `Watches.ActiveAreHolding` | android/app/src/main/java/com/hardwaremon/android/viewmodel/DashboardViewModel.kt:182-197 | over any run the active keys are those holding at the last sample, under the settings of that moment |
| `Watches.EventsAreRisingEdges` | android/app/src/main/java/com/hardwaremon/android/viewmodel/DashboardViewModel.kt:182-197 | over any run of samples, failures, settings changes and clears, a key's events are exactly its rising edges |
| `Watches.HoldsExactly` | android/app/src/main/java/com/hardwaremon/android/viewmodel/DashboardViewModel.kt:199-239 | a watch holds exactly when it is switched on and its own reading is known and at its threshold or beyond, the battery's only while not charging |
| `Watches.LensInForce` | android/app/src/main/java/com/hardwaremon/android/viewmodel/DashboardViewModel.kt:84-94 | the lens is the one chosen last |
| `Watches.HistoryIsLastSixty` | android/app/src/main/java/com/hardwaremon/android/viewmodel/DashboardViewModel.kt:143 | the history is exactly the last 60 snapshots |
| `Watches.ListIsNewestForty` | android/app/src/main/java/com/hardwaremon/android/viewmodel/DashboardViewModel.kt:145-149 | the events shown and those saved both begin with the newest 40 of the uncut list, and after a sample no more are shown |
| `Watches.ScoreStaysCurrent` | android/app/src/main/java/com/hardwaremon/android/viewmodel/DashboardViewModel.kt:84-94 | the score shown is always that of the latest snapshot through the lens now chosen, and lies in 0..100 |
| `Health.OverallBetweenSignals` | android/app/src/main/java/com/hardwaremon/android/model/IntelligenceModels.kt:87-114 | for every snapshot and lens the score lies between the least and the greatest of its five signal scores, within 0..100 |
| `Health.SignalsExactly` | android/app/src/main/java/com/hardwaremon/android/model/IntelligenceModels.kt:81-105 | each of the five signals is the score of its own reading, by its slope or its table |
| `Health.OverallExactly` | android/app/src/main/java/com/hardwaremon/android/model/IntelligenceModels.kt:107-114 | for each lens the score is the nearest whole number, ties upwards, to the mean of the signals with that lens's weights |
| `Health.PressureLowers` | android/app/src/main/java/com/hardwaremon/android/model/IntelligenceModels.kt:162-165 | a pressure score never rises with its pressure |
| `Health.OverallFalls` | android/app/src/main/java/com/hardwaremon/android/model/IntelligenceModels.kt:87-114 | for every lens the score never rises when known pressures rise, the reserve falls or the charger is unplugged |
| `Health.ThermalRiseExactly` | android/app/src/main/java/com/hardwaremon/android/model/IntelligenceModels.kt:90-97 | raising the thermal level alone, from any integer, never raises the score if and only if it started at zero or above, or ends below zero or at four and above |
| `Health.NegativeLevelCounterexample` | android/app/src/main/java/com/hardwaremon/android/model/IntelligenceModels.kt:90-97 | from level -1 to level 0 every lens scores the device higher |

## Left out

- Heap.Largest: which of several files of equal size are published is not fixed, because the heap does not fix it.
- LargestFiles.Heap.SiftDown: the textbook descent is modelled; the library's heapq moves entries in a different order to the same effect.
- ScanWorker: percentages of the disk, the current path, the completion time and the text of an error are not modelled; the walk, with its skipped links and names, is the input stream.
- FlattenAllDescribes: children that are not dictionaries are taken as already dropped.
- Jobs.Trim: one job table stands for both; jobs are otherwise not followed.
- InstallArchive: size limits, unpacking and the path checks of the archive come before what is modelled.
- SwapPackage: at most one thing goes wrong in undoing a failed swap; two clean-up steps failing one after the other are not modelled.
- SetEnabled: an empty registry record that setdefault creates before a refusal is not told apart from no record.
- RunningMeansGreeted: greeted means by the SDK; a process that reads its hello by itself counts as ungreeted.
- Launch: environment, command line and the resolved path are one fact, whether the entry point is usable; the steps inside a launch are not interleaved with other calls.
- RelaunchDue: a broken pipe while relaunching, and a save that fails in an exit report, end the monitor thread in the code; in the model that is a run without further monitor events.
- SetGrants: a stop that raises, because the pipe is broken or the process slow, ends the call around it with the state of a stop alone, which is an event of its own; that outcome of the call is not told apart.
- Stop: a killed process is taken to be gone; one that outlives the wait after its kill, or the program, is not followed. Calls are atomic, so nothing is claimed about what still runs while a stop is under way, or about a crash in the middle of the directory swap.
- NoEventLost: holds while the runtime stays registered; lines left in the pipe of a stopped runtime may or may not be read. A line of JSON that is no object ends the reader thread, which is a run without further reads.
- HandleLine: plugin handlers are not modelled; what they send appears as separate events of the run.
- RunDisk: the loops of the disk stage are proved beside the state machine, which has its own steps for them; one is not derived from the other, but both are proved to write and read the whole file.
- HundredIffCompleted: elapsed time, the text of the current stage and the scores are not modelled.
- StoredColumnsAreRecomputed: names, times, durations, the stored text of the session and frame statistics are not modelled; which process counts as which game is the input of a scan.
- GroupByGame: the list of sessions is the input; recent sessions and overall averages of the report are not modelled.
- ListApps: the order of the listing and the entry ids are not modelled; a file that cannot be read speaks like an empty one.
- StoredRowsStaySound: rows of earlier runs of the program are taken as found until this run writes them.
- SetDesktopFlag: texts are as decoded; a carriage return in a file name written into an override is kept, where reading the file again would turn it into a line feed.
- ToggleTakesEffect: lower-casing covers ASCII letters; other letters can make neither true nor false.
- AtMostOneBucketLost: requires a positive number of points, as the route does; the quotient is exact, and all columns behave as the one modelled. The drive history query in storage.py sorts the other way before its limit and is not covered.
- Collect: the list of interface names, sorted and without repeats, is part of a poll; addresses, packets and the choice of the active interface are not modelled.
- EventsAreRisingEdges: the events of one snapshot carry one time; titles, details and ids are not modelled, and the state update is taken to happen once a snapshot.
- OverallBetweenSignals: weights are hundredths and sums exact, where the app uses single precision; the text match that decides charging is an input; bottleneck and observation texts are not modelled.
- Pausing, the session journal, Windows and macOS code, sensor probes, schema migration, benchmark scores and every screen.
