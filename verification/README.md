# A verified model of the TR-069 client's stateful cores

The repository is a CWMP (TR-069) client for a CPE. Most of it passes requests between the ACS
and the data-model bus. This project models the parts that keep state of their own or run loops
over shared cursors, lists and buffers, and proves what they promise over every input and every
run.

| files | component |
|---|---|
| `TimeWindows`, `TransferModel`, `TransferProofs`, `TransferTheorems`, `TransferSteps`, `TransferLastWindow`, `TransferConclusions`, `TransferScenes`, `TransferPlugin` | the ScheduleDownload engine (section A.4.1.8 of TR-069): time windows, retries, the firmware slot, restarts |
| `ParameterValues` | SetParameterValues (section A.3.2.1 of TR-069): validate everything, then apply object by object |
| `ParameterNames`, `ParameterNamesProofs`, `ParameterNamesListing`, `ParameterNamesOrder`, `ParameterNamesVerdict` | GetParameterNames (section A.3.2.3 of TR-069): the walk over the object tree |
| `CString`, `CookieModel`, `CookieHeaders`, `CookieJar` | `strtok`, and the cookie jar (compare sections 5.2 and 5.4 of RFC 6265) |
| `AliasPaths` | extraction of aliases from a path and rewriting of answers with them |
| `DnsModel`, `DnsScheduler` | resolution of the ACS host name (section 3.1 of TR-069) |
| `ConnectionLimiter` | the limit on connection requests (section 3.2.2 of TR-069) |
| `TimerModel`, `TimerRegistry` | named timers in a linked list |
| `SubscriptionModel`, `SubscriptionList` | bus subscriptions shared by several watchers |
| `Common`, `Paths` | an option type, `uint32_t`, positions in sequences, dotted paths |

Each stateful component has two halves. A specification (`...Model`, or the functions at the top
of a file) says with pure functions what one step does; the lemmas about it carry the theorems.
A class does the same work the way the C code does: fields updated in place, loops with shared
cursors, buffers cut up by `strtok`, `next` pointers rewritten. Every method of such a class is
proved to leave exactly the state that the specification gives, so what is proved of the
specification holds of the imperative form. Every step of a step system has such a method, except
the passage of time, which the code has no part in.

What a step does is stated a second time without those functions: in modes, statuses, fault codes,
characters and counts, for every reachable state or every input (`TransferSteps`, `CookieHeaders`,
`RestartVerdict`, `SetParameterValues`, `NextLevelListsIff`, `NewestAnswerDecides`, `RefusedIff`,
`AddDecides`, `DeleteDecides`).

## How the surroundings are modelled

- Bus calls, the data model, access rules, configuration values, the clock and c-ares are
  parameters: each call takes the answer it will get. A call that fails changes nothing on the
  other side.
- ScheduleDownload: a data-model change event is delivered after the handler that caused it has
  returned and before the next timer, bus notification, restart or acknowledgement. The data model
  survives a restart; the plug-in's private data, timers and queued events do not. A timer that is
  due fires before time moves on. Creating a transfer and arming its windows is one step. After a
  restart the bus is asked for the image status of each transfer in progress, and may answer each
  time differently or not at all. The plug-in's state is one object with maps from instance numbers, in place of objects with private
  data.
- `attempts`, `generation`, `urlChanges`, `bootstraps`, `accepted`, `calls` and `live` are history
  kept for the statements; the code has no such fields.
  Only transfers that are Done are acknowledged, because only those are reported to the ACS
  (src/dmdeviceadapter/amx/adapter/DM_AmxScheduleDownload.c:211); the function that deletes the
  acknowledged instance does not look at its status.
- GetParameterNames: access rules are two oracles, one for filters fetched for the path that is
  checked, one for filters fetched for the object above it, which the next-level listing uses for
  the children.
- DNS: c-ares calls back at most once per query, and destroying a channel answers its open query.
- An address list, a subscription list or a cookie list of the ambiorix library is a `seq` field; the
  timer list, whose `next` pointers the repository itself rewrites, is a chain of heap objects.
- `uint32_t` arithmetic is written out where it can wrap: the millisecond conversion of window
  offsets and the doubled connection limit.

## Where the code is not what it is said or meant to be

- `DM_ENG_Device_SetParameterValues` promises in a comment to undo applied changes on failure. It
  undoes nothing: a reported failure is certain to leave the data model as it was, whatever the bus
  answers, if and only if all parameters of the request belong to one object
  (`FailureLeavesNothingIff`); `FailedRequestStaysApplied` is a failed request that leaves half of its
  values in place. Each group of parameters also overwrites the error of the one before. A reported
  success can be trusted, whatever the bus answers, if and only if all parameters of the request
  belong to one object (`ParameterValues.SuccessIsTruthfulIff`); `RefusedRunGoesUnreported` is a case
  where it cannot.
- `DM_ENG_Device_GetParameterNames_GetNames` likewise overwrites the error of an earlier child. The
  walk reports on a single description, the one at the end of the chain of last children
  (`WalkFailsIff`), and loses exactly the failures beside that chain (`FailureIsLostIff`). Its success
  can be trusted, whatever describing the objects yields, if and only if no object of the tree has
  two children (`ParameterNamesVerdict.SuccessIsTruthfulIff`). `FailureOfEarlierChildIsLost` is a
  smallest example. With NextLevel success can be trusted if and only if the object asked about has no
  children (`NextLevelSuccessIsTruthfulIff`).
- A NextLevel listing asks for the children with filters fetched for the object above them. It is the
  full listing cut down to the next level if and only if those filters and the children's own agree
  (`NextLevelIsFilteredListing`).
- The cookie parser compares only as many characters as the name has, so it drops every cookie
  whose name abbreviates an attribute, such as `P` or `exp` (`StoredIffNotFiltered`,
  `ShortNamesAreLost`). The loop meant to strip spaces before the `=` starts on the `=` and never
  moves, so such spaces stay part of the name (`SpaceBeforeEqualsStays`). The `continue` that would
  skip the `strtok` cannot be reached: the search for the `=` that it guards finds the one that was
  found before (`EqualsIsFoundAgain`).
- Window offsets above 4294967 s wrap in the conversion to milliseconds (`OffsetExactIff`,
  `OffsetWrapReordersTimers`).
- When the last window opens for a firmware transfer, its upgrade gets under way if and only if the
  slot is free and one of the downloads it may still ask for is accepted (`LastWindowDecides`). With
  the slot taken, be it by its own upgrade of the window before or by another transfer, it uses up
  all its retries on the spot and is reported as failed (`AbandonedIffSlotTaken`);
  `UpgradeMayBeAbandoned` is a run that gets there. If the slot was its own it is then free, although
  nothing was heard of the download: besides restarts and reported failures, a change whose handling
  finishes the holder is the one thing that frees the slot (`SlotReleasedIff`).
- Once its last window is over, a transfer that no restart has concluded without fault is finished if
  and only if the plug-in acts in that window and knows the file type (`FinishedIffServed`). Any other
  one stays unfinished, and is never deleted, for good (`UnservedStaysOpen`). That windows are in order
  is needed: with one window inside the other, both may end without anything finishing a transfer that
  is served (`OverlapLeavesUnfinished`).
- A change of the ACS URL that cannot be read or parsed never leads to a bootstrap inform
  (`UrlChangeOwesBootstrapIff`).
- The delay of the next DNS lookup is the periodic-inform interval as configured, zero and negative
  values included, where the time to live is missing, zero or unbounded (`NextLookupPositiveIff`). Its
  milliseconds, computed in `int`, overflow above 2147483 s (`DelayFitsIff`).
- Starting a known timer keeps its old handler and interval flag (`StartedLookup`,
  `RepeatingCannotBeReplaced`).
- A bus that refuses to unsubscribe the last watcher of an object leaves a subscription that no later
  deletion can reach (`AllWatchedIff`, `StrandedStays`; `StrandingHappens` is a run of two calls). A
  deletion takes a watcher of the object it
  was meant for if and only if no object listed before holds the same id (`DeleteEndsOwnIff`);
  `SharedIdEndsTheWrongOne` is a case where one does.

## Model

| member | source | states |
|---|---|---|
| TransferTheorems.AttemptsWithinGrant | src/dmdeviceadapter/amx/cwmp_plugin/transfers_dm.c:190-293 | over every run, restarts included, the upgrade attempts of a transfer never exceed the sum over its windows of one plus the retries asked for |
| TransferTheorems.SlotNeverDangles | src/dmdeviceadapter/amx/cwmp_plugin/transfers_firmware.c:157-216 | in every reachable state the firmware slot names a live transfer that is In Progress or Failed, so no acknowledgement can delete it |
| TransferTheorems.SlotTakenOnlyWhenFree | src/dmdeviceadapter/amx/cwmp_plugin/transfers_firmware.c:157-197 | a step that puts a transfer in the slot found it empty, was the delivery of that transfer's own event with the download accepted, and counts as one attempt |
| TransferTheorems.ChangesNeverDangle | src/dmdeviceadapter/amx/cwmp_plugin/transfers_dm.c:190-317 | no change event waiting in a reachable state refers to a deleted transfer |
| TransferTheorems.CacheMatchesStatuses | src/dmdeviceadapter/amx/cwmp_plugin/transfers.c:260-297 | with ordered windows and no event waiting, the cached window number and flag are what the rebuild loop would compute from the stored statuses |
| TransferTheorems.WindowsOpenInOrder | src/dmdeviceadapter/amx/cwmp_plugin/transfers_timewindow.c:189-223 | over every run a window can only start when all earlier ones have ended and only end while it is the started one |
| TransferTheorems.BoundaryGapsSurvive | src/dmdeviceadapter/amx/cwmp_plugin/transfers_timewindow.c:338-433 | whatever restarts happened, two boundaries still pending are exactly as many milliseconds apart as the request says |
| TransferTheorems.DoneOnceWindowsOver | src/dmdeviceadapter/amx/cwmp_plugin/transfers.c:218-258 | with ordered windows, a last window the plug-in acts in and a known file type, the transfer is Done once the last window's end has been handled |
| TransferTheorems.DoneIsFinal | src/dmdeviceadapter/amx/cwmp_plugin/transfers.c:77-107 | after Done, no run short of the acknowledgement changes status, fault code, fault text or attempt count |
| TransferTheorems.SuccessOnlyAcrossRestart | src/dmdeviceadapter/amx/cwmp_plugin/transfers.c:350-415 | a step finishes a transfer without fault if and only if it is a restart that finds the upgrade in progress, the new image active and an automatic window open |
| TransferTheorems.RestartOneSucceedsIff | src/dmdeviceadapter/amx/cwmp_plugin/transfers.c:350-415 | the same condition for one transfer |
| TransferTheorems.ReportedFailureFreesSlot | src/dmdeviceadapter/amx/cwmp_plugin/transfers_firmware.c:76-115 | one of the four failure statuses reported for the upgrade in the slot frees the slot, keeps windows and attempts, and in an open window of mode AtAnyTime or Immediately marks the transfer Failed with fault 9013 or 9010 and the boot log as text; it is announced only if the transfer was still in progress |
| TransferTheorems.FailureSpendsOneRetry | src/dmdeviceadapter/amx/cwmp_plugin/transfers_dm.c:246-293 | handling an announced failure spends exactly one retry of the open window on one new attempt; a taken slot or a refused download makes it fail and be announced again; without retries it completes the transfer in its last window and leaves it Failed in an earlier one |
| TransferSteps.RestartVerdict | src/dmdeviceadapter/amx/cwmp_plugin/transfers.c:350-459 | in every reachable state, after a restart an upgrade that was in progress, with its highest window that is not idle open and of mode AtAnyTime or Immediately, is Done without fault if the bus says "Active", and otherwise Failed with fault 9002 and announced; every other transfer keeps status, fault and attempts and is not announced |
| TransferSteps.RestartAnnounces | src/dmdeviceadapter/amx/cwmp_plugin/transfers.c:449-459 | the failures found at a restart are announced once each, in the order of the instances, and nothing else waits |
| TransferSteps.RestartResumes | src/dmdeviceadapter/amx/cwmp_plugin/transfers.c:260-297 | a restart keeps the stored fields of every window, arms timers from the stored offsets for what is still to come, and finds the last window again from the statuses |
| TransferSteps.WindowStartDecides | src/dmdeviceadapter/amx/cwmp_plugin/transfers_dm.c:190-217 | a window that opens causes one attempt if the transfer is not done and the mode is AtAnyTime or Immediately; a firmware image then takes the free slot or fails with fault 9002 and is announced; every other transfer stays as it is |
| TransferSteps.WindowEndDecides | src/dmdeviceadapter/amx/cwmp_plugin/transfers_dm.c:219-244 | a window that closes finishes a transfer of known file type with fault 9002, and frees its slot, if it was the last one and of an automatic mode, unless the transfer is done; an earlier one only closes |
| TransferSteps.FailureOutsideWindowIgnored | src/dmdeviceadapter/amx/cwmp_plugin/transfers_dm.c:272-289 | an announced failure outside an open window of an automatic mode changes nothing |
| TransferSteps.StartIsAnnounced | src/dmdeviceadapter/amx/cwmp_plugin/transfers_timewindow.c:189-205 | a start timer that is due opens its window, is gone, and always announces it; nothing else changes |
| TransferSteps.EndIsAnnounced | src/dmdeviceadapter/amx/cwmp_plugin/transfers_timewindow.c:207-223 | an end timer that is due closes its window, is gone, and always announces it; nothing else changes |
| TransferSteps.SaveStoresOffsets | src/dmdeviceadapter/amx/cwmp_plugin/transfers_timewindow.c:401-433 | saving stores the whole seconds left of an idle window, zero and the seconds left of a started one, and leaves an ended one and everything else alone |
| TransferSteps.NotificationDecides | src/dmdeviceadapter/amx/cwmp_plugin/transfers_firmware.c:76-115 | with an upgrade in the slot, exactly the statuses DownloadFailed, ValidationFailed, InstallationFailed and ActivationFailed free it, and Validating stores all offsets; any other notification changes nothing |
| TransferSteps.AddDecides | src/dmdeviceadapter/amx/cwmp_plugin/transfers_dm.c:77-188 | a request with windows becomes an idle transfer with its first two windows at most, offsets, modes and retries as asked and both timers armed; one without windows changes nothing |
| TransferLastWindow.RetriesDecide | src/dmdeviceadapter/amx/cwmp_plugin/transfers_dm.c:246-293 | a failed transfer in its last window gets under way if the slot is free and one of its retries is accepted; otherwise all retries are used, it ends Done, and the slot is freed only if it was its own |
| TransferLastWindow.LastWindowDecides | src/dmdeviceadapter/amx/cwmp_plugin/transfers_dm.c:190-293 | once the opening of the last window is handled, whatever the bus answers, the upgrade is under way if and only if the slot was free and a download was accepted, and given up with an internal error if and only if not |
| TransferLastWindow.AbandonedIffSlotTaken | src/dmdeviceadapter/amx/cwmp_plugin/transfers_firmware.c:157-197 | with a device that accepts every download, the transfer is given up if and only if the slot is taken when its last window opens, and in progress if and only if it is free |
| TransferScenes.UpgradeMayBeAbandoned | src/dmdeviceadapter/amx/cwmp_plugin/transfers_dm.c:77-217 | a run from the empty data model to the opening of the second window with the first one's upgrade still in the slot |
| TransferLastWindow.QueueDrains | src/dmdeviceadapter/amx/cwmp_plugin/transfers_dm.c:190-293 | from every reachable state, a number of deliveries bounded by the waiting changes and the attempts left empties the queue, whatever the bus answers |
| TransferLastWindow.DeliverShrinks | src/dmdeviceadapter/amx/cwmp_plugin/transfers_dm.c:190-293 | each delivery makes that number smaller |
| TransferScenes.OverlapLeavesUnfinished | src/dmdeviceadapter/amx/cwmp_plugin/transfers_dm.c:190-293 | a run with one window inside the other after which both have ended, no change waits, and a served transfer is not Done |
| TransferConclusions.FinishedIffServed | src/dmdeviceadapter/amx/cwmp_plugin/transfers.c:218-258 | with ordered windows, the last one over and no change waiting, a transfer not concluded without fault is Done if and only if its last window has mode 1 or 2 and its file type is not empty |
| TransferConclusions.ReachableJustified | src/dmdeviceadapter/amx/cwmp_plugin/transfers.c:417-437 | in every reachable state a transfer that is Done is of that kind or has no fault |
| TransferConclusions.UnservedStaysOpen | src/dmdeviceadapter/amx/cwmp_plugin/transfers.c:218-258 | a transfer not of that kind whose last window is over is neither finished nor deleted by any run, restarts included |
| TransferConclusions.SlotReleasedIff | src/dmdeviceadapter/amx/cwmp_plugin/transfers_firmware.c:76-216 | in every reachable state a step frees the slot if and only if it is a restart, a reported failure, or a delivery that leaves the holder Done; it never hands the slot over |
| TransferConclusions.NoRetryIsLost | src/dmdeviceadapter/amx/cwmp_plugin/transfers_dm.c:246-293 | in every reachable state a failed transfer with retries left in an open automatic window has its failure, or the start of its next window, waiting to be handled |
| TransferProofs.StepKeepsInv | src/dmdeviceadapter/amx/cwmp_plugin/transfers_dm.c:77-317 | every event keeps the invariant on queue, slot, attempt budget, window clock, cached pair and completion |
| TransferProofs.RunKeepsInv | src/dmdeviceadapter/amx/cwmp_plugin/transfers_dm.c:77-317 | so does every run |
| TransferProofs.BudgetUpdate | src/dmdeviceadapter/amx/cwmp_plugin/transfers_dm.c:246-293 | changing one window changes the remaining budget by that window's cost alone |
| TransferProofs.StartedKeepsGood | src/dmdeviceadapter/amx/cwmp_plugin/transfers_dm.c:190-217 | handling a window start keeps one transfer's invariant and consumes the attempt set aside for it |
| TransferProofs.EndedKeepsGood | src/dmdeviceadapter/amx/cwmp_plugin/transfers_dm.c:219-244 | handling a window end keeps it and completes the transfer if it was the last |
| TransferProofs.FailedKeepsGood | src/dmdeviceadapter/amx/cwmp_plugin/transfers_dm.c:246-293 | handling a failure keeps it, each retry paid from the window's budget |
| TransferProofs.RestartKeepsInv | src/dmdeviceadapter/amx/cwmp_plugin/transfers.c:384-469 | a restart re-establishes the whole invariant from what the data model stores |
| TransferProofs.AcknowledgeKeepsInv | src/dmdeviceadapter/amx/adapter/DM_DeviceAdapter.c:1409-1424 | deleting an acknowledged transfer keeps the invariant |
| TransferModel.LastTouched | src/dmdeviceadapter/amx/cwmp_plugin/transfers.c:260-297 | the rebuilt pair is the highest window that is not idle and whether that one is started |
| TransferModel.PickUpEach | src/dmdeviceadapter/amx/cwmp_plugin/transfers.c:449-459 | picking up transfers one after the other gives each the result it would have had alone, whatever the order, and queues their failures in list order |
| TransferPlugin.Plugin.SetStatus | src/dmdeviceadapter/amx/cwmp_plugin/transfers.c:141-186 | writes the status and raises the failure event only on a change to Failed |
| TransferPlugin.Plugin.UpdateTransferComplete | src/dmdeviceadapter/amx/cwmp_plugin/transfers.c:315-348 | writes fault code and text of that transfer and nothing else |
| TransferPlugin.Plugin.DoFirmwareUpgrade | src/dmdeviceadapter/amx/cwmp_plugin/transfers_firmware.c:157-197 | takes the slot if and only if it was free and the download was accepted |
| TransferPlugin.Plugin.FirmwareTransferDone | src/dmdeviceadapter/amx/cwmp_plugin/transfers_firmware.c:209-216 | frees the slot only for the transfer that holds it |
| TransferPlugin.Plugin.StartTransfer | src/dmdeviceadapter/amx/cwmp_plugin/transfers.c:192-216 | does to the whole plug-in state what the specification's attempt does |
| TransferPlugin.Plugin.TransferDone | src/dmdeviceadapter/amx/cwmp_plugin/transfers.c:417-437 | does what the specification's completion does |
| TransferPlugin.Plugin.FirmwareUpgradeDone | src/dmdeviceadapter/amx/cwmp_plugin/transfers.c:77-107 | does what the specification does with the result of an upgrade |
| TransferPlugin.Plugin.HandleTransfer | src/dmdeviceadapter/amx/cwmp_plugin/transfers.c:218-258 | does what the specification does after a window change |
| TransferPlugin.Plugin.TimewindowStarted | src/dmdeviceadapter/amx/cwmp_plugin/transfers_dm.c:190-217 | refines the window-start step |
| TransferPlugin.Plugin.TimewindowEnded | src/dmdeviceadapter/amx/cwmp_plugin/transfers_dm.c:219-244 | refines the window-end step |
| TransferPlugin.Plugin.ScheduleDownloadTransferFailed | src/dmdeviceadapter/amx/cwmp_plugin/transfers_dm.c:246-293 | refines the failure step |
| TransferPlugin.Plugin.DispatchChange | src/dmdeviceadapter/amx/cwmp_plugin/odl/cwmp_plugin-definition.odl:1353-1363 | the event at the head of the queue reaches its handler, as in the specification's delivery |
| TransferPlugin.Plugin.AddInfo | src/dmdeviceadapter/amx/cwmp_plugin/transfers.c:260-297 | the loop over the windows computes the rebuilt pair |
| TransferPlugin.Plugin.TimewindowInternalStart | src/dmdeviceadapter/amx/cwmp_plugin/transfers_timewindow.c:351-383 | arms the timers of one window as its stored status requires |
| TransferPlugin.Plugin.TimewindowStart | src/dmdeviceadapter/amx/cwmp_plugin/transfers_timewindow.c:385-399 | arms every window of a transfer |
| TransferPlugin.Plugin.TimewindowInternalSave | src/dmdeviceadapter/amx/cwmp_plugin/transfers_timewindow.c:401-433 | stores what one window's timers have left |
| TransferPlugin.Plugin.TimewindowSave | src/dmdeviceadapter/amx/cwmp_plugin/transfers_timewindow.c:435-450 | stores the offsets of every window of a transfer |
| TransferPlugin.Plugin.SaveTransfers | src/dmdeviceadapter/amx/cwmp_plugin/transfers.c:439-445 | the loop stores the offsets of every transfer |
| TransferPlugin.Plugin.AddScheduleDownload | src/dmdeviceadapter/amx/cwmp_plugin/transfers_dm.c:77-188 | refines the creation step: the first one or two windows, cached pair built, timers armed; nothing without a window |
| TransferPlugin.Plugin.SetWindowStatus | src/dmdeviceadapter/amx/cwmp_plugin/transfers_timewindow.c:77-112 | writes one window's status and raises its event only on a change |
| TransferPlugin.Plugin.StartTimerExpired | src/dmdeviceadapter/amx/cwmp_plugin/transfers_timewindow.c:189-205 | refines the step of a start timer |
| TransferPlugin.Plugin.EndTimerExpired | src/dmdeviceadapter/amx/cwmp_plugin/transfers_timewindow.c:207-223 | refines the step of an end timer |
| TransferPlugin.Plugin.TransferDoneAcknowledged | src/dmdeviceadapter/amx/adapter/DM_DeviceAdapter.c:1409-1424 | deletes the instance whatever its status, with an error if there is none; for a transfer that is Done this is the acknowledgement step |
| TransferPlugin.Plugin.HandleInProgressTransfer | src/dmdeviceadapter/amx/cwmp_plugin/transfers.c:384-415 | an upgrade found in progress is concluded from the status of the active image, any other transfer is left alone |
| TransferPlugin.Plugin.InitTransfer | src/dmdeviceadapter/amx/cwmp_plugin/transfers_dm.c:173-188 | brings one transfer back: cache rebuilt, upgrade concluded, timers armed |
| TransferPlugin.Plugin.RestartProcess | src/dmdeviceadapter/amx/cwmp_plugin/transfers.c:449-469 | the loop over all instances refines the restart step, with an answer of the bus for each transfer in progress |
| TransferPlugin.Plugin.FirmwareImageNotification | src/dmdeviceadapter/amx/cwmp_plugin/transfers_firmware.c:76-115 | refines the notification step: a failure ends the upgrade in the slot, validation saves all offsets, anything else changes nothing |
| TimeWindows.OffsetExactIff | src/dmdeviceadapter/amx/cwmp_plugin/transfers_timewindow.c:338-349 | seconds become milliseconds without wrapping if and only if there are at most 4294967 of them |
| TimeWindows.OffsetWrapReordersTimers | src/dmdeviceadapter/amx/cwmp_plugin/transfers_timewindow.c:351-383 | one second more and a window that starts before it ends is armed to end before it starts |
| TimeWindows.ArmKeepsClock | src/dmdeviceadapter/amx/cwmp_plugin/transfers_timewindow.c:351-383 | freshly armed timers agree with one clock common to all boundaries |
| TimeWindows.SaveKeepsClock | src/dmdeviceadapter/amx/cwmp_plugin/transfers_timewindow.c:401-433 | the saved offsets are all short of the request by the same number of whole seconds |
| TimeWindows.TimersExpireInOrder | src/dmdeviceadapter/amx/cwmp_plugin/transfers_timewindow.c:189-223 | a start timer expires only after all earlier windows have ended, an end timer only in the started window |
| TimeWindows.GapsExact | src/dmdeviceadapter/amx/cwmp_plugin/transfers_timewindow.c:351-433 | any two pending boundaries are exactly as far apart as requested |
| TimeWindows.RunClock | src/dmdeviceadapter/amx/cwmp_plugin/transfers_timewindow.c:351-433 | over any run of timers and restarts the common clock gains between 0 and 999 ms per restart on real time, and order survives |
| TimeWindows.CyclesShortenBoundedly | src/dmdeviceadapter/amx/cwmp_plugin/transfers_timewindow.c:351-433 | over k save and restart cycles every boundary still pending loses less than k seconds beyond the time that passed, and windows stay ordered |
| Paths.CutBehindLastDot | src/dmdeviceadapter/amx/adapter/DM_AmxParameterValues.c:322-323 | a path is cut behind its last dot: the object path is empty or ends with a dot, and the parameter name has none |
| ParameterValues.CheckForDuplicates | src/dmdeviceadapter/amx/adapter/DM_AmxParameterValues.c:264-280 | reports a duplicate if and only if an earlier parameter has the same name, with one fault |
| ParameterValues.CheckParameter | src/dmdeviceadapter/amx/adapter/DM_AmxParameterValues.c:301-407 | within a described object, accepts a parameter exactly when the flat check finds no fault and else adds that fault |
| ParameterValues.ValidateObject | src/dmdeviceadapter/amx/adapter/DM_AmxParameterValues.c:301-407 | one call moves the shared cursor over at least one parameter and adds exactly the faults of those it passed, in order |
| ParameterValues.ValidateAll | src/dmdeviceadapter/amx/adapter/DM_DeviceAdapter.c:942-954 | the nested loops examine every index: the faults are those of the flat per-parameter check in list order, and there is no error if and only if there is no fault |
| ParameterValues.NoFaultsIffAllValid | src/dmdeviceadapter/amx/adapter/DM_AmxParameterValues.c:301-407 | the fault list is empty if and only if every parameter is valid, and never longer than the list |
| ParameterValues.AllValidIffSettable | src/dmdeviceadapter/amx/adapter/DM_AmxParameterValues.c:301-407 | a list is valid if and only if the names are proper and differ, and each parameter is described on an acceptable path, of an accepted type, not read-only and allowed to be set |
| ParameterValues.FaultsReport | src/dmdeviceadapter/amx/adapter/DM_AmxParameterValues.c:301-407 | the faults are those of the parameters that fail a check, once each, in list order; the code tells the first check failed: name or description, type, repetition, access |
| ParameterValues.ValidatedNamesDistinct | src/dmdeviceadapter/amx/adapter/DM_AmxParameterValues.c:264-280 | a list that passes validation names every parameter once, with valid paths |
| ParameterValues.RunIsOneByOne | src/dmdeviceadapter/amx/adapter/DM_AmxParameterValues.c:466-515 | one accepted set for a run of parameters of one object has the effect of setting them one at a time |
| ParameterValues.GroupedIsOneByOne | src/dmdeviceadapter/amx/adapter/DM_DeviceAdapter.c:964-966 | when every set is accepted, the grouped application leaves the data model that one-by-one application in list order leaves |
| ParameterValues.RunLosesNothing | src/dmdeviceadapter/amx/adapter/DM_AmxParameterValues.c:466-515 | the table sent for a run holds as many values as the run has parameters |
| ParameterValues.EveryParameterSet | src/dmdeviceadapter/amx/adapter/DM_DeviceAdapter.c:964-966 | when every set is accepted, every listed parameter ends with its listed value and every other one as it was |
| ParameterValues.SetWhereAccepted | src/dmdeviceadapter/amx/adapter/DM_DeviceAdapter.c:964-966 | whatever the bus answers, a listed parameter ends with its listed value if the call for its own run is accepted, and otherwise with the value it had before the request |
| ParameterValues.UnnamedStays | src/dmdeviceadapter/amx/adapter/DM_DeviceAdapter.c:964-966 | whatever the bus answers, a parameter that is not listed keeps its value |
| ParameterValues.CallsAreSanctioned | src/dmdeviceadapter/amx/adapter/DM_AmxParameterValues.c:466-515 | every value of every call of a valid request is one that was asked for, of a parameter that may be set |
| ParameterValues.RefusalsAreReported | src/dmdeviceadapter/amx/adapter/DM_AmxParameterValues.c:466-515 | a fault is reported by a request that is carried out if and only if some refused call gave it |
| ParameterValues.Device.CollectRun | src/dmdeviceadapter/amx/adapter/DM_AmxParameterValues.c:484-497 | the inner loop of the shared cursor gathers exactly one maximal run of equal object paths and stops on its last index |
| ParameterValues.Device.SetValues | src/dmdeviceadapter/amx/adapter/DM_AmxParameterValues.c:466-515 | one call consumes one maximal run of equal object paths and issues one set with all its values |
| ParameterValues.Device.ApplyAll | src/dmdeviceadapter/amx/adapter/DM_DeviceAdapter.c:964-966 | the loop visits each index once, issues one set per maximal run, and returns the error of the last set |
| ParameterValues.Device.SetParameterValues | src/dmdeviceadapter/amx/adapter/DM_DeviceAdapter.c:931-988 | the request is carried out if and only if every name is proper and given once and the bus describes the parameter, accepts its type and allows setting it; then every value of every call is one that was asked for and may be set, and the calls are the grouped application above; otherwise nothing is set and each bad parameter is reported once, in order, with the code of the first check it fails |
| ParameterValues.SuccessIsTruthfulIff | src/dmdeviceadapter/amx/adapter/DM_DeviceAdapter.c:961-984 | a reported success means, for every bus, that every set was accepted if and only if all parameters of the request belong to one object |
| ParameterValues.OneCallIffOneObject | src/dmdeviceadapter/amx/adapter/DM_AmxParameterValues.c:466-515 | the request is applied with at most one set if and only if all its parameters belong to one object |
| ParameterValues.FailureLeavesNothingIff | src/dmdeviceadapter/amx/adapter/DM_DeviceAdapter.c:961-966 | a reported failure leaves the data model as it was, for every content and every bus, if and only if all parameters of the request belong to one object |
| ParameterValues.FailedRequestStaysApplied | src/dmdeviceadapter/amx/adapter/DM_DeviceAdapter.c:961-966 | two objects, the second refused: failure is reported and exactly the first one's value is in the data model |
| ParameterValues.RefusedRunGoesUnreported | src/dmdeviceadapter/amx/adapter/DM_DeviceAdapter.c:961-984 | two parameters for which success is reported although the first was not set |
| ParameterNames.InfoList.GetParameter | src/dmdeviceadapter/amx/adapter/DM_AmxParameterNames.c:153-192 | appends a parameter if and only if its path is allowed |
| ParameterNames.InfoList.GetParameters | src/dmdeviceadapter/amx/adapter/DM_AmxParameterNames.c:211-280 | the loop appends the object's own entries, parameters in sorted order |
| ParameterNames.InfoList.GetNames | src/dmdeviceadapter/amx/adapter/DM_AmxParameterNames.c:301-398 | appends exactly the listing of the subtree, or of the next level; fails exactly where the specification says |
| ParameterNames.InfoList.GetChildren | src/dmdeviceadapter/amx/adapter/DM_AmxParameterNames.c:301-398 | the loop over sorted children appends what each contributes and reports the failure of the last only |
| ParameterNames.InfoList.PartialPath | src/dmdeviceadapter/amx/adapter/DM_AmxParameterNames.c:417-444 | the loop walks the objects a path resolves to in order, up to the first that fails; the answer joins their listings, and is empty with an error if the path is not valid, does not resolve, or an object fails |
| ParameterNames.InfoList.WalkObjects | src/dmdeviceadapter/amx/adapter/DM_AmxParameterNames.c:425-434 | the loop itself: which objects were listed, what each contributed, and where it stopped |
| ParameterNames.SortedNames | src/dmdeviceadapter/amx/adapter/DM_AmxParameterNames.c:211-280 | sorting orders the names and keeps exactly the same ones |
| ParameterNames.SortIsUnique | src/dmdeviceadapter/amx/adapter/DM_AmxCommon.c:749-753 | names can be put in strictly ascending order in one way only, so the order does not depend on how the library sorts |
| ParameterNames.NameLeIff | src/dmdeviceadapter/amx/adapter/DM_AmxCommon.c:749-753 | the order is that of strcmp: a name comes before another if it is a beginning of it or is smaller at the first character that differs |
| ParameterNamesProofs.NextLevelIsFilteredListing | src/dmdeviceadapter/amx/adapter/DM_AmxParameterNames.c:301-398 | NextLevel=true lists exactly the entries of NextLevel=false whose parent is the object asked about, in the same order, if and only if the filters of that object and of its children agree about the described children |
| ParameterNamesProofs.NextLevelHolds | src/dmdeviceadapter/amx/adapter/DM_AmxParameterNames.c:337-376 | a child is in the next level if and only if it is described and the filters of the object above allow it |
| ParameterNamesListing.ListedOnce | src/dmdeviceadapter/amx/adapter/DM_AmxParameterNames.c:301-398 | no path is listed twice |
| ParameterNamesListing.ListedIffReported | src/dmdeviceadapter/amx/adapter/DM_AmxParameterNames.c:211-398 | an entry is listed if and only if some route of described objects leads to an allowed object, and it is that object, writable if it is a template or an instance, or an allowed parameter of it that is not a template's, writable if it is not read-only |
| ParameterNamesListing.NextLevelListsIff | src/dmdeviceadapter/amx/adapter/DM_AmxParameterNames.c:301-398 | with NextLevel an entry is listed if and only if it is an allowed parameter of the object, not a template's, or a described child that the filters of the object allow, writable if it is a template or an instance |
| ParameterNamesListing.ObjectWritableIff | src/dmdeviceadapter/amx/adapter/DM_AmxParameterNames.c:222-239 | in both forms of the request, the entry of an object is writable if and only if the object is a template or an instance |
| ParameterNamesListing.RouteIsUnique | src/dmdeviceadapter/amx/adapter/DM_AmxParameterNames.c:301-398 | no two routes through the tree lead to objects of one path |
| ParameterNamesListing.SortedNoRepeats | src/dmdeviceadapter/amx/adapter/DM_AmxParameterNames.c:301-398 | the walk goes through parameters and children in strictly ascending order of name |
| ParameterNamesOrder.ListedInPreOrder | src/dmdeviceadapter/amx/adapter/DM_AmxParameterNames.c:211-398 | every entry stands for a place of the tree, and the places come in strict pre-order: an object, its parameters by ascending name, then its children by ascending name |
| ParameterNamesOrder.BeforeIsTransitive | src/dmdeviceadapter/amx/adapter/DM_AmxParameterNames.c:211-398 | that order of places is transitive |
| ParameterNamesOrder.BeforeIsIrreflexive | src/dmdeviceadapter/amx/adapter/DM_AmxParameterNames.c:211-398 | and no place comes before itself |
| ParameterNamesVerdict.WalkFailsIff | src/dmdeviceadapter/amx/adapter/DM_AmxParameterNames.c:301-398 | the walk reports an error if and only if the description at the end of the chain of last children fails |
| ParameterNamesVerdict.FailureIsLostIff | src/dmdeviceadapter/amx/adapter/DM_AmxParameterNames.c:301-398 | a reported error is real; a real failure goes unreported if and only if it lies beside that chain and the end of the chain is sound |
| ParameterNamesVerdict.SuccessIsTruthfulIff | src/dmdeviceadapter/amx/adapter/DM_AmxParameterNames.c:301-398 | success can be trusted, whatever describing the objects yields, if and only if no object of the tree has two children |
| ParameterNamesVerdict.BranchLosesFailure | src/dmdeviceadapter/amx/adapter/DM_AmxParameterNames.c:301-398 | for every tree that branches anywhere, replies with which a failure goes unreported |
| ParameterNamesVerdict.NextLevelSuccessIsTruthfulIff | src/dmdeviceadapter/amx/adapter/DM_AmxParameterNames.c:301-398 | with NextLevel, success can be trusted, whatever describing the objects yields, if and only if the object asked about has no children |
| ParameterNamesVerdict.LastChild | src/dmdeviceadapter/amx/adapter/DM_AmxParameterNames.c:329-385 | the last child is the one with the greatest name |
| ParameterNamesVerdict.FailureOfEarlierChildIsLost | src/dmdeviceadapter/amx/adapter/DM_AmxParameterNames.c:301-398 | a tree of three objects in which a child's description fails and the walk reports success |
| CString.StrTok | src/dmmain/cwmpd_cookie.c:141-171 | on a mutable buffer, finds the next token, cuts it off, and leaves the remaining tokens to be found |
| CString.TokensConcat | src/dmmain/cwmpd_cookie.c:141-171 | the tokens of two texts joined by a delimiter are the tokens of the one and then of the other |
| CString.TokensAreTokens | src/dmmain/cwmpd_cookie.c:141-171 | tokens are not empty and hold no delimiter |
| CookieModel.BuildIsHomomorphic | src/dmmain/cwmpd_cookie.c:131-175 | parsing two headers joined by a semicolon is parsing one after the other |
| CookieModel.JarIsOrderedMap | src/dmmain/cwmpd_cookie.c:84-120 | the last value of a name wins, and names keep the order of their first appearance |
| CookieModel.BuildKeepsGood | src/dmmain/cwmpd_cookie.c:131-175 | names stay distinct, not empty, not filtered, without equals sign, semicolon or leading space; values without semicolon |
| CookieModel.BuildManyGood | src/dmmain/cwmpd_cookie.c:131-175 | so they are after every sequence of headers |
| CookieModel.RoundTrip | src/dmmain/cwmpd_cookie.c:131-192 | for every jar that headers can build, printing it and parsing the text into an empty jar gives the same ordered list |
| CookieModel.StoredIffNotFiltered | src/dmmain/cwmpd_cookie.c:158-160 | a well-formed cookie is kept if and only if its name is not a case-insensitive prefix of an attribute name |
| CookieHeaders.HeaderSetsOne | src/dmmain/cwmpd_cookie.c:138-169 | a header with one cookie, after any leading spaces, puts it into any jar unless its name is empty or is path, max-age, expires, samesite or domain, or a beginning of one, in any mixture of capital and small letters |
| CookieHeaders.HeaderWithoutEquals | src/dmmain/cwmpd_cookie.c:140-153 | a header without an equals sign changes nothing |
| CookieHeaders.FilteredIff | src/dmmain/cwmpd_cookie.c:153-155 | the names that are skipped, letter by letter |
| CookieHeaders.PrintedForm | src/dmmain/cwmpd_cookie.c:177-192 | a cookie is printed as name, equals sign and value, and two printed jars are joined by one semicolon |
| CookieModel.ShortNamesAreLost | src/dmmain/cwmpd_cookie.c:158-160 | cookies named P or exp are dropped |
| CookieModel.SpaceBeforeEqualsStays | src/dmmain/cwmpd_cookie.c:151-153 | a space before the equals sign stays in the name, which is then never filtered, not even that of an attribute |
| CookieModel.EqualsIsFoundAgain | src/dmmain/cwmpd_cookie.c:143-164 | behind the leading spaces of a token with an equals sign, the search for it finds the same one |
| CookieJar.Jar.Search | src/dmmain/cwmpd_cookie.c:84-98 | finds the first cookie of that name |
| CookieJar.Jar.Store | src/dmmain/cwmpd_cookie.c:100-120 | replaces the value in place or appends the cookie |
| CookieJar.Jar.StrChr | src/dmmain/cwmpd_cookie.c:143-143 | finds the first equals sign of a token |
| CookieJar.Jar.SkipBlanks | src/dmmain/cwmpd_cookie.c:147-150 | skips exactly the leading spaces and stops before the equals sign |
| CookieJar.Jar.BuildToken | src/dmmain/cwmpd_cookie.c:142-169 | one token cut in place has the effect of the cookie it parses to, and touches nothing after the token |
| CookieJar.Jar.BuildFrom | src/dmmain/cwmpd_cookie.c:131-175 | the strtok loop over the mutable header, which terminates on every header, leaves the jar the specification gives; -1 only for an empty header |
| CookieJar.Jar.Print | src/dmmain/cwmpd_cookie.c:177-192 | the loop prints all cookies in order with separators between them, and nothing for an empty jar |
| AliasPaths.FitsBuffer | src/dmdeviceadapter/amx/adapter/DM_AmxCommon.c:860-894 | for every path and alias list the rewritten text and its NUL fit the buffer that is allocated |
| AliasPaths.ExtractAliases | src/dmdeviceadapter/amx/adapter/DM_AmxCommon.c:823-849 | the strtok loop collects exactly the bracketed elements with their positions, and their total length |
| AliasPaths.ModifyPathWithAliases | src/dmdeviceadapter/amx/adapter/DM_AmxCommon.c:860-894 | repeated strcat into the buffer, never past its end, gives the path with the elements at alias positions replaced |
| AliasPaths.StrCat | src/dmdeviceadapter/amx/adapter/DM_AmxCommon.c:878-886 | appends a text and moves the NUL behind it |
| AliasPaths.ExtractedReplacement | src/dmdeviceadapter/amx/adapter/DM_AmxCommon.c:823-894 | the list extracted from a path replaces an element exactly where the path has an alias, by that alias |
| AliasPaths.ExtractedIff | src/dmdeviceadapter/amx/adapter/DM_AmxCommon.c:823-849 | the list extracted from a path holds exactly the elements that start with an opening bracket, end with a closing one and have something between them, each with its place |
| AliasPaths.RewrittenAnswer | src/dmdeviceadapter/amx/adapter/DM_AmxCommon.c:823-894 | an answer whose elements match the request, aliases aside, is rewritten to the elements of the request and whatever follows them |
| AliasPaths.AliasRoundTrip | src/dmdeviceadapter/amx/adapter/DM_AmxCommon.c:823-894 | rewriting the answer to a canonical alias path gives back that alias path |
| AliasPaths.AliasRoundTripBelow | src/dmdeviceadapter/amx/adapter/DM_AmxCommon.c:823-894 | rewriting an answer below a canonical alias path gives that alias path followed by the rest |
| AliasPaths.AliasRoundTripSuffix | src/dmdeviceadapter/amx/adapter/DM_AmxCommon.c:823-894 | rewriting the answer to a canonical partial alias path with any canonical suffix gives the alias path with that suffix |
| AliasPaths.DottedTokens | src/dmdeviceadapter/amx/adapter/DM_AmxCommon.c:860-894 | a canonical path is its elements joined by dots again |
| DnsModel.MinTtl | src/dmmain/cwmpd_dns.c:192-234 | the smallest time to live among the usable addresses |
| DnsModel.NextLookupPositiveIff | src/dmmain/cwmpd_dns.c:173-186 | the delay of the next lookup is positive if and only if the time to live is usable, the interval is not known, or it is positive |
| DnsModel.DelayFitsIff | src/dmmain/cwmpd_dns.c:188-188 | its milliseconds fit in an int if and only if the delay chosen is within 2147483 s either way |
| DnsModel.StepKeepsInv | src/dmmain/cwmpd_dns.c:352-570 | every event keeps the invariant on resolvers, retry and bootstrap accounts |
| DnsModel.AtMostOneCounts | src/dmmain/cwmpd_dns.c:483-570 | in every reachable state at most one resolver is not dirty, and it is of the newest resolution |
| DnsModel.AddressesAreFresh | src/dmmain/cwmpd_dns.c:352-392 | the ACS address list only changes by a new resolution call or by the answer to the newest query, which it then equals |
| DnsModel.StaleAnswersIgnored | src/dmmain/cwmpd_dns.c:352-392 | an answer to an older query changes nothing but that query |
| DnsModel.NewestAnswerDecides | src/dmmain/cwmpd_dns.c:173-234 | after an answer to the newest query that brings nodes, the addresses are exactly the non-empty ones of the reply, in their order and as often as they occur, and the timer is armed with the least time to live among them, or with the interval or 300 s where that is zero, negative or unbounded; after any other answer the list stays and the timer is armed with 5 s; an owed bootstrap goes out |
| DnsModel.CallDecides | src/dmmain/cwmpd_dns.c:483-570 | what a resolution call leaves: without a host only the retry of 5 s; with one all older queries dirty, and the address itself, or one new query, or the retry if that is refused |
| DnsModel.CleanUpDecides | src/dmmain/cwmpd_dns.c:236-260 | removing a resolver changes nothing else, unless it closes the newest query, which then counts as failed |
| DnsModel.RetryNeverLost | src/dmmain/cwmpd_dns.c:173-189 | in every reachable state whose latest host needed a lookup, a query that counts is open or the timer is armed |
| DnsModel.FirstRetryHeld | src/dmmain/cwmpd_dns.c:512-570 | until a host has been read at all, a retry once armed stays armed over every run |
| DnsModel.BootstrapsWithinChanges | src/dmmain/cwmpd_dns.c:352-392 | bootstrap informs never outnumber the URL changes that could be read, and one owed is not yet counted |
| DnsModel.OwedBootstrapIsPending | src/dmmain/cwmpd_dns.c:352-392 | a bootstrap owed waits for an open query or an armed timer, unless the host is empty |
| DnsModel.SettlingPaysBootstrap | src/dmmain/cwmpd_dns.c:352-392 | a bootstrap is sent with an event exactly if that event settles the host (the newest query is answered or torn down, or the host is a literal address) and one is owed or made owed by it; none is owed afterwards, and no other event pays |
| DnsModel.UrlChangeOwesBootstrapIff | src/dmmain/cwmpd_dns.c:512-570 | after a URL change a bootstrap is owed or just sent if and only if the URL can be read and parsed, or one was owed already |
| DnsScheduler.Scheduler.MarkResolversAsDirty | src/dmmain/cwmpd_dns.c:483-491 | the loop marks every resolver |
| DnsScheduler.Scheduler.ReadReply | src/dmmain/cwmpd_dns.c:192-234 | the loop collects the printable addresses in order and the minimum time to live |
| DnsScheduler.Scheduler.Schedule | src/dmmain/cwmpd_dns.c:173-189 | arms the timer with the time to live, or the inform interval or 300 s where that is zero or unbounded |
| DnsScheduler.Scheduler.ResolveCallback | src/dmmain/cwmpd_dns.c:352-392 | refines the answer step |
| DnsScheduler.Scheduler.BeginResolution | src/dmmain/cwmpd_dns.c:526-542 | refines the common part of a resolution call |
| DnsScheduler.Scheduler.ResolveAcs | src/dmmain/cwmpd_dns.c:469-570 | refines the resolution call, with its result |
| DnsScheduler.Scheduler.TtlExpired | src/dmmain/cwmpd_dns.c:246-248 | refines the timer step |
| DnsScheduler.Scheduler.CleanResolver | src/dmmain/cwmpd_dns.c:132-142 | refines the removal of a resolver, which answers a query still open |
| ConnectionLimiter.CapIsDoubleIff | src/dmmain/cwmpd_connectionsecurity.c:89-148 | the limit used is twice the configured one if and only if doubling does not wrap |
| ConnectionLimiter.PrunedListIsPrunedHistory | src/dmmain/cwmpd_connectionsecurity.c:89-148 | pruning the kept list gives what pruning the whole history of acceptances would give |
| ConnectionLimiter.StepKeepsInv | src/dmmain/cwmpd_connectionsecurity.c:72-148 | every request keeps the list a suffix of the sorted history and the history within the limit |
| ConnectionLimiter.RefusedIffHistoryExceedsCap | src/dmmain/cwmpd_connectionsecurity.c:89-148 | over every run with a clock that does not go back, a request is refused if and only if more acceptances than the limit lie in the window before it |
| ConnectionLimiter.RefusedIff | src/dmmain/cwmpd_connectionsecurity.c:123-137 | over every run with a clock that does not go back, a request is refused if and only if more than twice the limit (in `unsigned int`) of all the acceptances so far lie between the window before it and now, both ends included; otherwise it is recorded as the newest acceptance |
| ConnectionLimiter.WindowsHoldAtMostCapPlusOne | src/dmmain/cwmpd_connectionsecurity.c:72-148 | any closed interval of the window's length holds at most the limit plus one acceptances |
| ConnectionLimiter.Limiter.MaxConnectionsAdd | src/dmmain/cwmpd_connectionsecurity.c:72-82 | appends the time |
| ConnectionLimiter.Limiter.MaxConnectionsReached | src/dmmain/cwmpd_connectionsecurity.c:89-148 | the loop removes exactly the stamps that no longer count and compares what is left with the limit |
| ConnectionLimiter.Limiter.CheckAvailability | src/dmmain/cwmpd_server.c:114-129 | check, then add, refines one step of the limiter |
| TimerModel.ObeyedAllKeepsUnique | src/dmmain/cwmpd_timer.c:193-241 | names stay unique through every sequence of starts and stops |
| TimerModel.FiredKeepsUnique | src/dmmain/cwmpd_timer.c:148-170 | and through an expiry, whatever its handler starts or stops |
| TimerModel.StartedLookup | src/dmmain/cwmpd_timer.c:193-224 | starting a timer changes only the entry of that name; a known one keeps its handler and interval flag |
| TimerModel.StoppedLookup | src/dmmain/cwmpd_timer.c:226-241 | stopping a timer removes the entry of that name and no other |
| TimerModel.FiredLookup | src/dmmain/cwmpd_timer.c:148-170 | when a timer runs out, every name its handler does not mention is found as before, except its own if it does not repeat; a timer without a handler changes nothing |
| TimerModel.OneShotMayRestartItself | src/dmmain/cwmpd_timer.c:148-170 | a one-shot timer is gone before its handler runs, so restarting its own name makes a fresh one at the end |
| TimerModel.RepeatingCannotBeReplaced | src/dmmain/cwmpd_timer.c:148-224 | a repeating timer restarted by its handler keeps its handler and goes on repeating |
| TimerRegistry.Registry.FindTimer | src/dmmain/cwmpd_timer.c:72-82 | walking the chain finds the item that the map gives, or none |
| TimerRegistry.Registry.FindByAddress | src/dmmain/cwmpd_timer.c:87-94 | walking the chain finds out whether the item is in it |
| TimerRegistry.Registry.Append | src/dmmain/cwmpd_timer.c:175-191 | puts an item at the end, the others and their order unchanged |
| TimerRegistry.Registry.Remove | src/dmmain/cwmpd_timer.c:109-127 | takes the first item of that name out of the chain, the others and their order unchanged |
| TimerRegistry.Registry.RemoveAll | src/dmmain/cwmpd_timer.c:132-141 | leaves an empty chain |
| TimerRegistry.Registry.StartTimer | src/dmmain/cwmpd_timer.c:193-224 | refines starting a timer in the map |
| TimerRegistry.Registry.Restart | src/dmmain/cwmpd_timer.c:193-224 | a known timer gets its new waiting time and keeps its place, handler and flag |
| TimerRegistry.Registry.StopTimer | src/dmmain/cwmpd_timer.c:226-241 | refines stopping a timer in the map, and reports whether there was one |
| TimerRegistry.Registry.TimeoutHandler | src/dmmain/cwmpd_timer.c:148-170 | refines an expiry for every behaviour of the handler, its own name included; an item no longer in the chain is ignored |
| SubscriptionModel.StepKeepsInv | src/dmdeviceadapter/amx/adapter/DM_AmxCommon.c:569-690 | every call, however the bus answers, keeps one entry per object, never the root, and the bus delivering exactly the listed objects |
| SubscriptionModel.RunKeepsInv | src/dmdeviceadapter/amx/adapter/DM_AmxCommon.c:569-690 | so does every run |
| SubscriptionModel.StepHeld | src/dmdeviceadapter/amx/adapter/DM_AmxCommon.c:569-690 | what one call does to the number of watchers with a given id |
| SubscriptionModel.AddDecides | src/dmdeviceadapter/amx/adapter/DM_AmxCommon.c:569-642 | a path is taken apart behind its last dot; a listed object gets the new watcher at the end, with the parameter or, if there is none, the object; another one is subscribed and listed with it exactly if the bus agrees |
| SubscriptionModel.RootIsRefused | src/dmdeviceadapter/amx/adapter/DM_AmxCommon.c:585-590 | a path without an object, or right below the root, is refused |
| SubscriptionModel.DeleteDecides | src/dmdeviceadapter/amx/adapter/DM_AmxCommon.c:658-690 | a deletion takes the first watcher with the id off the first object that has one, and with the last watcher ends the subscription unless the bus refuses, which makes the call fail |
| SubscriptionModel.UnknownIdIsRefused | src/dmdeviceadapter/amx/adapter/DM_AmxCommon.c:665-668 | deleting an id that nobody holds fails and changes nothing |
| SubscriptionModel.HeldIsAddsMinusDeletes | src/dmdeviceadapter/amx/adapter/DM_AmxCommon.c:569-690 | over every run, for every id and even with colliding ids, the watchers held are additions less deletions, those that reported an error for an id still held included |
| SubscriptionModel.AllWatchedIff | src/dmdeviceadapter/amx/adapter/DM_AmxCommon.c:658-690 | a call leaves an object nobody watches if and only if the bus refuses to unsubscribe its last watcher, which is also the only way to fail for an id that is held |
| SubscriptionModel.WatchedWhileBusObeys | src/dmdeviceadapter/amx/adapter/DM_AmxCommon.c:569-690 | over every run in which the bus unsubscribes, every listed object is watched and no deletion of a held id fails |
| SubscriptionModel.StrandedStays | src/dmdeviceadapter/amx/adapter/DM_AmxCommon.c:658-690 | an object nobody watches stays subscribed over every run that adds no watcher for it |
| SubscriptionModel.StrandingHappens | src/dmdeviceadapter/amx/adapter/DM_AmxCommon.c:658-690 | one addition and one deletion that the bus refuses leave an object subscribed to and watched by nobody |
| SubscriptionModel.DeleteReachesHome | src/dmdeviceadapter/amx/adapter/DM_AmxCommon.c:478-519 | when no two objects share an id, a deletion over any run reaches the object the id was made for |
| SubscriptionModel.DeleteReachesIff | src/dmdeviceadapter/amx/adapter/DM_AmxCommon.c:478-489 | the deletion of an id reaches an object that holds it if and only if no object listed before holds it |
| SubscriptionModel.DeleteEndsOwnIff | src/dmdeviceadapter/amx/adapter/DM_AmxCommon.c:658-690 | under exactly that condition the deletion takes the object's first watcher with the id, and otherwise leaves all its watchers in place |
| SubscriptionModel.SharedIdEndsTheWrongOne | src/dmdeviceadapter/amx/adapter/DM_AmxCommon.c:478-489 | two objects that share an id: deleting the later one ends the earlier |
| SubscriptionList.Subscription.DeleteInfo | src/dmdeviceadapter/amx/adapter/DM_AmxCommon.c:501-519 | removes the first watcher with that id and no other |
| SubscriptionList.SubscriptionList.FindByID | src/dmdeviceadapter/amx/adapter/DM_AmxCommon.c:478-489 | the nested loops find the first object that has a watcher with that id |
| SubscriptionList.SubscriptionList.Find | src/dmdeviceadapter/amx/adapter/DM_AmxCommon.c:491-499 | the loop finds the entry of that object |
| SubscriptionList.SubscriptionList.DeleteFromList | src/dmdeviceadapter/amx/adapter/DM_AmxCommon.c:521-537 | removes that record, the others and their order unchanged |
| SubscriptionList.SubscriptionList.Release | src/dmdeviceadapter/amx/adapter/DM_AmxCommon.c:501-519 | takes the first watcher with the id off one record and leaves the others |
| SubscriptionList.SubscriptionList.Drop | src/dmdeviceadapter/amx/adapter/DM_AmxCommon.c:673-687 | ends the bus subscription of one record and removes that record |
| SubscriptionList.SubscriptionList.AddSubscription | src/dmdeviceadapter/amx/adapter/DM_AmxCommon.c:569-642 | refines an addition; a call that fails keeps every listed record |
| SubscriptionList.SubscriptionList.DeleteSubscription | src/dmdeviceadapter/amx/adapter/DM_AmxCommon.c:658-690 | refines a deletion, with its result |

## Left out

- libwebsockets, OpenSSL, libevent, c-ares and netmodel calls, process control and signal handling: plumbing over libraries that are not part of this model.
- Digest and basic authentication, certificates, XML building and parsing, type conversion tables.
- The `_prpl` variants of the adapter files: near copies behind a build switch.
- GetParameterValues, AddObject, DeleteObject, Upload, plain Download, XMPP and the session state machine: bus calls with little state of their own.
- Allocation failures, tracing, `free` and the ownership of C strings.
- TransferTheorems.DoneOnceWindowsOver: asks for windows that are ordered, disjoint and at most 4294967 s away; what holds for windows that are not is shown by one run only (TransferScenes.OverlapLeavesUnfinished).
- TransferPlugin.Plugin.FirmwareImageNotification: the saving loop takes the order of instances as a parameter, because the bus decides it.
- CookieJar.Jar.SkipBlanks: the second blank-skipping loop of the source is not written out, since it starts on the equals sign and never turns.
- ParameterNames.InfoList.GetParameters: the mode in which instances are shown by alias is not modelled. Sorting is modelled as insertion by character order.
- ParameterNames.InfoList.GetNames: as GetParameters, without the mode that shows instances by alias.
- ParameterNames.InfoList.PartialPath: how a path with wildcards resolves is a parameter.
- ParameterNamesListing.ListedOnce: assumes, as the data model guarantees, that the names in one description are distinct, not empty and hold no dot.
- ParameterValues.Device.SetParameterValues: fault codes are symbolic, and the answer of the bus to each set is a parameter; dots inside search expressions are not treated apart; the cache of parameter attributes that the apply loop also fills is not modelled.
- AliasPaths.AliasRoundTrip: canonical paths have no empty elements; for others `strtok` drops the empty elements, and only the bound on the buffer is stated.
- DnsScheduler.Scheduler.Schedule: the timer is armed in seconds; what the overflow of the milliseconds does is undefined in C (DnsModel.DelayFitsIff says when it occurs). The polling of sockets is not modelled.
- TimerRegistry.Registry.StartTimer: the underlying timer object and its remaining time are not modelled, only which timers exist, with what handler and flag, and the wait they were last given.
- ConnectionLimiter.RefusedIffHistoryExceedsCap: the limits stay fixed and the clock does not go back during a run.
- SubscriptionList.SubscriptionList.AddSubscription: the hash of path and filter is a parameter, and so is what the bus answers; the object part of a path is taken up to its last dot. The clean-up of the whole list at exit is not modelled.
