# ViGEm client library: session, target lifecycle and completion handling

This project is a Dafny model of the user-mode client library of the ViGEm virtual gamepad bus
(`src/ViGEmClient.cpp`). A client opens one handle to the bus device. It then plugs virtual Xbox 360
and DualShock 4 targets into the bus, unplugs them again, registers feedback callbacks, submits
input reports and awaits DS4 output reports.

The bus driver is not modelled. Each request the client sends gets its answer from the caller of the
model. That answer is a `Completion`: either `Completed`, or `Failed(lastError)` with the Win32
last-error code. The plug loop's oracle is the set of serials the driver accepts. Connecting gets one
outcome per enumerated bus interface, and awaiting gets one reply per request issued. Handles and
events are booleans. Callback and user-data pointers are addresses, with 0 as null.

The modules follow the parts of the source file:

- `Types`: the library's error codes, the Win32 codes it compares against, completions, target type and
  state, and the requests sent to the driver.
- `Bus`: the client object (`vigem_alloc`, `vigem_connect` with its enumeration loop, `vigem_disconnect`)
  and the three session checks that every target operation starts with.
- `Targets`: the target object, with its allocators, setters and getters, and the wait-ready capability probe.
- `Plug`: `vigem_target_add` and its slot-probing loop, `vigem_target_add_async` up to the hand-off to its
  worker, and `vigem_target_remove`.
- `Notify`: notification registration, unregistration, and one step of a notification worker.
- `Reports`: the update functions, the Xbox 360 user index, and the DS4 await-output retry loop.
- `Lifecycle`: any sequence of these operations on one target, each under the session of its moment, and what every such sequence preserves.

Objects the source changes in place are classes: `Client` (its handle) and `Target` (its fields). Each
`Target` method is proved against a function on a `TargetView` value: `AddSpec`, `RemoveSpec`,
`RegisterSpec` and `UnregisterSpec`. The properties are lemmas about those functions. The plug loop
really steps `t.serialNo` in place, and the connect loop really updates the client's handle.

Several behaviours of the code are not what a reader of the library's interface would expect. The
model follows the code:

- A failed version check in `vigem_connect` leaves the handle open (see Findings).
- After a failed wait-ready, the compensating `vigem_target_remove` inside `vigem_target_add` never
  sends an unplug. The target's state is still not Connected at that point, so the remove returns
  TARGET_NOT_PLUGGED_IN. The accepted slot stays plugged in the driver.
- One might expect a serial to be non-zero exactly when a target is Connected or Disconnected. The
  code does not keep this. A plug that finds no free slot leaves the serial at TargetsMax + 1 with the
  state unchanged. A plug whose wait-ready fails leaves the accepted serial on a target that is not
  Connected. What the code does keep is proved: a Connected target has a serial in [1, TargetsMax].
- `vigem_target_x360_get_user_index` reports success for every driver failure except the two it maps,
  and it then copies the index field of the reply buffer.
- The await functions compare serials only when the request failed with last error ERROR_SUCCESS
  (see Findings).

## Model

| member | source | states |
|---|---|---|
| `Bus.Client.constructor` | src/ViGEmClient.cpp:127-138 | a new client's handle is the invalid sentinel |
| `Bus.SessionCheck` | src/ViGEmClient.cpp:329-346 | the three first checks, in order: a null client gives BUS_INVALID_HANDLE, then a null target gives INVALID_TARGET, then a closed bus gives BUS_NOT_FOUND; all three pass exactly for an open client with a target |
| `Bus.CandidateError` | src/ViGEmClient.cpp:171-252 | the error recorded per bus interface; it is NONE exactly for the one whose version check passes |
| `Bus.Connect` | src/ViGEmClient.cpp:146-257 | null client gives BUS_INVALID_HANDLE; an open client gives BUS_ALREADY_CONNECTED with the handle untouched; otherwise the error and handle state are those of `ScanBus`, the enumeration loop as written, over the candidates |
| `Bus.Disconnect` | src/ViGEmClient.cpp:259-271 | afterwards a non-null client's handle is invalid, whether it was open or not; a null client is ignored |
| `Bus.ScanBusOutcome` | src/ViGEmClient.cpp:171-256 | connect succeeds exactly when some candidate accepts the version, and success leaves the handle open; with no candidates it returns BUS_NOT_FOUND; otherwise it returns the error of the last candidate examined |
| `Bus.MismatchLeavesBusOpen` | src/ViGEmClient.cpp:240-251 | as written, when the last candidate fails the version check, connect returns BUS_VERSION_MISMATCH with the handle still open |
| `Bus.MismatchCounterexample` | src/ViGEmClient.cpp:248-251 | a single interface that opens and fails the version check gives BUS_VERSION_MISMATCH and an open client |
| `Bus.ClosingScanOpenIffConnected` | src/ViGEmClient.cpp:240-251 | for `ScanBusClosing`, the loop with a rejected handle closed and reset, connect leaves the client open exactly when it returns NONE, and returns NONE exactly when some candidate accepts |
| `Targets.Target.AllocInit` | src/ViGEmClient.cpp:110-125 | a target with every field zero except state Initialized and the requested type |
| `Targets.X360Alloc` | src/ViGEmClient.cpp:286-297 | a fresh Initialized Xbox 360 target with serial 0, ids 0x045E/0x028E, no callback, no event and the legacy flag false |
| `Targets.Ds4Alloc` | src/ViGEmClient.cpp:299-310 | a fresh Initialized DS4 target with serial 0, ids 0x054C/0x05C4, no callback, no event and the legacy flag false |
| `Targets.FreshTargetDefaults` | src/ViGEmClient.cpp:286-310 | a freshly allocated target is not attached, has index 0, carries its type's default ids, has no callback and no cancel event, and reports waitable add as supported |
| `Targets.Target.SetVid` | src/ViGEmClient.cpp:740-743 | only the vendor id changes, to the given value |
| `Targets.Target.SetPid` | src/ViGEmClient.cpp:745-748 | only the product id changes, to the given value |
| `Targets.Target.GetVid` | src/ViGEmClient.cpp:750-753 | the vendor id currently stored, as set by the allocator or SetVid |
| `Targets.Target.GetPid` | src/ViGEmClient.cpp:755-758 | the product id currently stored, as set by the allocator or SetPid |
| `Targets.Target.GetIndex` | src/ViGEmClient.cpp:919-922 | the serial the plug loop last stored, 0 before any plug |
| `Targets.Target.GetType` | src/ViGEmClient.cpp:924-927 | the type given at allocation, which no operation changes (see `Lifecycle.RunKeepsSlotTypeAndFlag`) |
| `Targets.Target.IsAttached` | src/ViGEmClient.cpp:929-932 | true exactly when the state is Connected |
| `Targets.IsWaitableAddSupported` | src/ViGEmClient.cpp:273-284 | false for a null target; otherwise true unless a plug met a driver without wait-ready |
| `Plug.AddPrecheck` | src/ViGEmClient.cpp:329-358 | the add checks in order: the session checks, then New gives TARGET_UNINITIALIZED, then Connected gives ALREADY_CONNECTED; they pass exactly for an open session and an Initialized or Disconnected target |
| `Plug.RemovePrecheck` | src/ViGEmClient.cpp:494-509 | the same first four checks as add, then anything but Connected gives TARGET_NOT_PLUGGED_IN |
| `Plug.FirstAccepted` | src/ViGEmClient.cpp:363-397 | the slot loop stops at the lowest serial in [1, TargetsMax] that the driver accepts, having found every lower serial refused, or at TargetsMax + 1 when none is accepted |
| `Plug.ProbeRequests` | src/ViGEmClient.cpp:365-392 | one plugin request per probed serial, in ascending order from 1, each with the target's type and ids |
| `Plug.Add` | src/ViGEmClient.cpp:318-457 | the result, the target's new fields and the requests sent are exactly those of `AddSpec`, the add operation on a target's fields; a null target gives the session check's error and sends nothing |
| `Plug.AddAsync` | src/ViGEmClient.cpp:459-492 | the same checks as add, in the same order, with the same errors; NONE once they all pass |
| `Plug.Remove` | src/ViGEmClient.cpp:494-538 | the result, the target's new fields and the requests sent are exactly those of `RemoveSpec`, the remove operation on a target's fields |
| `Plug.PlugChecksHaveNoEffect` | src/ViGEmClient.cpp:329-358 | a plug refused by a check returns that check's error, leaves the target unchanged and sends no request; a plug whose checks pass always sends a request |
| `Plug.AddSucceedsAtFirstAcceptedSlot` | src/ViGEmClient.cpp:363-439 | add returns NONE exactly when some serial is accepted and wait-ready completes or fails with INVALID_PARAMETER; the target is then Connected on the lowest accepted serial, after plugin requests for serials 1 up to it; the legacy flag is set when wait-ready failed; nothing else changes |
| `Plug.NoFreeSlotLeavesSerialPastMax` | src/ViGEmClient.cpp:320-447 | with no serial accepted, add returns NO_FREE_SLOT after TargetsMax plugin requests; the state is unchanged and the serial is TargetsMax + 1 |
| `Plug.CompensatingRemoveNeverUnplugs` | src/ViGEmClient.cpp:440-446 | when wait-ready fails with anything but INVALID_PARAMETER, add returns TARGET_NOT_PLUGGED_IN, sends no unplug, and keeps the state while storing the accepted serial |
| `Plug.RemoveOutcome` | src/ViGEmClient.cpp:511-537 | an admitted remove sends one unplug for the target's serial; if the unplug completes, the target is Disconnected with its serial kept and the result is NONE; otherwise the result is REMOVAL_FAILED and the target is unchanged |
| `Plug.DoubleAddRejected` | src/ViGEmClient.cpp:354-358 | adding a Connected target returns ALREADY_CONNECTED without any request or change |
| `Plug.RemoveThenAddAgain` | src/ViGEmClient.cpp:363-538 | removing after a successful add detaches the target and keeps its serial; adding again succeeds on the lowest serial now accepted |
| `Notify.RegisterPrecheck` | src/ViGEmClient.cpp:547-560 | the register checks in order: the session checks; then serial 0 or a null callback gives INVALID_TARGET; then the stored callback gives CALLBACK_ALREADY_REGISTERED |
| `Notify.RegisterNotification` | src/ViGEmClient.cpp:540-573 | the result and the target's new fields are those of `RegisterSpec`: on success the callback and user data are stored and the cancel event exists non-signaled, whether it was created or reset |
| `Notify.UnregisterNotification` | src/ViGEmClient.cpp:720-738 | the new fields are `UnregisterSpec` of the old ones: callback, user data and cancel event are cleared; nothing else changes |
| `Notify.WorkerStep` | src/ViGEmClient.cpp:599-619 | after a completion, the worker calls the stored callback with the user data it captured, if one is stored; it exits on a completion with no stored callback, and on ACCESS_DENIED or OPERATION_ABORTED; it re-issues the request on any other failure |
| `Notify.RegisterTwiceRefused` | src/ViGEmClient.cpp:559-560 | registering the already-stored callback again returns CALLBACK_ALREADY_REGISTERED and changes nothing |
| `Notify.RegisterReplacesOtherCallback` | src/ViGEmClient.cpp:559-573 | a different non-null callback replaces the stored one and its user data, and resets the event |
| `Notify.UnregisterIdempotentAndReregistrable` | src/ViGEmClient.cpp:720-733 | unregistering twice equals unregistering once; the same callback can be registered again afterwards |
| `Notify.WorkerAfterUnregister` | src/ViGEmClient.cpp:599-619 | after unregistration a worker never calls back: a completion makes it exit, and failures other than ACCESS_DENIED/OPERATION_ABORTED make it spin |
| `Reports.SubmitCheck` | src/ViGEmClient.cpp:766-776 | the session checks, then serial 0 gives INVALID_TARGET |
| `Reports.UpdateError` | src/ViGEmClient.cpp:796-807 | INVALID_TARGET exactly for ACCESS_DENIED; NONE for every other outcome, including every other failure |
| `Reports.UpdateExError` | src/ViGEmClient.cpp:892-916 | INVALID_TARGET exactly for ACCESS_DENIED, NOT_SUPPORTED exactly for INVALID_PARAMETER, NONE otherwise |
| `Reports.X360Update` | src/ViGEmClient.cpp:760-808 | the first failing check's error, or the update mapping of the completion |
| `Reports.Ds4Update` | src/ViGEmClient.cpp:810-858 | the first failing check's error, or the update mapping of the completion |
| `Reports.Ds4UpdateEx` | src/ViGEmClient.cpp:860-917 | the first failing check's error, or the extended-update mapping of the completion |
| `Reports.X360GetUserIndex` | src/ViGEmClient.cpp:934-993 | the checks in order (a non-Xbox 360 target gives INVALID_TARGET, a null index pointer gives INVALID_PARAMETER); then ACCESS_DENIED gives INVALID_TARGET and INVALID_DEVICE_OBJECT_PARAMETER gives XUSB_USERINDEX_OUT_OF_RANGE; anything else is NONE with the reply's index written; the index is written only on NONE |
| `Reports.AwaitClassify` | src/ViGEmClient.cpp:1036-1064 | a reply is skipped exactly when it failed with ERROR_SUCCESS and a foreign serial; a completed reply is copied out as NONE; ACCESS_DENIED gives INVALID_TARGET; IO_INCOMPLETE and WAIT_TIMEOUT give TIMED_OUT with the request cancelled in the timed variant and WINAPI otherwise; only TIMED_OUT cancels |
| `Reports.AwaitPrecheck` | src/ViGEmClient.cpp:1001-1014 | the update checks, then a null buffer gives INVALID_PARAMETER |
| `Reports.AwaitOutput` | src/ViGEmClient.cpp:1016-1075 | a failed check returns its error and issues nothing; otherwise the outcome and request count of `AwaitLoop`, the retry loop as written, over the replies |
| `Reports.Ds4AwaitOutputReport` | src/ViGEmClient.cpp:995-1075 | as the retry loop without timeout; it never returns TIMED_OUT and never cancels |
| `Reports.Ds4AwaitOutputReportTimeout` | src/ViGEmClient.cpp:1077-1165 | as the retry loop with the timeout classification |
| `Reports.AwaitLoopOutcome` | src/ViGEmClient.cpp:1020-1065 | the loop issues one request per reply read; it stops at the first reply not skipped and returns that reply's classification; every earlier reply was skipped; if all are skipped it is still waiting |
| `Reports.AwaitCopiesForeignReport` | src/ViGEmClient.cpp:1058-1070 | as written, a reply that completes successfully with another target's serial is copied to the caller as NONE |
| `Reports.AwaitClassifyFiltered` | src/ViGEmClient.cpp:1046-1062 | with the serial check also applied to completed replies, a buffer is only copied from a completed reply with the caller's serial |
| `Reports.FilteredAwaitReturnsOwnReport` | src/ViGEmClient.cpp:1046-1062 | for `AwaitLoopFiltered`, the retry loop with the corrected check, any buffer returned is the report of a completed reply carrying the caller's own serial; a first reply that completes with the caller's serial is returned at once, after one request |
| `Lifecycle.StepKeepsSlotAndFlag` | src/ViGEmClient.cpp:363-439 | no single operation, under any session, clears the legacy flag, changes the type, or leaves a Connected target without a slot in [1, TargetsMax] |
| `Lifecycle.RunKeepsSlotTypeAndFlag` | src/ViGEmClient.cpp:432-439 | across any sequence of operations, each made under its own session (so a disconnect or reconnect may come between them): a Connected target has a serial in [1, TargetsMax], the type is unchanged, and a set legacy flag stays set |
| `Lifecycle.LegacyPlugDisablesWaitableAdd` | src/ViGEmClient.cpp:273-284 | a plug whose wait-ready fails with INVALID_PARAMETER succeeds as Connected, and from then on the capability probe reports false whatever follows |
| `Lifecycle.AllocatedTargetsKeepSlotInvariant` | src/ViGEmClient.cpp:286-310 | allocated targets keep their type, and a Connected one always has a serial in [1, TargetsMax], through any sequence of operations, each under its own session |

## Findings

| source | as written | input that shows it | evidently intended | confidence | as-written member | corrected member |
|---|---|---|---|---|---|---|
| src/ViGEmClient.cpp:248-251 | a failed version check records BUS_VERSION_MISMATCH but neither closes nor resets `hBusDevice` | one bus interface that opens and rejects the version: connect returns BUS_VERSION_MISMATCH and the client is open, so a second connect answers BUS_ALREADY_CONNECTED and target operations proceed against the rejected driver | close the handle and reset it to the invalid sentinel before the next candidate, so the client is open exactly when connect returns NONE | high, not executed | `Bus.MismatchLeavesBusOpen` | `Bus.ClosingScanOpenIffConnected` |
| src/ViGEmClient.cpp:1058-1070 | the serial of an awaited DS4 output report is compared only when the request failed with last error ERROR_SUCCESS; a completed request is copied without a check | a target with serial 1 whose first reply completes with serial 2: the call returns NONE with target 2's report | skip and re-issue on any reply whose serial is not the target's, so each target sees only its own reports | medium, not executed | `Reports.AwaitCopiesForeignReport` | `Reports.FilteredAwaitReturnsOwnReport` |

## Left out

- The driver and Win32 I/O are not modelled: device-interface enumeration, `CreateFile`, `DeviceIoControl`,
  `GetOverlappedResult(Ex)`, `CancelIoEx`, and event and handle creation. Their outcomes are parameters.
  Handles and events are booleans, so the handle leaked when a later candidate overwrites an open
  `hBusDevice` is not visible.
- Allocation failure is not modelled: `vigem_alloc` and the target allocators returning null when `malloc` fails.
- `vigem_free` and `vigem_target_free` are not modelled. They only release memory, and a garbage-collected
  model has nothing to release. `vigem_free` does not close an open handle.
- Threads are not modelled: the `add_async` worker, which runs `vigem_target_add` and then calls the result
  callback, and the notification worker loops. Only the per-completion decision of a worker is modelled,
  and the unsynchronised cross-thread reads of the target's fields are left out with it.
- The DS4 registration entry point (src/ViGEmClient.cpp:629-718) runs the same bookkeeping as the Xbox 360 one.
  It is covered by `Notify.RegisterNotification`. Its worker differs only in the request it issues and the
  feedback fields it decodes.
- Report contents are not modelled: the Xbox 360, DS4 and extended DS4 input reports, and the decoded motor,
  LED and lightbar feedback. An output report is an opaque byte sequence, and only whether it is copied is tracked.
- The real duration of the millisecond timeout is not modelled; `Ds4AwaitOutputReportTimeout` ignores its value.
- The diagnostic printer (`_DBGPRINT`) and the hex dump helper are not modelled.
- The structure-size tags of the target and of the requests are not modelled.
- `Internal.h` (with `DEVICE_IO_CONTROL_BEGIN/END`), `ViGEm/Client.h` (the numeric error values) and
  `ViGEm/km/BusShared.h` are not part of this model. `TargetsMax` is taken as 0xFFFF, and the proofs
  only use that it is at least 1.
