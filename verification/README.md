# Edge protocol-translator examples: a Dafny model

The repository holds example programs that connect devices to Edge: a BLE translator (`blept-example`), a thread-safety
stress tester of the C API (`c-api-stress-tester`), a JSON-RPC device server (`kaas-example`) and small LwM2M clients.
This project models their logic and proves what it keeps. `dafny verify dfyconfig.toml` checks all of it.

## How it is organised

Code that changes things step by step is a class or a method with a loop. Each such method is proved equal to a
function on values, and the properties are lemmas about those functions and about runs of them.

- **Device lifecycle.** `Lifecycle` is the event loop of the BLE translator as a state machine: a list of device
  contexts, retry timers that carry a context, requests to BlueZ and Edge that complete once in a later event, and the
  first-in-first-out queue of callbacks of the main loop. A context has a number that is never reused, so a timer that
  outlived its context would be visible. `LifecycleSafety`, `LifecycleShutdown`, `LifecycleDraining` and
  `LifecycleReads` prove properties of all its runs; `LifecycleHistory` and `LifecycleRequests` tell contexts and requests
  from the events alone. `Translator` holds the handlers over mutable contexts and proves
  that each takes exactly the machine's step. `BackOff` and `DeviceIds` are the retry delay and the id format.
- **GATT to LwM2M.** `Gatt` groups characteristics as discovery reports them. `Listing` prints the table into a buffer
  sized beforehand; `Json` is the reader and writer it is proved against, `Decimals` the numbers, and `ListingPaths`
  follows the paths back. `Translations` builds the contexts that tie LwM2M paths to characteristics, `ConstructedObjects`
  names what each UUID becomes, and `TranslationPaths` says when the paths are their own. `CharacteristicValues` follows
  values through polls and writes, `ServiceValues` the resources of the service object, `StandardValues` tells both from
  UUIDs and bytes, `DeviceReplies` ties them to what the device sent, `FieldWrites` to what it holds. `TwoBit` is the field codec, `RawValues` the number of a sensor, and `Bridge` holds
  the code in place.
- **Command line.** `CommandLine` is the parser as a function and its reading of every spelling, `BleOptions` the
  option table and its arguments, `BleOptionNames` the names and letters, `CommandLineErrors` how a line fails,
  `CommandLineParser` the cursor and the loops.
- **JSON-RPC server.** `JsonRpc` matches responses to requests; `WriteEvents` applies write events to device rows.
- **Stress tester.** `StressLocks` is the mutex discipline for any number of threads, `StressHangs` the mutexes without
  it, `DevicePool` the device lists, `StressTester` the routines.
- **IPSO helpers.** `MinMax` and `InstanceIds`.
- `Search` and `Optional` are shared by all of them.

## Where the code and the obvious claim differ

- Shutdown does not always end. The deletion after a refused Edge context (`blept-example/pt_ble.c:799`) skips the
  last-device check, and a shutdown request that finds the run flag cleared queues a quit at once.
  `HistoryExact` says exactly when each happens, and `QuitExactlyWhenDrained` is stated with both.
- The callback of a characteristic read uses its lookup unchecked (`blept-example/pt_ble.c:2228`). `ReadFindsDevice`
  says exactly when it gets the context of the read, `ReadIndexInRange` what becomes of its indices, `ReadCanLoseDevice`
  and `ReadCanFindAnother` how it goes wrong.
- A translated write encodes into the local value, which discovery zeroes (`blept-example/devices.c:413`), and stores the
  untranslated value there (`blept-example/devices.c:658`). So a first write can clear other fields (`FirstWriteClears`),
  and a later one can undo the one before (`FirstWriteLost`). `DeviceAfter` gives the fields after any run from any
  start, `LastValueSurvivesExactly` says when a field keeps its last or first value.
- A poll reports one byte more than a short reply (`blept-example/pt_ble.c:2137`); what stands there is a parameter.
  `SensorSpareExact` says exactly when the number decoded is the one sent.
- A four-byte integer is turned around as a whole buffer, so that a short reply publishes old bytes
  (`blept-example/pt_ble.c:2258`): `ShortIntegerReplyLost`.
- A write may store a length beyond the buffer (`blept-example/devices.c:606`): `WrittenLengthExact`.
- A sensor's context is configured even when none of its six resources could be created: `LookupsExact`.
- Two early returns of the stress tester's write handler keep the list mutex: `WriteHandlerExact`, `EarlyReturnHolds`;
  `NeverReleased` says that nobody gets it any more.
- The stress tester can choose an entry whose request is outstanding, and its callbacks use their lookup unchecked:
  `CallbackFindsDevice`, `SecondAnswerFindsNothing`, `SecondAnswerFindsAnother`.
- The scaled random choice divides by a wrapped divisor for a one-element list: `ChoiceInRange` covers it.
- The skipping form of minimum and maximum misses a repeated reading after a reset, and a first reading of zero:
  `AgreeExactly`, `CreatedAgreesExactly`.

## Model

| member | source | states |
|---|---|---|
| `LifecycleSafety.StepSafe` | blept-example/pt_ble.c:692-824 | every step keeps: ids distinct and derived from addresses, contexts distinct allocations, live retry timers and nonzero timer fields one to one, latch equal to "list built", stored retry counter equal to the true one capped |
| `LifecycleSafety.TimersNeverDangle` | blept-example/pt_ble.c:692-744 | on every run each live retry timer belongs to exactly one listed device whose field names it, and no timer ever fires on a freed context |
| `LifecycleSafety.OnTimerSafe` | blept-example/pt_ble.c:692-700 | a firing timer finds its context in the list, and the step keeps the invariant |
| `LifecycleSafety.LookupByAddressExact` | blept-example/pt_ble.c:356-385 | on every run ids stay distinct and a lookup by address returns the one device with that address, or nothing |
| `LifecycleSafety.DiscoveryAtMostOnce` | blept-example/pt_ble.c:521-536 | no run builds the introspection list of a context twice, so the assertion that it is absent holds |
| `LifecycleSafety.GiveUpExact` | blept-example/pt_ble.c:702-744 | a failed attempt gives up exactly at five attempts and 300 s, and leaves a listed device waiting for its next timer exactly before the fifth attempt or before a day has passed |
| `LifecycleHistory.ContextIsHistory` | blept-example/pt_ble.c:746-824 | on every run a listed context holds what the events of its address say: clock of the last success or discovery, failures since as a count capped at 10000, connected, registered, resolved |
| `LifecycleHistory.StepFollows` | blept-example/pt_ble.c:484-824 | every step keeps context and history in agreement |
| `LifecycleHistory.GiveUpsJustified` | blept-example/pt_ble.c:702-744 | on every run a failure makes the translator ask for the unregistration exactly after five failures and 300 s since the last success, with deletion exactly after 86400 s; otherwise the next retry is armed, after 4, 12, 36, 108 and then 324 s |
| `LifecycleHistory.FiveFailuresBetween` | blept-example/pt_ble.c:781-786 | after a success no failure before the fifth gives the device up |
| `LifecycleHistory.TimerAttended` | blept-example/pt_ble.c:692-700 | a timer that fires issues the connect of its own device, and touches no other |
| `LifecycleHistory.NobodyForgotten` | blept-example/pt_ble.c:692-824 | before shutdown every listed device has a connect outstanding, a live retry timer, a success as its last outcome, or its deletion under way |
| `LifecycleRequests.ConnectRequested` | blept-example/pt_ble.c:833-846 | the connects under way to an address grow exactly by its discovery while running and by its own timer, and shrink by an answer |
| `LifecycleRequests.RegistrationRequested` | blept-example/devices.c:710-715 | a registration is asked for exactly when a device that is not registered gets its services resolved with Edge up, or the translator itself is registered |
| `LifecycleRequests.RemovalUnregisters` | blept-example/pt_ble.c:387-426 | a removal asks Edge to unregister and delete that device, or deletes it when refused, and leaves the others |
| `LifecycleRequests.MessagesPosted` | blept-example/pt_edge.c:242-266 | the queue of the main loop is first in, first out: each callback adds exactly its own message, and handlers add nothing but quits |
| `LifecycleRequests.SwitchesExact` | blept-example/pt_edge.c:430-520 | what turns the run flag, the Edge connection, the shutdown and the quit of the loop, and nothing else does |
| `LifecycleShutdown.StepOrderly` | blept-example/pt_edge.c:190-227 | every step keeps: before shutdown no quit is queued; during shutdown every listed device has an outstanding removal, unregistration or message, or its RemoveDevice could not be issued |
| `LifecycleShutdown.QuitExactlyWhenDrained` | blept-example/pt_edge.c:190-201 | on every run a quit is queued or done during shutdown exactly when the list is empty and was not emptied past the last-device check, or a quit was queued early |
| `LifecycleShutdown.ShutdownDrains` | blept-example/pt_edge.c:270-296 | a shutdown with no request left has an empty list, but for devices whose RemoveDevice could not be issued, and has quit exactly under the stated condition |
| `LifecycleShutdown.HistoryExact` | blept-example/pt_ble.c:1832-1857 | when exactly a quit is queued early (shutdown requested again), when exactly the check is bypassed (last device connects and Edge refuses its context), and which devices are skipped (those listed and unreachable when the shutdown begins) |
| `LifecycleShutdown.ShutdownStopsTimers` | blept-example/pt_edge.c:270-296 | the shutdown leaves no retry timer live and every context listed |
| `LifecycleDraining.CompletionLowers` | blept-example/pt_ble.c:387-426 | during shutdown every completed request and every dispatched callback strictly lowers the weight of outstanding work and never lengthens the list |
| `LifecycleDraining.OthersAddLittle` | blept-example/pt_edge.c:270-296 | every other event of a shutdown raises that weight by at most 2n+3 and never lengthens the list |
| `LifecycleDraining.DrainingTerminates` | blept-example/pt_edge.c:190-227 | a whole run of a shutdown holds no more completions than the outstanding work weighs plus a bounded number per outside event |
| `LifecycleDraining.ShutdownCanHang` | blept-example/pt_ble.c:787-805 | a run on which the last device leaves through the unchecked deletion: list empty, nothing outstanding, and the loop never asked to quit |
| `LifecycleDraining.QuitCanPrecedeDraining` | blept-example/pt_ble.c:1832-1857 | a run that quits while a device is still listed |
| `LifecycleReads.RemovedExactly` | blept-example/devices.c:258-267 | a listed device leaves the list exactly in the steps named: refused unregistration after a removal, a day of failed retries with a refused unregistration, a refused Edge context, or a queued deletion |
| `LifecycleReads.ContextRemovedExactly` | blept-example/devices.c:258-267 | the same for one context and its number, across discoveries of the same address |
| `LifecycleReads.ReadFindsDevice` | blept-example/pt_ble.c:2215-2231 | the unchecked lookup of a read callback returns the very context the read was issued for exactly when no step of the run since then removed a context of its id |
| `LifecycleReads.ReadIndexInRange` | blept-example/pt_ble.c:2228-2231 | without a removal of its id the read's service and characteristic indices are within the table of the context the callback gets; after one the callback gets no context or one that was discovered later |
| `LifecycleReads.ReadLosesDevice` | blept-example/pt_ble.c:2215-2229 | right after any such step the lookup returns nothing, and the callback uses it unchecked |
| `LifecycleReads.ReadCanLoseDevice` | blept-example/pt_ble.c:2226-2230 | a concrete run from the start to such a state |
| `LifecycleReads.ReadCanFindAnother` | blept-example/pt_ble.c:2228-2231 | a concrete run on which the lookup returns another context of the same id, found again, whose table is empty, so that the read's indices are out of range |
| `LifecycleReads.StaleMessagesIgnored` | blept-example/pt_edge.c:203-240 | completions and queued callbacks for a device no longer listed change nothing but their own queue |
| `Search.First` | blept-example/devices.c:191-205 | the position of the first element with a property, or the length of the list; every lookup of the sources is one of these |
| `DeviceIds.DeviceIdInjective` | blept-example/devices.c:52-55 | for 17-character addresses the truncated id is equal exactly when the address is, for every postfix |
| `DeviceIds.DeviceIdText` | blept-example/devices.c:52-55 | the text of an id: BLE, the address, and the postfix as far as 32 characters reach |
| `BackOff.BackOffTimeInMs` | blept-example/pt_ble.c:679-690 | the loop computes 4000 times 3 to the power min(k,5)-1 |
| `BackOff.BackOffBounds` | blept-example/pt_ble.c:679-690 | the wait is monotone, at most 324000 ms, and above 300 s exactly from the fifth retry on |
| `Translator.BleDevice.constructor` | blept-example/pt_ble.c:629-676 | a new context: no timer, no retries, not registered, not resolved |
| `Translator.Loop.constructor` | blept-example/devices.c:310-320 | the translator at start, in the initial state of the machine |
| `Translator.Loop.FindById` | blept-example/devices.c:191-205 | the search loop returns the first device with the id |
| `Translator.Loop.FindByPath` | blept-example/pt_ble.c:1645-1648 | the search loop returns the first device with the D-Bus path |
| `Translator.Loop.StopRetryTimer` | blept-example/devices.c:235-241 | the live source is removed and the field cleared, nothing else |
| `Translator.Loop.DelDevice` | blept-example/devices.c:258-267 | unlinks exactly that context and stops its timer |
| `Translator.Loop.EdgeDelDevice` | blept-example/pt_edge.c:190-201 | the same, and queues a quit when shutdown has emptied the list |
| `Translator.Loop.StartReconnectionTimerOrUnregister` | blept-example/pt_ble.c:702-744 | the handler takes exactly the reconnection step |
| `Translator.Loop.ResolveServices` | blept-example/pt_ble.c:509-543 | discovery runs behind the latch, finds no introspection list, and registration is requested |
| `Translator.Loop.PtReady` | blept-example/pt_ble.c:1783-1814 | the loop over the list takes exactly the ready step |
| `Translator.Loop.UnregisterDevices` | blept-example/pt_edge.c:270-296 | the loop stops every timer and issues every RemoveDevice it can, or queues the quit for an empty list |
| `Translator.Loop.GracefulShutdown` | blept-example/pt_ble.c:1832-1857 | exactly the shutdown step, with the early quit when the run flag was already cleared |
| `Translator.Loop.OnConnectDone` | blept-example/pt_ble.c:746-824 | exactly the connect-completion step |
| `Translator.Loop.OnDisconnected` | blept-example/pt_ble.c:484-506 | exactly the disconnect step |
| `Translator.Loop.RetryConnect` | blept-example/pt_ble.c:692-700 | the pointer the timer carries is a listed context; its field is cleared and Connect issued |
| `Translator.Loop.OnRemoveDone` | blept-example/pt_ble.c:387-426 | exactly the completion step of RemoveDevice |
| `Translator.Loop.OnObjectRemoved` | blept-example/pt_ble.c:1628-1657 | exactly the step for a removed device object |
| `Translator.Loop.OnUnregistered` | blept-example/pt_edge.c:203-240 | the queued callback deletes the context or clears its flag, and ignores unknown ids |
| `Translator.Loop.OnRegistered` | blept-example/pt_edge.c:337-352 | the queued callback sets the flag of a listed device |
| `Translator.Loop.Handle` | blept-example/pt_ble.c:692-824 | one iteration of the event loop over mutable contexts takes exactly one step of the state machine and keeps every invariant |
| `Translator.Loop.RunEvents` | blept-example/pt_ble.c:1832-1857 | a whole run of the loop is a run of the state machine |
| `Gatt.FirstSeenFacts` | blept-example/devices.c:364-386 | service UUIDs of the grouping are distinct and are exactly those that occur in the calls |
| `Gatt.BuildGroups` | blept-example/devices.c:364-455 | finding or appending call by call yields the first-appearance grouping of any call sequence: each service with the ordered subsequence of its own calls |
| `Gatt.CountConserved` | blept-example/devices.c:388-428 | every call adds exactly one characteristic |
| `Gatt.SearchIsIndexing` | blept-example/devices.c:667-679 | in a built table the search for a resource id is direct indexing, and ids equal positions exactly up to 65536 characteristics |
| `StandardValues.CallPlaced` | blept-example/devices.c:388-455 | every call of a discovery finds its place in the table: its service, the position after the earlier calls for it, what it says, and kind and size by its UUID |
| `Gatt.Attributes.GetService` | blept-example/devices.c:364-386 | the loop returns the first service with the UUID or appends one |
| `Gatt.Attributes.AddGattCharacteristic` | blept-example/devices.c:430-455 | the update in place equals one step of the specification |
| `Gatt.Attributes.Discover` | blept-example/devices.c:430-455 | a discovery of any length leaves the grouping of its calls |
| `Gatt.FindCharacteristic` | blept-example/devices.c:670-679 | the search loop returns the first characteristic with the resource id |
| `Json.RoundTrip` | blept-example/compat.h:9-16 | every value of objects, arrays and plain strings is read back from its compact text by a recursive-descent parser (sections 4, 5 and 7 of RFC 8259) |
| `Listing.DocumentRoundTrip` | blept-example/devices.c:732-755 | the printed document is such a text, and reading it yields exactly the services, characteristics and paths |
| `Listing.PathsInjective` | blept-example/compat.h:9-11 | different service indices or resource ids get different paths |
| `ListingPaths.CharPathNumbers` | blept-example/compat.h:9-11 | split at slashes and read as numbers, the path of a characteristic is 18135, its service's index and its resource id, in this order |
| `ListingPaths.DocumentLists` | blept-example/devices.c:732-755 | the parsed document lists the whole table in order: UUIDs, and paths that read as the numbers of what they name |
| `ListingPaths.ListedPathsReach` | blept-example/devices.c:667-679 | the path listed for a characteristic of a discovered table is the address at which a write reaches that very characteristic, up to the 16 bits of the id |
| `Listing.NeverTruncates` | blept-example/devices.c:719-727 | the precomputed size holds the document for up to 1000 services with any 16-bit ids, and for up to 10000 services without five-digit ids |
| `Listing.SizeInNumbers` | blept-example/compat.h:14-16 | the buffer has 17 bytes, 90 for each service and 74 for each characteristic |
| `Listing.CutAppend` | blept-example/devices.c:732-755 | appending to a truncated text and truncating again is truncating the longer text |
| `Listing.TextBuffer.Length` | blept-example/devices.c:736 | strlen |
| `Listing.TextBuffer.Append` | blept-example/devices.c:735-752 | appends what fits, keeps the terminator, and never writes outside the buffer |
| `Listing.JsonListDeviceServices` | blept-example/devices.c:717-757 | the printer leaves the document cut to the buffer, the whole document within the bounds above, and text that parses to the table when the UUIDs are plain |
| `TwoBit.EncodeExact` | blept-example/pt_ble_supported_translations.c:534-589 | encoding refuses exactly when the byte lies outside the buffer, and keeps every byte below it, for every offset |
| `TwoBit.WriteThenRead` | blept-example/pt_ble_supported_translations.c:500-532 | a write to field a reads back as 1 or 0 in a and leaves the other fields of the byte alone |
| `TwoBit.ReadBackExact` | blept-example/pt_ble_supported_translations.c:513-519 | decoding returns what was encoded exactly for offsets 0 to 3 and for zero |
| `TwoBit.IndependentRegisters` | blept-example/pt_ble_supported_translations.c:534-589 | after any sequence of writes to fields 0 to 3 each field holds its last value, or its original one |
| `TwoBit.EncodeInto` | blept-example/pt_ble_supported_translations.c:534-589 | the buffer code computes exactly the encoding |
| `Translations.ServicesSound` | blept-example/pt_ble_translations.c:153-220 | construction over any table gives contexts with in-range indices of supported characteristics and pairwise distinct paths, whatever instances existed before, given that sensor value resources can be created |
| `Translations.ServicesSupported` | blept-example/pt_ble_translations.c:153-220 | construction over any table, with any resources refused, gives contexts with in-range indices of supported characteristics |
| `ConstructedObjects.ConstructsSensor` | blept-example/pt_ble_supported_translations.c:46-181 | UUIDs 2A6E, 2A6F and 2A6D in any letter case become the value of a new instance of objects 3303, 3304 and 3315, with their units, descriptions and default bounds, whatever is refused; nothing else changes |
| `ConstructedObjects.ConstructsDigital` | blept-example/pt_ble_supported_translations.c:183-316 | UUID 2A56 becomes two instances of 3311/5850 when writable, else of 3347/5500 when readable, else nothing, up to the first refusal |
| `ConstructedObjects.ConstructsNothingElse` | blept-example/pt_ble_translations.c:48-82 | no other pair of UUIDs constructs anything |
| `Translations.LookupExact` | blept-example/pt_ble_translations.c:84-98 | looking up a configured path returns that very context, and any other path nothing |
| `Translations.SecondSensorExact` | blept-example/pt_ble_supported_translations.c:118-148 | the effect of refusals: two sensors of one object in a row get different paths exactly when at least one of the first one's six resources was created |
| `Translations.AddSensorEffect` | examples-common-2/ipso_objects.c:228-278 | the six resources of a sensor, each accepted or refused by itself, bring its instance into use exactly when one of them is accepted, and touch no other instance |
| `Translations.RefusedValueAlone` | blept-example/pt_ble_supported_translations.c:140-144 | two temperature sensors whose value resources alone are refused still get different paths |
| `TranslationPaths.LookupsExact` | blept-example/devices.c:551-585 | over any table, with any resources refused, the lookup of every context returns that very context exactly when no sensor all six of whose resources are refused is followed by another sensor of the same object |
| `TranslationPaths.CharStep` | blept-example/pt_ble_translations.c:200-220 | one constructed characteristic keeps paths distinct exactly when no sensor of its object was refused entirely before it |
| `CharacteristicValues.TranslationsFollow` | blept-example/pt_ble_translations.c:222-261 | after any run of polls and writes the contexts are the configured ones, and each resource that exists under a path of one context is what its decoder last made of the bytes reported for its own characteristic, or its first value, whatever resources of other contexts were refused |
| `CharacteristicValues.SoundIsAlone` | blept-example/pt_ble_translations.c:153-220 | after a construction in which sensor value resources were created that covers every context |
| `CharacteristicValues.LatestIsDecoded` | blept-example/pt_ble_translations.c:245-259 | with a decoder that never fails that is the decoder applied to the bytes reported last |
| `StandardValues.DecodedByUuid` | blept-example/pt_ble_supported_translations.c:426-532 | by UUID: the float format gets the object and the little-endian number of the first four bytes; a digital value is two bits of the first byte |
| `StandardValues.ResourceByUuid` | blept-example/pt_ble_translations.c:222-261 | after any run that is what the resource of a context holds, of the last bytes reported |
| `ServiceValues.ServiceResourcesAt` | blept-example/devices.c:457-524 | every characteristic gets exactly the service resource the library accepts for it, with the bytes of its own buffer |
| `ServiceValues.BuiltOwnIds` | blept-example/devices.c:388-428 | in a discovered service of up to 65536 characteristics each has an id of its own |
| `ServiceValues.ServiceValuesFollow` | blept-example/pt_ble.c:2215-2275 | after any run the buffer of a characteristic and its resource in the service object are what the events of this characteristic alone make of them |
| `ServiceValues.PublishedExactly` | blept-example/devices.c:612-626 | the resource holds the bytes last written, or each byte last reported, which for an integer of two or four bytes comes from the other end of the buffer |
| `ServiceValues.ShortIntegerReplyLost` | blept-example/pt_ble.c:2240-2268 | a reply of one byte or none to a four-byte integer publishes nothing of it but the end of the old buffer |
| `RawValues.Accumulate` | blept-example/pt_ble_supported_translations.c:426-430 | the loop computes the little-endian number of the first four bytes, and its 32 bits never wrap |
| `RawValues.ExtraByteExact` | blept-example/pt_ble_supported_translations.c:426-430 | one more byte leaves the number exactly when four came before it or it is zero |
| `DeviceReplies.DigitalIgnoresSpare` | blept-example/pt_ble_supported_translations.c:500-532 | the two-bit decoder reads the same from a reply and from its report, extra byte or not |
| `DeviceReplies.SensorSpareExact` | blept-example/pt_ble.c:2132-2140 | the number of a sensor is the one the device sent exactly when the reply has four bytes or the extra byte is zero |
| `DeviceReplies.BuiltIsDiscovered` | blept-example/devices.c:73-106 | every discovered table has the kinds and buffer sizes of its UUIDs |
| `DeviceReplies.ResourceHoldsWhatWasSent` | blept-example/pt_ble.c:2215-2275 | after any run in which the replies of a context are nonempty, and for sensors have four bytes or a zero after them, its resource, if it exists and the path is its own, is what the decoder makes of the last bytes the device sent or that were written |
| `DeviceReplies.LatestSentIsDecoded` | blept-example/pt_ble_translations.c:245-259 | with a decoder that never fails that is the decoder applied to the last bytes sent |
| `CharacteristicValues.HandleFollows` | blept-example/devices.c:628-695 | one poll or write updates exactly the contexts of its characteristic, each that has a resource and a path of its own, whatever the others |
| `FieldWrites.WritesWithoutPoll` | blept-example/devices.c:640-663 | of two translated writes with no poll between them the device keeps the first field as the untranslated byte shows it, so the first survives exactly when that byte shows it in its own field; for booleans, for field 0 or the value 0 |
| `FieldWrites.WritesWithPoll` | blept-example/devices.c:640-663 | with a poll between them the two writes compose, and the other fields are those of the local byte before |
| `FieldWrites.FirstWriteLost` | blept-example/devices.c:656-659 | on a constructed device with two outputs: output 1 is switched on, output 0 off, and what the second write sends turns output 1 off |
| `FieldWrites.DeviceAfter` | blept-example/devices.c:612-700 | after any run of field writes, writes to the characteristic itself and polls, refused writes included, from any local byte and any byte on the device, each field on the device is its last value, what the local byte showed there when another field was written over it out of step, or its value at the start |
| `FieldWrites.PolledWritesCompose` | blept-example/devices.c:640-663 | when every field write has a poll or a write to the characteristic itself since the write before it or the start, the fields are independent registers, for runs of any length |
| `FieldWrites.InStepWritesCompose` | blept-example/devices.c:640-663 | from a local byte in step with the device the first field write needs none |
| `FieldWrites.LastValueSurvivesExactly` | blept-example/devices.c:656-659 | over any run from any start the value last written to a field, at a given position, or its first value when nothing writes it, survives exactly when no later field write goes over a byte out of step with the device, or the byte the last such write goes over shows that value in the field |
| `FieldWrites.FirstWriteKeepsExactly` | blept-example/devices.c:640-655 | one write keeps another field of the device exactly when the local byte agrees with the device there |
| `FieldWrites.FirstWriteClears` | blept-example/devices.c:411-413 | on a constructed device whose output 1 is on, switching output 0 on before any poll turns output 1 off |
| `FieldWrites.LampReady` | blept-example/devices.c:551-585 | the constructed device meets what the statements about runs ask for, and with a device that holds zero it is in step |
| `FieldWrites.LampContexts` | blept-example/pt_ble_supported_translations.c:183-233 | construction of one writable digital characteristic on a new device configures two lights at offsets 0 and 1 |
| `CharacteristicValues.PolledBuffer` | blept-example/pt_ble.c:2132-2140 | a poll stores the reply and reports min(n+1, max) bytes |
| `CharacteristicValues.WrittenLengthExact` | blept-example/devices.c:587-610 | the stored length stays within the buffer exactly when the written value does |
| `Bridge.BleBridge.constructor` | blept-example/devices.c:388-428 | zeroed buffers of the declared sizes and no contexts |
| `Bridge.BleBridge.ConstructSensorObject` | blept-example/pt_ble_supported_translations.c:118-148 | six resources are added, and the context is configured whichever of them were created |
| `Bridge.BleBridge.CreateSensorObject` | examples-common-2/ipso_objects.c:228-278 | value, units and type are added in turn, no answer looked at |
| `Bridge.BleBridge.AddMinMaxFields` | examples-common-2/ipso_objects.c:34-110 | minimum and maximum at their float defaults and the reset are added in turn, no answer looked at |
| `Bridge.BleBridge.AddResourcesFromGatt` | blept-example/devices.c:457-524 | the nested loops add the service resources, skipping refused ones |
| `Bridge.BleBridge.ConstructDigital` | blept-example/pt_ble_supported_translations.c:183-285 | two instances with offsets 0 and 1, ending at the first failure |
| `Bridge.BleBridge.ConstructCharacteristic` | blept-example/pt_ble_supported_translations.c:290-316 | writable digital characteristics become lights, readable ones buttons, others nothing |
| `Bridge.BleBridge.AddKnownTranslations` | blept-example/devices.c:551-585 | the nested loops compute the construction and keep the invariant, whatever resources are refused |
| `Bridge.BleBridge.DecodeValue` | blept-example/pt_ble_supported_translations.c:401-532 | the two-bit decoder, or the float format of the accumulated number |
| `Bridge.BleBridge.FindTranslationContext` | blept-example/pt_ble_translations.c:84-98 | the search loop returns the first context with the path |
| `Bridge.BleBridge.DecodeAndWriteTranslation` | blept-example/pt_ble_translations.c:222-261 | the fan-out loop sets exactly the resources of the characteristic's contexts |
| `Bridge.BleBridge.SetLocalCharacteristicValue` | blept-example/devices.c:587-610 | pads or cuts the value into the buffer, stores the full length, and sets the service resource |
| `Bridge.BleBridge.ReadCharacteristicCallback` | blept-example/pt_ble.c:2215-2271 | exactly the poll of the specification |
| `Bridge.BleBridge.ParseResult` | blept-example/pt_ble.c:2132-2140 | the loop reports one byte more than a short reply |
| `Bridge.BleBridge.WriteCharacteristic` | blept-example/devices.c:628-695 | exactly the service or translated write, and success exactly when it reached a characteristic and the device took it |
| `Bridge.BleBridge.RunEvents` | blept-example/devices.c:628-695 | after any run every translated resource that exists under a path of one context holds the last decoded value of its characteristic, and that of the bytes the device sent when its replies are read as sent |
| `CommandLine.AbbreviationExact` | blept-example/blept_example_clip.h:152-192 | an abbreviated name with a value selects an option exactly when it is the first of the table with that prefix |
| `CommandLine.PieceRead` | blept-example/blept_example_clip.h:152-230 | each way of writing an assignment is read as that assignment, from any state of the table |
| `CommandLine.ParseRender` | blept-example/blept_example_clip.h:259-275 | parsing any rendering of a list of assignments succeeds and makes exactly these assignments in order |
| `BleOptions.TableWellFormed` | blept-example/blept_example_clip.h:340-370 | the option names are long, no prefix of one another, and the short names distinct |
| `BleOptions.MeaningAllAt` | blept-example/blept_example_clip.h:193-230 | every option holds its last assignment, or what it held before |
| `BleOptions.DocoptReadsSpelling` | blept-example/blept_example_clip.h:277-370 | a command line that spells assignments in any mixture of forms yields the last value of each option and the defaults elsewhere, and stops for help exactly when help is asked |
| `BleOptionNames.NamesSetFields` | blept-example/blept_example_clip.h:48-80 | each name and each letter sets its own field to any text, and the others keep their default texts |
| `BleOptionNames.NamesSetFlags` | blept-example/blept_example_clip.h:48-80 | the same for the three options without a text; help stops the program when asked to |
| `CommandLineErrors.FaultStops` | blept-example/blept_example_clip.h:152-232 | after any well-spelled words, an unknown name or letter, a missing text or one too many ends the parse with exactly its message |
| `CommandLineErrors.DashesEnd` | blept-example/blept_example_clip.h:258-275 | two dashes end the options, whatever follows |
| `CommandLineErrors.DocoptRejects` | blept-example/blept_example_clip.h:340-370 | such a fault ends the program with failure and its message |
| `CommandLineParser.Tokens.Move` | blept-example/blept_example_clip.h:126-134 | the cursor drops exactly one word and stays valid at the end |
| `CommandLineParser.ReadLong` | blept-example/blept_example_clip.h:152-191 | exactly the long-option step, including its errors |
| `CommandLineParser.ReadShorts` | blept-example/blept_example_clip.h:193-230 | exactly the cluster step, including its errors, which name the short option |
| `CommandLineParser.ReadArgs` | blept-example/blept_example_clip.h:259-275 | ends on every argument list, with the table or the error of the specification |
| `CommandLineParser.ElemsToArgs` | blept-example/blept_example_clip.h:277-333 | the collecting loop over the table |
| `CommandLineParser.Docopt` | blept-example/blept_example_clip.h:340-370 | the whole start: arguments, help exit or failure exit |
| `JsonRpc.RunNumbered` | kaas-example/dummy-device-app/src/main.rs:459-485 | ids are issued in increasing order without gaps, and every pending entry is its own requester's |
| `JsonRpc.RunKept` | kaas-example/dummy-device-app/src/main.rs:228-297 | on every run below 2^64 requests each requester gets exactly what it would get alone, and is pending exactly while unanswered |
| `JsonRpc.PendingExact` | kaas-example/dummy-device-app/src/main.rs:275-286 | the pending keys are exactly the ids issued and not yet answered, also after failed writes |
| `JsonRpc.DoneExact` | kaas-example/dummy-device-app/src/main.rs:275-286 | a completed requester holds the first message with its id that is no call and came after its request |
| `JsonRpc.OutcomesFinal` | kaas-example/dummy-device-app/src/main.rs:459-493 | a requester completes at most once |
| `JsonRpc.CallsCompleteNobody` | kaas-example/dummy-device-app/src/main.rs:240-274 | an incoming call completes no requester, even when its id is pending |
| `JsonRpc.ProtocolTranslator.Send` | kaas-example/dummy-device-app/src/main.rs:459-493 | counter, entry before the write, and the entry left behind by a failed write |
| `JsonRpc.ProtocolTranslator.Receive` | kaas-example/dummy-device-app/src/main.rs:228-297 | exactly the reader step |
| `JsonRpc.ProtocolTranslator.RunEvents` | kaas-example/dummy-device-app/src/main.rs:228-297 | after any run every outcome is the promised one |
| `WriteEvents.ReachesOwnRowExact` | kaas-example/dummy-device-app/src/main.rs:577-589 | a write for a device's Edge id updates its own row exactly when its name has only alphanumerics and underscores, or only alphanumerics and spaces |
| `WriteEvents.NeverReachesOthers` | kaas-example/dummy-device-app/src/main.rs:577-589 | ids of alphanumerics and underscores never update a row whose own Edge id differs |
| `WriteEvents.LastEventWins` | kaas-example/dummy-device-app/src/main.rs:563-600 | after a queue of events each row holds the state of the last event that concerns it, or its own |
| `WriteEvents.OwnEventsDecide` | kaas-example/dummy-device-app/src/main.rs:563-600 | after any queue the row of such a name is on exactly when the last value for 3311/5850 under its Edge id that decodes has a nonzero first byte, off exactly when that is zero or missing, and untouched without one |
| `WriteEvents.OtherValuesChangeNothing` | kaas-example/dummy-device-app/src/main.rs:571-576 | other objects, other resources and values that do not decode change no row |
| `WriteEvents.DeviceTable.Apply` | kaas-example/dummy-device-app/src/main.rs:572-600 | the update of one event |
| `WriteEvents.DeviceTable.Consume` | kaas-example/dummy-device-app/src/main.rs:563-600 | the consumer loop computes the queue's effect |
| `StressLocks.WriteHandlerExact` | c-api-stress-tester/stress_tester.c:607-678 | the write handler is balanced exactly when it takes neither early return |
| `StressLocks.EarlyReturnHolds` | c-api-stress-tester/stress_tester.c:625-648 | after an early return its thread still holds that list mutex |
| `StressLocks.ProgramBalancedExactly` | c-api-stress-tester/stress_tester.c:607-678 | a thread that runs any sequence of routines is balanced exactly when none of its write handlers returns early |
| `StressLocks.ShutdownBalanced` | c-api-stress-tester/stress_tester.c:256-276 | the shutdown, which locks every connection in turn, is balanced |
| `StressLocks.UnderListBalanced` | c-api-stress-tester/stress_tester.c:139-162 | every routine that makes any number of calls under a list mutex is balanced, with or without connection locks |
| `StressLocks.ScheduleExclusive` | c-api-stress-tester/stress_tester.c:139-162 | from the start of any number of threads, no schedule lets two hold one mutex |
| `StressLocks.NoCyclicWait` | c-api-stress-tester/stress_tester.c:219-254 | threads that run balanced routines never wait in a cycle |
| `StressLocks.SomeHolderSteps` | c-api-stress-tester/stress_tester.c:219-254 | while any mutex is held, one of its holders can step |
| `StressLocks.NoDeadlock` | c-api-stress-tester/stress_tester.c:946-974 | unless all threads have finished, some thread can step |
| `StressLocks.AllFinish` | c-api-stress-tester/stress_tester.c:946-974 | from every state a schedule leads all threads to their ends |
| `StressHangs.SameSteps` | c-api-stress-tester/stress_tester.c:139-162 | for balanced programs the plain mutexes let exactly those threads step that the discipline lets step |
| `StressHangs.ProgramLocksFirst` | c-api-stress-tester/stress_tester.c:607-678 | in whatever a thread runs, with early returns or not, every unlock of a list has a lock of it before it |
| `StressHangs.EarlyReturnOwns` | c-api-stress-tester/stress_tester.c:625-648 | right after an early return, wherever it comes in what a thread runs, the thread owns the mutex of that list |
| `StressHangs.NeverReleased` | c-api-stress-tester/stress_tester.c:625-648 | from then on, under every schedule and whatever the thread runs next, it keeps the mutex, and no thread gets past a lock of that list still ahead of it |
| `StressHangs.CallsAreLocked` | c-api-stress-tester/stress_tester.c:139-152 | with the lock asked for, whatever routines a thread runs, it owns the connection at every call into it |
| `StressHangs.OneCallAtATime` | c-api-stress-tester/stress_tester.c:139-152 | from the start of any number of threads, early returns included, no schedule has two of them calling into one connection |
| `StressHangs.HandlerCalls` | c-api-stress-tester/stress_tester.c:607-678 | the write handler makes exactly one call for each executed resource before its first early return |
| `DevicePool.DeviceIdInjective` | c-api-stress-tester/stress_tester.c:836-844 | the id format is injective in thread and number |
| `DevicePool.ChoiceInRange` | c-api-stress-tester/stress_tester.c:896 | the scaled random choice is an index of the list for every random number, also where the 32-bit divisor wraps |
| `DevicePool.ChoiceShares` | c-api-stress-tester/stress_tester.c:896 | each index of a longer list is chosen by its own range of random numbers |
| `DevicePool.UnregisteredExactly` | c-api-stress-tester/stress_tester.c:884-909 | unregistering removes exactly the chosen entry, and none at the minimum or when the request is accepted |
| `DevicePool.IdsDistinctEverywhere` | c-api-stress-tester/stress_tester.c:846-882 | in every interleaving no list exceeds the maximum and all ids are distinct within and across lists |
| `DevicePool.ListedExactly` | c-api-stress-tester/stress_tester.c:219-254 | a listed device leaves its list exactly in the routines that remove it |
| `DevicePool.FlagExactly` | c-api-stress-tester/stress_tester.c:438-447 | an entry is flagged exactly from the confirmation of its registration on |
| `DevicePool.CallbackFindsDevice` | c-api-stress-tester/stress_tester.c:480-498 | after any run the unchecked lookup of the callback returns the very entry the request was made for exactly when no routine of the run removed a device with its id |
| `DevicePool.GoneForGood` | c-api-stress-tester/stress_tester.c:846-882 | an entry that left its list is never found again, also when the same id is registered later |
| `DevicePool.SecondAnswerFindsNothing` | c-api-stress-tester/stress_tester.c:384-390 | an entry chosen again before its first request is answered: the second answer finds nothing |
| `DevicePool.SecondAnswerFindsAnother` | c-api-stress-tester/stress_tester.c:480-498 | a run on which the id is registered again in between: the second answer removes the new entry |
| `StressTester.TestThread.constructor` | c-api-stress-tester/stress_tester.c:1021-1036 | an empty list, on connection index modulo the number of translators |
| `StressTester.TestThread.FindDevice` | c-api-stress-tester/stress_tester.c:207-217 | the search loop returns the first device with the id |
| `StressTester.TestThread.UnregisterEntry` | c-api-stress-tester/stress_tester.c:219-240 | one locked call; the entry goes at once only when the request is refused |
| `StressTester.TestThread.RegisterRandomDevice` | c-api-stress-tester/stress_tester.c:846-882 | appends the first drawn id that is new, unless the list is full |
| `StressTester.TestThread.UnregisterRandomDevice` | c-api-stress-tester/stress_tester.c:884-909 | exactly the chosen entry is unregistered, unless the list is at its minimum |
| `StressTester.TestThread.SetRandomValue` | c-api-stress-tester/stress_tester.c:929-944 | exactly the chosen device gets a value, if it is registered |
| `StressTester.TestThread.RunTestAction` | c-api-stress-tester/stress_tester.c:946-974 | one action under the list mutex, with at most one locked call |
| `StressTester.TestThread.UnregisterDevices` | c-api-stress-tester/stress_tester.c:245-254 | one locked call per entry; the entries whose request was accepted stay |
| `StressTester.TestThread.DeviceRegistrationSuccess` | c-api-stress-tester/stress_tester.c:438-447 | sets the flag of a listed device under the list mutex |
| `StressTester.TestThread.DeviceUnregistrationSuccess` | c-api-stress-tester/stress_tester.c:480-498 | removes a listed device under the list mutex |
| `StressTester.ReceivedWriteHandler` | c-api-stress-tester/stress_tester.c:607-678 | performs exactly the mutex operations of the specification, and reports success exactly when they are balanced |
| `MinMax.BoundsAreExact` | examples-common-2/ipso_objects.c:280-408 | after a reset and any nonempty sequence of finite readings the stored bounds are the minimum and maximum of the sequence |
| `MinMax.AgreeOnce` | pt-example/client_example.c:507-608 | the skipping form agrees with the other on a reading exactly when the reading is new or the value lies between the bounds |
| `MinMax.OrderedUntilReset` | examples-common-2/ipso_objects.c:280-324 | from any state a reading puts the value between the bounds and a reset breaks that |
| `MinMax.AgreeExactly` | pt-example/client_example.c:507-608 | over a whole run from any state the two forms agree at every point exactly when no reset is directly followed by a repeated reading and, with the value outside the bounds at the start, the run does not begin with one |
| `MinMax.CreatedAgreesExactly` | pt-example/client_example.c:658-663 | from the created object, value zero and bounds at their defaults, that means: and the first reading is not zero |
| `MinMax.FirstReadingLost` | pt-example/client_example.c:522-531 | a first reading of zero leaves both bounds at their defaults in the skipping form |
| `MinMax.SkippedAfterReset` | pt-example/client_example.c:522-531 | a concrete run on which the minimum stays at its default |
| `MinMax.TemperatureObject.constructor` | examples-common-2/ipso_objects.c:228-278 | value zero and both bounds at their defaults |
| `MinMax.TemperatureObject.ResetBounds` | examples-common-2/ipso_objects.c:280-324 | both bounds to their defaults, the value kept |
| `MinMax.TemperatureObject.UpdateMinMaxFields` | examples-common-2/ipso_objects.c:326-408 | both bounds follow the reading, the value kept |
| `MinMax.TemperatureObject.UpdateTemperature` | c-api-stress-tester/stress_tester.c:759-805 | value and bounds follow every reading |
| `MinMax.TemperatureObject.UpdateTemperatureSkipping` | pt-example/client_example.c:507-608 | nothing changes on a repeated reading |
| `MinMax.TemperatureObject.Run` | pt-example/client_example.c:507-608 | a whole run of readings and resets equals the specification |
| `InstanceIds.NextFreeExact` | examples-common/ipso_objects.c:33-41 | the least unused id below 65535, or -1 exactly when all are used |
| `InstanceIds.CreationsFillUp` | examples-common/ipso_objects.c:112-144 | n creations on an empty object leave exactly the ids 0 to n-1, up to the 65535 there are |
| `InstanceIds.IpsoObject.GetNextFreeInstanceId` | examples-common/ipso_objects.c:33-41 | the search loop computes the allocation |
| `InstanceIds.IpsoObject.CreateNextFreeInstance` | examples-common/ipso_objects.c:112-144 | adds exactly that id, or reports failure and changes nothing |
| `InstanceIds.IpsoObject.CreateMany` | examples-common/ipso_objects.c:112-144 | repeated creation leaves exactly the ids 0 to n-1 |

## Left out

- GLib, D-Bus, BlueZ and the Edge client library: a call is issued and completes once later, with an outcome that is a
  parameter of the event; resources are a map; the idle queue is first in, first out.
- Allocation failure, trace output, and the mutex of a single device context.
- The notify and advertisement blocks, which are compiled out, and certificates.
- The restart of the main loop when the Bluetooth interface itself disappears (`blept-example/pt_ble.c:1641-1643`).
- The periodic decision which characteristics to read; a read is an event.
- The float format of a sensor's number: a parameter that may fail, so rounding and its integer branches are not
  modelled. Its side effect on minimum and maximum is modelled by `MinMax` alone, over the reals, where comparisons are
  the point.
- The introspection resource, whose value is the listing, and the device-information service, which has no translated
  values.
- UUIDs longer than the 36 characters of their fields; 32-bit overflow of the listing's size.
- Writes of zero bytes to a translated characteristic: the code reads their first byte.
- LwM2M boolean values reach `TwoBit` as a single byte; the Edge client's own copy of a written resource is not kept.
- `Translations.ServicesSound`: instance ids come from the least-free search of `InstanceIds`, since the allocator of
  the second client library is not in the repository.
- `TranslationPaths.LookupsExact`: whether the library accepts a resource depends on its path alone.
- `LifecycleReads.ReadIndexInRange`: what a discovery finds is a parameter.
- `CharacteristicValues.TranslationsFollow`: the value of a resource whose path two contexts share; `LookupsExact` says
  when that happens.
- `TwoBit.ReadBackExact`: offsets below 16, since the C shift is undefined from 16 on.
- `Json.RoundTrip`: strings without quotes, backslashes and control characters, and no numbers, which the listing
  never prints.
- `BleOptions.DocoptReadsSpelling`: commands and positional arguments do not exist in this program; the program name
  must not begin with a dash, and a comparison whose length comes from a missing equals sign is of the whole word.
- `JsonRpc.RunKept`: fewer than 2^64 - 2 requests; the counter itself wraps in the model.
- `DevicePool.IdsDistinctEverywhere`: random numbers are parameters of the events, and registering needs a fresh one
  among those drawn, which the loop of the code waits for.
- `StressLocks.NoDeadlock`: programs are finite and balanced (`ProgramBalancedExactly` says which are), and calls into
  the library return.
- Extraction of fields from JSON messages, base64 (an abstract decoder), SQL, HTTP handlers and reconnection of the
  JSON-RPC server.
- `mqttpt_example.c`, the JavaScript examples, the web portal, thermal-zone reading and the build files.
- Hex printing, flag setters and enum-to-string pairs, which are single assignments and lookups.
