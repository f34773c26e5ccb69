# Guest handles, guest memory and the loader, verified

A model in Dafny 4.11 of the Vulkan wrapper plugin: the twelve handle tables and the
entry points that create, enumerate, allocate, free and destroy through them, run
against a driver given only by the calls it receives and the answers it chooses; the
guest memory accessor with its delivery modes; the marshalling of create-infos and
lists; the copies between guest and device memory; and the loader. Check it with
`dafny verify dfyconfig.toml`.

## How it is built

* `registry.dfy` holds the twelve tables as one value, `Registry`: counters per kind
  and records keyed by kind and handle. Twelve record types are one `Record` whose
  `parent` is the handle in the parent kind's table. `handle_table.dfy` is the table
  class itself.
* `native_driver.dfy` is the driver as the trace of calls made to it. `Legal` is valid
  usage (sections 3.3 and 3.3.1, Object Model and Object Lifetime, of the Vulkan
  specification): a call names only live objects, created under the device it names;
  nothing is destroyed while something created under it lives. `Conforms` is what the
  driver is trusted with: an instance or device it creates is not equal to a live one, a
  command pool not to a live pool of its device, a command buffer not to a live buffer of
  its pool, and a physical device or queue is reported under one owner at a time. Handles
  of the other kinds may repeat, so objects are counted, not collected in sets. Pools are
  the exception among non-dispatchable handles because buffers are named through them: of
  two live pools with one handle, destroying one would take the buffers of both
  (`NativeDriver.SharedPoolLosesBuffers`).
* `lifecycle.dfy` gives each entry point as a step of `World(reg, trace)`. What a step
  cannot compute - whether guest memory could be read or written, what the driver
  answered, the order in which a cascade met a table - is part of the request.
* `answers.dfy` says what every request is answered and what the driver is passed, by rules
  over the objects the request names; `admissions.dfy` what is recorded of what the driver
  makes or lists; `guest_views.dfy`, with `handle_arrays.dfy`, that the handles the guest reads
  back lead there. None of them speaks of what a step does.
* `plugin_context.dfy` has the entry points as methods that update tables, trace and guest
  memory in place; each is proved equal to its step, with readability and writability
  computed from the actual guest memory. Entry points that lock twice are two methods, one
  for each section.
* `linking.dfy`, `batches.dfy`, `sweeps.dfy` and `tallies.dfy` count: below the instances
  every live object has one record, one call, one batch, one cascade and one step at a
  time. `frames.dfy` says what a step leaves alone, `ownership.dfy` which recorded owner the
  driver agrees with, `validity.dfy` exactly when the calls of a step are valid. All of it
  holds however the sections of threads interleave.
* `tables.dfy`, `driver_safety.dfy`, `run_safety.dfy`, `undoing.dfy` and `teardown.dfy` hold
  the results about whole runs of entry points one after another; `cascade_steps.dfy` is
  what the loops of the cascades keep. `witnesses.dfy` has concrete runs that meet their
  hypotheses and reach the inputs for which a conditional promise fails.
* `interleaving.dfy` splits the sections of different threads and says what the tables
  keep; `interleaved_driver.dfy` what the driver then holds; `interleaved_validity.dfy`, with
  `reports.dfy`, when its calls are valid. `interleaved_witnesses.dfy` has the runs that
  reach the failures.
* `delivery.dfy`, `guest_memory.dfy`, `growing_memory.dfy`: the accessor.
  `guest_blocks.dfy`, `create_infos.dfy`, `child_infos.dfy`, `enumeration.dfy`: marshalling.
  `device_copy.dfy`: copies. `loader.dfy`: the loader and the machine over it.

## What the code does not promise

Each of these is kept in the model as the code has it, with the exact condition proved.

* A wrapped counter can mint a handle that is in use; the insertion is then lost
  (`Registries.InsertResolvesIffFree`), and undoing it takes the older record along
  (`Registries.UndoRestoresIffFree`).
* `FreeCommandBuffers` accepts a list that repeats a handle; the native call is valid iff
  none repeats (`RunSafety.FreeIsValidIffDistinct`), and where entry points run one
  at a time nothing else makes a call of a run invalid (`RunSafety.EveryCallIsValidIff`).
  `Witnesses.FreeingTwiceIsReached` is such a run.
* `EnumeratePhysicalDevices` looks its instance up in one locked section and inserts in
  another; a destruction in between leaves records whose instance is gone
  (`Interleaving.EnumerationDanglesIff`, `Interleaving.DestroyBetweenSectionsDangles`).
  * A query of a recorded physical device, and a device created on it, is a valid call iff
    some recorded instance has listed that native and not been destroyed since
    (`InterleavedValidity.PhysicalCallIsValidIffListed`). So it is valid while the record's
    own instance resolves, and exactly as long where no other instance lists the native
    (`InterleavedValidity.PhysicalCallIsValidIffInstanceResolves`). On a dangling record the
    call can be invalid (`InterleavedWitnesses.InvalidOnDanglingIsReached`), and valid again
    once another instance lists the native (`InterleavedWitnesses.ValidOnDanglingIsReached`).
  * A device created validly on a dangling record is missed by the cascade of the instance
    that owns it: `DestroyInstance` answers SUCCESS, and its last call destroys an instance
    with a live device. That call is valid iff the driver owns to the instance no device
    recorded under a dangling physical device (`InterleavedValidity.InstanceGoesIffNoOrphan`;
    `InterleavedWitnesses.OrphanIsReached` is the run).
* The fence calls look their fences up in one section and wait in another. The wait is
  valid iff each native handle found at first is still that of some fence of the device
  (`InterleavedDriver.WaitIsValidIff`); where fences do not share native handles, iff every
  fence still resolves (`InterleavedDriver.WaitIsValidIffFencesResolve`). A fence destroyed
  in between breaks it (`InterleavedDriver.DestroyedFenceBreaksWait`,
  `InterleavedWitnesses.BrokenWaitIsReached`).
* Nothing else makes a call of an interleaving invalid: all are valid iff each move meets
  its condition (`InterleavedValidity.EveryMoveIsValidIff`), and they are where no
  enumeration outlives its instance, no fence its wait, and no freed list repeats a buffer
  (`InterleavedValidity.GuardedRunIsValid`).
* `EnumeratePhysicalDevices` cuts the list to the capacity before reporting, so it never
  answers INCOMPLETE (`Enumeration.PhysicalDevicesNeverIncomplete`); and the driver's list
  keeps its first length, so a shorter second answer leaves null devices
  (`Enumeration.ListPhysicalDevices`).
* List sizes are taken as 32-bit counts (`Enumeration.CountIsWholeIff`).
* Partial protection accepts the larger of its two bounds (`Delivery.PartialMatchesLengthIff`).
* Names reach the driver as C strings and end at the first NUL
  (`CreateInfos.DriverSeesInstanceIff`).
* A map that succeeds with a null pointer is not unmapped (`DeviceCopy.MapsPairUpIff`).
* A failed loader attempt can leave the look-up address of a closed library set
  (`Loaders.AddressOutlivesLibraryIff`); no entry point calls it all the same
  (`LoaderSafety.RecordsNeedOpenLibrary`).

## Model

| member | source | states |
|---|---|---|
| HandleTables.HandleTable.Insert | src/runtime/handle_registry.h:38-42 | the minted handle is the counter, which wraps at 2^64; a handle in use keeps its old record |
| HandleTables.HandleTable.Find | src/runtime/handle_registry.h:44-48 | finds exactly the records in the table |
| HandleTables.HandleTable.Erase | src/runtime/handle_registry.h:56 | removes that handle and nothing else; the counter stays |
| HandleTables.HandleTable.EraseIf | src/runtime/handle_registry.h:58-66 | erasing while iterating, in any order, keeps exactly the records that are not doomed |
| HandleTables.HandleTable.VisitOrder | src/runtime/handle_registry.h:68-72 | iteration meets every handle once, in an order nobody promises |
| Registries.InsertAdds | src/runtime/handle_registry.h:38-42 | below the wrap an insertion adds one record under a handle never used before |
| Registries.InsertResolvesIffFree | src/runtime/handle_registry.h:38-42 | past the wrap the new record is kept iff the revisited handle is free |
| Witnesses.WrapIsReached | src/runtime/handle_registry.h:38-42 | 2^64 insertions reach the wrap: the next object gets the first one's handle and its own record is lost |
| Registries.UndoRestoresIffFree | src/vulkan/api.cc:1350-1355 | rolling an insertion back restores the records iff the minted handle was free |
| Registries.InsertAllAppends | src/vulkan/api.cc:1447-1455 | a batch adds its records in order under consecutive fresh handles and nothing else |
| Registries.RollbackRestores | src/vulkan/api.cc:1461-1463 | erasing what a batch inserted restores every record, consuming counter values only |
| Registries.WithoutKeeps | src/vulkan/api.cc:1226-1253 | removing records that no survivor names as parent or pool keeps the ownership forest |
| NativeDriver.CreatedIsDestroyedPlusLive | src/vulkan/backend.h:34-321 | where no call destroys more copies of an object than live, the copies ever created are those destroyed plus those live |
| Linking.ConformingKeepsUnique | src/vulkan/backend.h:34-321 | no two live instances, devices, pools of a device or buffers of a pool share a native handle |
| Linking.TallyDestroyCreatable | src/vulkan/api.cc:1359-1377 | destroying a recorded object of a device is a valid call, after which the records left still count what lives, a pool's buffers gone with it |
| Linking.TallyDestroyDevice | src/vulkan/api.cc:1224-1225 | destroying a device is valid once no object of it is left, and takes its queues along |
| Tallies.TallyCreates | src/vulkan/api.cc:1445-1455 | inserting every native of a creating call keeps records and live objects in step |
| Tallies.TallyRetrieved | src/vulkan/api.cc:954-961 | records of natives that were only handed out count as nothing |
| Tallies.TallyFreed | src/vulkan/api.cc:1510-1515 | one call that frees distinct buffers of a pool undoes exactly the records erased |
| Tallies.TallySweepRuns | src/vulkan/api.cc:1168-1225 | every prefix of a cascade, tables in order and each in any order, makes valid calls and keeps what is left in step |
| Sweeps.SweepLeavesRest | src/vulkan/api.cc:1226-1253 | what the calls of a cascade leave live is what its erasures leave recorded |
| Tallies.TallySweeps | src/vulkan/api.cc:1168-1253 | a whole cascade over any devices makes valid calls and erases exactly what they destroyed |
| Lifecycle.Shown | src/vulkan/api.cc:949-950 | the devices shown are the prefix of those found as long as the smaller of capacity and 32-bit count |
| Answers.RefusedIff | src/vulkan/api.cc:745-2051 | for every request: refused for a bad argument, for unreadable input or for a handle, each with nothing changed, iff that is what is wrong, arguments before input and input before handles; a handle is wrong iff some object named does not resolve or belong to the named device |
| Answers.AnswersReachGuest | src/vulkan/api.cc:745-2051 | a request that is not refused gets the driver's own answer where that ends it, positive ones included, and else success or what went wrong with handing over |
| Answers.BeginRefusedIff | src/vulkan/api.cc:1519-1550 | the same for beginning a command buffer, whose two refusals as unsupported come before and after the handles |
| Answers.CallPassesNamed | src/vulkan/api.cc:745-2051 | it makes one call of its sort, which passes exactly the natives recorded for the objects named, in the order named, and what the driver gave stands in the trace as given; only a pool or an allocation is taken back by a second |
| Answers.RefusalChangesNothing | src/vulkan/api.cc:745-2051 | a bad argument or handle is reported with tables and driver untouched |
| Admissions.AdmitsIff | src/vulkan/api.cc:764-1357 | an instance, device, queue or child is recorded iff the driver gave it and it was not taken back: one record more, with the driver's native, the named parent and the request's words |
| Admissions.EnumerationRecords | src/vulkan/api.cc:949-961 | the j-th new handle names the j-th device found, under the instance, for as many as there is room; nothing else is added |
| Admissions.EnumerationSectionsRecord | src/vulkan/api.cc:935-962 | the same for the two sections, whatever comes in between |
| Admissions.AllocationRecords | src/vulkan/api.cc:1447-1455 | the j-th new handle names the j-th buffer, under its device and pool, with the level asked for |
| Admissions.FreshBufferBeginsIff | src/vulkan/api.cc:1519-1550 | beginning a buffer just allocated is refused as unsupported iff the level asked for was not primary; else the driver begins that buffer |
| GuestViews.GuestFindsObject | src/vulkan/api.cc:764-1357 | the handle a guest reads at its out address after a creation names the record of the object created |
| GuestViews.GuestFindsDevices | src/vulkan/api.cc:949-965 | the j-th handle in the guest's buffer names the j-th device the driver found, and the count cell tells how many |
| GuestViews.GuestFindsBuffers | src/vulkan/api.cc:1447-1469 | the j-th handle in the guest's array names the j-th buffer allocated |
| HandleArrays.HandlesRoundTrip | src/vulkan/api.cc:78-91 | handles written as a guest array are read back as these handles |
| TableSafety.StepKeepsTables | src/vulkan/api.cc:745-2051 | every step keeps the ownership forest, each buffer's device being its pool's, and never changes or revives a record |
| TableSafety.RunKeepsForest | src/vulkan/api.cc:745-2051 | the forest holds after any sequence of calls with any handles, driver answers and memory failures |
| TableSafety.ErasedStaysErased | src/runtime/handle_registry.h:38-56 | a handle erased once never resolves again in the run |
| TableSafety.ResolvesToSameRecord | src/runtime/handle_registry.h:44-48 | a handle that resolves at two points of a run names one unchanged record |
| DriverSafety.StepKeepsSound | src/vulkan/api.cc:745-2051 | every step makes only valid native calls and keeps exactly one record per live owned object |
| RunSafety.RunKeepsSound | src/vulkan/api.cc:745-2051 | the same over every run |
| RunSafety.EveryCallIsValidIff | src/vulkan/api.cc:1496-1516 | whatever the guest passes, all native calls of a run are valid iff no list that was freed repeats a buffer |
| RunSafety.LiveDeviceIsOwned | src/vulkan/backend.h:34-321 | on a trace of valid calls every live device has an owner, so none escapes the condition on destroying its instance |
| RunSafety.NativeObjectsAreConserved | src/vulkan/api.cc:745-2009 | natives created are natives destroyed plus natives recorded, object by object, in every reachable state and on every failure path |
| RunSafety.NothingLeaks | src/vulkan/api.cc:772-922 | a run that empties the tables has destroyed all it created |
| RunSafety.ChildrenGoFirst | src/vulkan/api.cc:1168-1225 | when a device is destroyed everything ever created under it has been destroyed |
| RunSafety.DevicesGoFirst | src/vulkan/api.cc:798-885 | when an instance is destroyed every device ever created under it has been destroyed since its creation |
| RunSafety.NeverNamedAfterDestroy | src/vulkan/api.cc:877-885 | no call names a destroyed device or instance unless the driver has made it anew in between |
| RunSafety.AllocateRegistersAll | src/vulkan/api.cc:1445-1469 | a successful allocation registers all n buffers in order, each with its native, device, pool and level |
| RunSafety.FailedAllocateRestores | src/vulkan/api.cc:1431-1468 | a failed one leaves every record and every live native object as it was, wherever it failed |
| RunSafety.FreeIsAllOrNothing | src/vulkan/api.cc:1496-1516 | one valid call frees exactly these natives and exactly their records go, or nothing changes |
| RunSafety.FreeIsValidIffDistinct | src/vulkan/api.cc:1498-1512 | the native free is valid iff no handle of the list repeats |
| Witnesses.FreeingTwiceIsReached | src/vulkan/api.cc:1498-1512 | five calls from the start, a list that names one buffer twice is freed by an invalid call |
| Undoing.CreationIsUndone | src/vulkan/api.cc:745-922 | creating an instance, a device or an object of a device and destroying it through the minted handle restores every record and every live native object |
| Undoing.UnpublishedIsUndoneIffPool | src/vulkan/api.cc:1350-1355 | of the seven creators only the pool's leaves nothing behind when its handle cannot be written |
| Witnesses.UnseenFenceIsReached | src/vulkan/api.cc:1713-1718 | after three calls a fence is created whose handle the guest never gets; it stays recorded |
| Witnesses.PoolIsUndone | src/vulkan/api.cc:1320-1377 | after three calls a pool is created and destroyed, and tables and driver are as before |
| Undoing.QueueTwiceAliases | src/vulkan/api.cc:1292-1296 | asking twice for one queue gives two handles with equal records |
| Teardown.RemovalsCombine | src/vulkan/api.cc:886-916 | removing devices in two steps is removing them in one |
| Teardown.CascadesAgree | src/vulkan/api.cc:772-922 | destroying an instance leaves the tables, and makes the multiset of native calls, of destroying its devices in any order and then the instance |
| Teardown.DestroyDevicesCommute | src/vulkan/api.cc:1159-1255 | device destructions commute, in tables and in multiset of native calls |
| Teardown.DeviceCascadeIsExact | src/vulkan/api.cc:1226-1253 | the one-level erasures of a device cascade remove exactly what leads to the device along parent and pool edges, at any depth, and keep every other record and all counters |
| Teardown.InstanceCascadeIsExact | src/vulkan/api.cc:781-921 | likewise for an instance, whose cascade goes down by two collections and ten erasures |
| Teardown.ChildCascadeIsExact | src/vulkan/api.cc:1359-1377 | likewise for one object of a device, a pool being the only one with anything below it |
| Teardown.BuffersByDeviceAreBuffersByPool | src/vulkan/api.cc:1229-1234 | erasing command buffers by device and pool by pool removes the same records |
| Teardown.MemoryOutlivesItsUsers | src/vulkan/api.cc:1168-1225 | in every cascade buffers and images go before any memory, and a device after all it made |
| Interleaving.InterleavingsHold | src/vulkan/api.cc:756-766 | with locked sections of different threads interleaved at will, every parent edge stands except physical device to instance |
| Interleaving.SecondLookupAgrees | src/vulkan/api.cc:1766-1774 | the fence calls' second look-up finds the first one's device, and fences still there are the same fences |
| Interleaving.EnumerationDanglesIff | src/vulkan/api.cc:935-962 | the second enumeration section breaks a top edge iff the instance is gone and something is shown |
| Interleaving.DestroyBetweenSectionsDangles | src/vulkan/api.cc:935-962 | and destroying the instance in between does so |
| Tallies.StepKeepsTally | src/vulkan/api.cc:745-2051 | whatever has become of physical devices' instances, a step keeps one record per live object of every kind below the instances, and destroys no more than live |
| Frames.StepTouches | src/vulkan/api.cc:745-2051 | a request changes records only of the kinds it is about |
| Frames.StepKeepsSurplus | src/vulkan/api.cc:772-922 | no step but a creation changes how many live instances are without a record |
| Ownership.StepKeepsOwners | src/vulkan/api.cc:745-2051 | wherever a record's parents resolve, the driver's owner of its native stays the recorded one, and whoever owns a physical device stays recorded |
| Validity.StepIsValidIff | src/vulkan/api.cc:745-2051 | the calls of a step are valid iff some recorded instance reports the physical device it names, the instance it destroys owns no orphan, and the list it frees repeats no buffer |
| Validity.FreeIsLegalIff | src/vulkan/api.cc:1498-1512 | even under dangling records, a free of buffers of one pool is valid iff none repeats |
| Reports.OwnerIsLister | src/vulkan/api.cc:940-947 | the driver's owner of a physical device is the instance that has listed it and not been destroyed since |
| InterleavedDriver.ConservedWhileInterleaved | src/vulkan/api.cc:756-766 | in every interleaving, natives created are natives destroyed, recorded, or carried by a thread between the driver's answer and the table |
| InterleavedDriver.WaitIsValidIff | src/vulkan/api.cc:1766-1774 | in every interleaving, the wait of a device that resolves is a valid call iff each native it passes is that of some fence the device still has |
| InterleavedDriver.WaitIsValidIffFencesResolve | src/vulkan/api.cc:576-592 | where no other fence of the device has a native of the list, iff every fence of the list still resolves |
| InterleavedDriver.DestroyedFenceBreaksWait | src/vulkan/api.cc:1721-1774 | any interleaving goes on to an invalid wait by looking a fence up and destroying it |
| InterleavedWitnesses.BrokenWaitIsReached | src/vulkan/api.cc:1721-1774 | eight moves from the start a wait is pending and would be invalid |
| InterleavedValidity.EveryMoveIsValidIff | src/vulkan/api.cc:756-766 | in every interleaving all native calls are valid iff each move met its condition: that of its step, or that of its wait |
| InterleavedValidity.GuardedRunIsValid | src/vulkan/api.cc:935-962 | they are, and every parent edge stands, where each enumeration finds its instance again or shows nothing, each wait its fences, and no freed list repeats a buffer |
| InterleavedValidity.PhysicalCallIsValid | src/vulkan/api.cc:986-991 | in every interleaving a query of a physical device, or a device created on it, is a valid call while its instance resolves |
| InterleavedValidity.PhysicalCallIsValidIffInstanceResolves | src/vulkan/api.cc:1138-1147 | and exactly as long, where no other recorded instance still lists the native |
| InterleavedValidity.PhysicalCallIsValidIffListed | src/vulkan/api.cc:935-962 | in general iff some recorded instance still lists the native |
| InterleavedWitnesses.InvalidOnDanglingIsReached | src/vulkan/api.cc:935-962 | five moves from the start a device on a dangling record would be an invalid call |
| InterleavedWitnesses.ValidOnDanglingIsReached | src/vulkan/api.cc:935-962 | four moves on another instance has listed the native and it is a valid one |
| InterleavedValidity.InstanceGoesIffNoOrphan | src/vulkan/api.cc:781-885 | in every interleaving the cascade of an instance makes valid calls; its own is valid iff the driver owns to it no device recorded under a dangling physical device |
| InterleavedWitnesses.OrphanIsReached | src/vulkan/api.cc:781-885 | ten moves from the start an instance is destroyed with SUCCESS while a device of it lives on |
| PluginContexts.PluginContext.InsertEach | src/vulkan/api.cc:1447-1455 | inserting in a loop is the batch insertion, and returns the minted handles in order, wrapped or not |
| PluginContexts.PluginContext.CallCreateInstance | src/vulkan/api.cc:756-762 | the driver call of an instance creation, made before the lock is taken |
| PluginContexts.PluginContext.RecordInstance | src/vulkan/api.cc:764-769 | the locked section that records it, in any later state, and the handle handed out |
| PluginContexts.PluginContext.CreateInstance | src/vulkan/api.cc:745-770 | result, tables, native calls and guest memory, on every path |
| PluginContexts.PluginContext.CreateDevice | src/vulkan/api.cc:1121-1157 | the same |
| PluginContexts.PluginContext.GetDeviceQueue | src/vulkan/api.cc:1269-1300 | the same; a new handle on every call |
| PluginContexts.PluginContext.CreateChild | src/vulkan/api.cc:1320-1357 | the same for the seven creators, each decoding its create-info from guest memory; only a command pool is rolled back when its handle cannot be written |
| PluginContexts.PluginContext.DestroyChild | src/vulkan/api.cc:1359-1377 | the same for the seven destroyers; a pool takes its command buffers along |
| PluginContexts.PluginContext.AllocateCommandBuffers | src/vulkan/api.cc:1396-1470 | the same; all handles are published, or buffers and records are undone |
| PluginContexts.PluginContext.FreeCommandBuffers | src/vulkan/api.cc:1472-1517 | the same; one bad handle refuses the whole list |
| PluginContexts.PluginContext.ResolveFenceList | src/vulkan/api.cc:561-593 | all natives in input order, or none |
| PluginContexts.PluginContext.WaitOnFences | src/vulkan/api.cc:1766-1774 | the second section of the fence calls, in any state: the device looked up again, the natives found before |
| PluginContexts.PluginContext.WaitForFences | src/vulkan/api.cc:1753-1775 | result - the driver's, whatever it is, once every fence is found - tables and native call, with nothing between its two sections |
| PluginContexts.PluginContext.BindMemory | src/vulkan/api.cc:2011-2051 | the driver is reached only with an object and a memory of the named device |
| PluginContexts.PluginContext.BeginCommandBuffer | src/vulkan/api.cc:1519-1550 | secondary buffers and render-pass continuation are refused, in that place among the checks, before the driver is reached |
| PluginContexts.ContinueIsTheSecondBit | src/vulkan/api.cc:1530-1534 | a render pass is continued iff the second bit of the usage flags is set |
| PluginContexts.PluginContext.QueueWaitIdle | src/vulkan/api.cc:1302-1318 | the device passed is the queue's recorded parent |
| PluginContexts.PluginContext.ListDevices | src/vulkan/api.cc:935-947 | the first section of the enumeration |
| PluginContexts.PluginContext.RegisterDevices | src/vulkan/api.cc:954-962 | its second section, in any state: one new handle per device shown |
| PluginContexts.PluginContext.EnumeratePhysicalDevices | src/vulkan/api.cc:924-966 | result, tables and guest memory with nothing between its two sections |
| PluginContexts.PluginContext.QueryProperties | src/vulkan/api.cc:1003-1029 | result, native call and guest memory of the three queries for one structure |
| PluginContexts.PluginContext.QueryList | src/vulkan/api.cc:968-1001 | the same for the two that hand over lists; INCOMPLETE where the room is too small, and for extensions only a negative status is an error |
| PluginContexts.PluginContext.SweepChildren | src/vulkan/api.cc:1168-1223 | the seven iterations destroy each object of the devices once, table by table, each under its own device |
| PluginContexts.PluginContext.EraseChildren | src/vulkan/api.cc:1226-1252 | the nine erasures remove exactly the records under the devices |
| PluginContexts.PluginContext.EraseDevice | src/vulkan/api.cc:1226-1253 | the nine erasures and the device's own remove the device and the records whose parent it is |
| PluginContexts.PluginContext.DestroyDevice | src/vulkan/api.cc:1159-1255 | result, tables and the calls of a complete, ordered sweep |
| PluginContexts.PluginContext.CollectDevices | src/vulkan/api.cc:781-796 | exactly the instance's physical devices and their devices are collected |
| PluginContexts.PluginContext.DestroyInstance | src/vulkan/api.cc:772-922 | result, tables and the calls of a complete, ordered sweep over all devices, then the instance |
| Delivery.RangeCheckIsExact | src/runtime/memory_access.cc:160-165 | the 64-bit check is address + size <= length over unbounded integers |
| Delivery.DeliveryRefinesPlainMemory | src/runtime/memory_access.cc:67-146 | any sequence of reads and writes through any mode gives the answers and final bytes of one byte array |
| Delivery.ModesAgree | src/runtime/memory_access.cc:82-104 | modes that present the same bytes cannot be told apart |
| Delivery.PartialMatchesLengthIff | src/runtime/memory_access.cc:175-181 | partial protection accepts exactly the length iff its limit is no larger |
| GuestMemory.AcceptsIffReaches | src/runtime/memory_access.cc:160-195 | each mode lets through exactly what its own fields allow: the length, the larger of limit and length, the length cell, or what the host reaches |
| GuestMemory.DescriptorPresents | src/runtime/memory_access.cc:67-195 | a descriptor whose bounds are the memory's length presents that memory, so every sequence of accesses through it is one on plain bytes |
| GuestMemory.GuestMemoryAccessor.FindDescriptor | src/runtime/memory_access.cc:45-65 | the first descriptor that can be fetched and has the index, none if there is none |
| GuestMemory.GuestMemoryAccessor.Read | src/runtime/memory_access.cc:67-106 | succeeds iff the fields of the descriptor let the range through, copies the bytes there, and changes nothing else |
| GuestMemory.GuestMemoryAccessor.Write | src/runtime/memory_access.cc:108-146 | succeeds iff the fields of the descriptor let the range through; the bytes behind it afterwards, and that no other buffer changes |
| GuestMemory.GuestMemoryAccessor.ReadString | src/runtime/memory_access.cc:148-158 | the text, or as many zero bytes |
| GrowingMemory.CopiesStayInside | src/runtime/memory_access.cc:182-191 | with check and copy apart and growth anywhere, every copied range is inside the memory at copy time |
| GrowingMemory.EarlierCheckIsStricter | src/runtime/memory_access.cc:187-191 | an old length never accepts what the grown memory would refuse |
| GrowingMemory.MovesAreExact | src/runtime/memory_access.cc:182-191 | a check passes iff the range is inside the memory as it then is, a copy stores what a passed write carries and nothing otherwise |
| GuestBlocks.StoredPiecesHold | src/vulkan/api.cc:47-76 | disjoint pieces stored one by one are all there |
| GuestBlocks.LittleEndian | src/vulkan/api.cc:47-76 | words are read lowest byte first |
| GuestBlocks.ReadStringViewList | src/vulkan/api.cc:123-141 | the list is read whole and in order iff every view and text is in bounds |
| CreateInfos.BuildInstanceCreateInfo | src/vulkan/api.cc:172-241 | succeeds iff every range needed is in bounds and no pointer needed is null, and builds the native tree of the decoded one |
| CreateInfos.InstanceRoundTrip | src/vulkan/api.cc:172-241 | an instance tree written to disjoint ranges decodes to itself |
| CreateInfos.DriverSeesInstanceIff | src/vulkan/api.cc:190-239 | following the native pointers gives the guest's tree back iff no name holds a NUL |
| CreateInfos.BuildDeviceCreateInfo | src/vulkan/api.cc:255-332 | the same for devices |
| CreateInfos.DeviceRoundTrip | src/vulkan/api.cc:255-332 | a device tree written to disjoint ranges decodes to itself |
| CreateInfos.DriverSeesDeviceIff | src/vulkan/api.cc:266-289 | each queue's pointer leads to its own priorities; only a NUL in an extension name can be lost |
| CreateInfos.BuildShaderModuleCreateInfo | src/vulkan/api.cc:506-538 | succeeds iff the bounds, null and code-size checks pass |
| CreateInfos.ShaderRoundTripIff | src/vulkan/api.cc:511-529 | written code decodes, to itself, iff it is a non-empty run of whole words at a non-null address |
| CreateInfos.NullsAreRefused | src/vulkan/api.cc:116-332 | nothing is read at a null create-info or through a null list that is not empty; a null application or features pointer leaves them out |
| CreateInfos.NullPrioritiesAreRefused | src/vulkan/api.cc:266-277 | a queue that asks for priorities has an address for them |
| CreateInfos.NullIsForNothing | src/vulkan/api.cc:205-331 | the driver is given a null pointer exactly for what is empty or left out |
| CreateInfos.SeenInstanceFields | src/vulkan/api.cc:222-239 | the driver reads each field of the native instance structure as what it says |
| CreateInfos.SeenDeviceFields | src/vulkan/api.cc:279-331 | likewise for the device structure and its queues |
| ChildInfos.BuildChildCreateInfo | src/vulkan/api.cc:340-554 | the seven other builders succeed iff every range needed is in bounds and no pointer needed is null; following the native pointers, queue family indices included, gives what the guest wrote |
| ChildInfos.KeptFromGuest | src/vulkan/api.cc:1335-1349 | a pool's record keeps the queue family the guest wrote, a memory's its size and type |
| ChildInfos.SeenFieldByField | src/vulkan/api.cc:340-554 | likewise for the structures of a device's objects |
| ChildInfos.ChildRoundTripIff | src/vulkan/api.cc:340-554 | a create-info written to disjoint ranges is accepted iff its index or code pointer is not null where needed, and then decodes to itself |
| Enumeration.ListProperties | src/vulkan/dynamic_backend.cc:246-283 | status and list of the two-call protocol on every path |
| Enumeration.ListPhysicalDevices | src/vulkan/dynamic_backend.cc:349-374 | the list is the driver's answer iff the second answer is as long as the first count |
| Enumeration.WriteGuestBuffer | src/vulkan/api.cc:93-114 | result and guest memory on every path |
| Enumeration.EnumerationContract | src/vulkan/api.cc:93-114 | fails iff the count cell or the needed part of the buffer is out of reach; otherwise count cell, exact prefix in the buffer, INCOMPLETE iff the capacity is too small, nothing else changed |
| Enumeration.CountThenFill | src/vulkan/api.cc:715-742 | a count call and then a sized call return the whole list |
| Enumeration.CountIsWholeIff | src/vulkan/api.cc:98 | the count is the size iff the size fits 32 bits |
| Enumeration.PhysicalDevicesNeverIncomplete | src/vulkan/api.cc:949-965 | the count is the number shown and the result never INCOMPLETE |
| DeviceCopy.CopyContext.CopyBetweenGuestAndMappedMemory | src/vulkan/api.cc:595-653 | result, guest bytes, device bytes and mapping calls on every path, whatever the host sees in the range at first |
| DeviceCopy.RunBalances | src/vulkan/api.cc:608-651 | in every run each usable mapping is synchronised and unmapped while mapped, once, before the next |
| DeviceCopy.RunIsCopyByCopy | src/vulkan/api.cc:595-653 | a run is its copies one after the other |
| DeviceCopy.MapsPairUpIff | src/vulkan/api.cc:611-618 | map and unmap calls pair up iff no successful map returned null |
| DeviceCopy.CopySucceedsIff | src/vulkan/api.cc:605-652 | the same condition in both directions: mapped, synchronised and inside the guest's memory; never for the whole-size marker |
| DeviceCopy.CopyAnswers | src/vulkan/api.cc:605-652 | why a copy fails: the driver's own status, a null mapping, or the guest's range, which an upload meets before synchronising and a download after |
| DeviceCopy.CopyCalls | src/vulkan/api.cc:608-651 | the mapping calls on every path: a flush for an upload, an invalidation for a download, between map and unmap |
| DeviceCopy.FailureChangesNothing | src/vulkan/api.cc:605-652 | a copy that fails, wherever it fails, leaves every guest and device byte as it was |
| DeviceCopy.DownloadCarries | src/vulkan/api.cc:636-652 | a successful download carries the device's bytes and changes no other byte |
| DeviceCopy.RoundTrip | src/vulkan/api.cc:2053-2103 | after an upload, copies that leave the range alone, and a download, the guest holds what it uploaded |
| Loaders.Loader.EnsureLoaderLocked | src/vulkan/dynamic_backend.cc:137-189 | the loader state after the one attempt, and after any later one |
| Loaders.Loader.LoadGlobalLocked | src/vulkan/dynamic_backend.cc:191-201 | what is found, by look-up function, else by export, else nothing; a call into a closed library is recorded |
| Loaders.AnswerStands | src/vulkan/dynamic_backend.cc:137-142 | a later attempt, on whatever the machine has become, changes neither answer nor state |
| Loaders.AvailableIff | src/vulkan/dynamic_backend.cc:143-188 | available iff the first candidate that opens exports the look-up function and has the three mandatory functions |
| Loaders.FunctionsAreTheirs | src/vulkan/dynamic_backend.cc:155-201 | once available every address is that of its own function, by the look-up function before the export, in the library left open |
| Loaders.AddressOutlivesLibraryIff | src/vulkan/dynamic_backend.cc:155-187 | a failed attempt leaves a dangling look-up address iff a library opened and exported it |
| LoaderSafety.RecordsNeedOpenLibrary | src/vulkan/dynamic_backend.cc:137-221 | in every run a record implies one attempt, an available loader and an open library, and no address of a closed library is called |
| LoaderSafety.CallsNeedOpenLibrary | src/vulkan/api.cc:756-766 | a native call happens only while the library is open |
| LoaderSafety.LoaderAskedIff | src/vulkan/dynamic_backend.cc:329-337 | only an instance creation with good, readable arguments asks for the loader, and only its want changes an answer |
| LoaderSafety.CallsGoThroughLookUps | src/vulkan/dynamic_backend.cc:137-221 | asking is answered one or zero; a driver call after a failed attempt would go through an address left behind, which is what never happens |
| LoaderSafety.RefusalIsFinal | src/vulkan/dynamic_backend.cc:329-337 | once an instance creation is refused for want of a loader nothing is ever recorded or called, and every later creation with good arguments is refused |

## Left out

- Counter wrap in whole runs: the results about runs assume that no counter passes 2^64; what a wrap does to one insertion is `Registries.InsertResolvesIffFree` and `Registries.UndoRestoresIffFree`.
- The driver's side: that its replies are as `NativeDriver.Conforms` says, that a failing call creates nothing, and that the symbols of destroying calls resolve (the backend skips the call where they do not) is assumed.
- Null devices left by a shortened enumeration are natives like any other in the run results; two instances that both show one are outside `NativeDriver.Conforms`. A filling call is assumed to write no more than the room it was given.
- CreateChild: stands for seven creators of one shape (src/vulkan/api.cc:1320, 1584, 1636, 1687, 1799, 1879, 1958); structure types and the null pNext of the native create-infos are constants and not spelled out.
- DestroyChild: stands for the seven destroyers in the same way.
- WaitForFences: runs its sections with nothing in between; `WaitOnFences` and `InterleavedDriver` have what may come in between.
- EnumeratePhysicalDevices: likewise, with `ListDevices`, `RegisterDevices` and `Interleaving`.
- ConformingKeepsUnique: assumes of the driver that pools of one device differ, though the handle type does not promise it; without it a destroyed pool's buffers could not be told from another's (`NativeDriver.SharedPoolLosesBuffers`).
- BindMemory: what the driver then does with the binding, and alignment, is not modelled.
- UseObjects: idle waits, resets, status and requirements queries appear as one call each that names their objects.
- QueryProperties: stands for the three queries of one structure (src/vulkan/api.cc:1003, 1031, 1059), QueryList for the two of a list (src/vulkan/api.cc:968, 1087).
- CreateInstance: runs its two sections with nothing in between; `CallCreateInstance`, `RecordInstance` and `InterleavedDriver` have what may come in between.
- Records: one datatype with two spare words in place of twelve structures; the tables are keyed by kind where the context has twelve named fields, so the cascades' statements name a kind where the source names a field.
- Guest memory in `PluginContexts` and the marshalling is the plain byte array that `Delivery.DeliveryRefinesPlainMemory` proves every mode to present; memory index 0 only, except in `DeviceCopy`.
- CopyBetweenGuestAndMappedMemory: a driver maps only ranges inside the allocation, no guest memory is 2^64 - 1 bytes long, and a flush or invalidation that fails moves nothing; handle checks and reading of the copy region are those of `Lifecycle.UseObjects`.
- GrowingMemory: one atomic length and sequentially ordered steps; memory-order effects are not modelled.
- Locks: one mutex protects each section; blocking and liveness are not modelled, nor are allocation failures and exceptions.
- Property structures are opaque elements of fixed size; field-by-field copying is not modelled.
- LoadGlobalLocked: after a call into a closed library, which no reachable state makes, the address found is left open.
- Loader: `dlopen`, `dlsym` and their Windows counterparts are functions of an abstract host; the backend set for testing is not modelled.
- The WASI file system wrapper, the plugin's export table and argument unpacking, host-API discovery, the build and the examples.
