/** What holds of every run, on its tables and on its trace of native calls. */
module RunSafety {
  import opened Results
  import opened Sequences
  import opened HandleTables
  import opened Registries
  import opened NativeDriver
  import opened Linking
  import opened Batches
  import opened Lifecycle
  import opened Admissions
  import opened TableSafety
  import opened DriverSafety
  import opened Frames
  import opened Tallies
  import opened Ownership
  import opened Validity

  ghost predicate RunWellOrdered(w: World, reqs: seq<Request>) {
    reqs != [] ==>
      RunWellOrdered(w, reqs[..|reqs| - 1]) && WellOrdered(Run(w, reqs[..|reqs| - 1]), reqs[|reqs| - 1])
  }

  lemma {:induction false} RunKeepsSound(w: World, reqs: seq<Request>)
    requires Sound(w) && RunInRange(w, reqs) && RunWellOrdered(w, reqs)
    requires ConformingTrace(Run(w, reqs).trace)
    ensures Sound(Run(w, reqs))
    decreases |reqs|
  {
    if reqs != [] {
      var n := |reqs| - 1;
      var before := Run(w, reqs[..n]);
      TraceGrows(before, reqs[n]);
      var whole := Run(w, reqs).trace;
      assert before.trace == whole[..|before.trace|];
      LegalPrefix(whole, |before.trace|);
      RunKeepsSound(w, reqs[..n]);
      StepKeepsSound(before, reqs[n]);
    }
  }

  lemma InitiallySound()
    ensures Sound(INITIAL_WORLD)
  {
    forall o: Obj ensures Drive([]).live(o) == |KeysOf(EMPTY, All(EMPTY), o)| && Surplus(INITIAL_WORLD, o) == 0 {
      assert KeysOf(EMPTY, All(EMPTY), o) == {};
    }
  }

  /** A run of the whole machine from its start. */
  ghost predicate GoodRun(reqs: seq<Request>) {
    && RunInRange(INITIAL_WORLD, reqs) && RunWellOrdered(INITIAL_WORLD, reqs)
    && ConformingTrace(Run(INITIAL_WORLD, reqs).trace)
  }

  /** Handle safety: whatever handles the guest passed, every native call of a run was valid usage. */
  lemma EveryCallIsValid(reqs: seq<Request>)
    requires GoodRun(reqs)
    ensures Forest(Run(INITIAL_WORLD, reqs).reg) && LegalTrace(Run(INITIAL_WORLD, reqs).trace)
  {
    InitiallySound();
    RunKeepsSound(INITIAL_WORLD, reqs);
  }

  ghost predicate RunSwept(w: World, reqs: seq<Request>) {
    reqs != [] ==> RunSwept(w, reqs[..|reqs| - 1]) && Swept(Run(w, reqs[..|reqs| - 1]), reqs[|reqs| - 1])
  }

  ghost predicate RunFreesOnce(w: World, reqs: seq<Request>) {
    reqs != [] ==> RunFreesOnce(w, reqs[..|reqs| - 1]) && FreesOnce(Run(w, reqs[..|reqs| - 1]), reqs[|reqs| - 1])
  }

  lemma {:induction false} RunIsWellOrdered(w: World, reqs: seq<Request>)
    requires RunSwept(w, reqs) && RunFreesOnce(w, reqs)
    ensures RunWellOrdered(w, reqs)
    decreases |reqs|
  {
    hide Swept, FreesOnce, Run;
    if reqs != [] {
      RunIsWellOrdered(w, reqs[..|reqs| - 1]);
    }
  }

  /** A free that is carried out is a valid call only for a list without repeats. */
  lemma ValidFreeIsOnce(w: World, req: Request)
    requires Sound(w) && LegalTrace(Step(w, req).world.trace)
    ensures FreesOnce(w, req)
  {
    if req.DoFreeCommandBuffers? && Step(w, req).result == SUCCESS {
      FreeIsValidIffDistinct(w, req.handle, req.pool, req.handles);
      var whole := Step(w, req).world.trace;
      assert whole[..|w.trace|] == w.trace;
    }
  }

  lemma {:induction false} ValidRunFreesOnce(w: World, reqs: seq<Request>)
    requires Sound(w) && RunInRange(w, reqs) && RunSwept(w, reqs)
    requires ConformingTrace(Run(w, reqs).trace) && LegalTrace(Run(w, reqs).trace)
    ensures RunFreesOnce(w, reqs)
    decreases |reqs|
  {
    hide Sound, Swept, FreesOnce, Step, Legal, Conforms, InRange;
    if reqs != [] {
      var n := |reqs| - 1;
      var before := Run(w, reqs[..n]);
      var whole := Run(w, reqs).trace;
      TraceGrows(before, reqs[n]);
      assert before.trace == whole[..|before.trace|];
      LegalPrefix(whole, |before.trace|);
      ValidRunFreesOnce(w, reqs[..n]);
      RunIsWellOrdered(w, reqs[..n]);
      RunKeepsSound(w, reqs[..n]);
      ValidFreeIsOnce(before, reqs[n]);
    }
  }

  /** Whatever the guest passes: every native call of a run is valid iff no list that was freed repeats a buffer. */
  lemma EveryCallIsValidIff(reqs: seq<Request>)
    requires RunInRange(INITIAL_WORLD, reqs) && RunSwept(INITIAL_WORLD, reqs)
    requires ConformingTrace(Run(INITIAL_WORLD, reqs).trace)
    ensures LegalTrace(Run(INITIAL_WORLD, reqs).trace) <==> RunFreesOnce(INITIAL_WORLD, reqs)
  {
    InitiallySound();
    if LegalTrace(Run(INITIAL_WORLD, reqs).trace) {
      ValidRunFreesOnce(INITIAL_WORLD, reqs);
    }
    if RunFreesOnce(INITIAL_WORLD, reqs) {
      RunIsWellOrdered(INITIAL_WORLD, reqs);
      EveryCallIsValid(reqs);
    }
  }

  /** Native conservation: what was created was destroyed, or one record stands for it. */
  lemma NativeObjectsAreConserved(reqs: seq<Request>, o: Obj)
    requires GoodRun(reqs)
    ensures var w := Run(INITIAL_WORLD, reqs);
      Created(w.trace, o) == Destroyed(w.trace, o) + |KeysOf(w.reg, All(w.reg), o)|
  {
    InitiallySound();
    RunKeepsSound(INITIAL_WORLD, reqs);
    hide RunInRange, RunWellOrdered, KeysOf;
    LegalTraceIsBalanced(Run(INITIAL_WORLD, reqs).trace);
    SoundCounts(Run(INITIAL_WORLD, reqs), o);
    CreatedIsDestroyedPlusLive(Run(INITIAL_WORLD, reqs).trace, o);
  }

  /** A run that leaves the tables empty has destroyed everything it created. */
  lemma NothingLeaks(reqs: seq<Request>, o: Obj)
    requires GoodRun(reqs) && Run(INITIAL_WORLD, reqs).reg.records == map[]
    ensures Created(Run(INITIAL_WORLD, reqs).trace, o) == Destroyed(Run(INITIAL_WORLD, reqs).trace, o)
  {
    var w := Run(INITIAL_WORLD, reqs);
    NativeObjectsAreConserved(reqs, o);
    assert KeysOf(w.reg, All(w.reg), o) == {};
  }

  // ---- Order of destruction on the trace ---------------------------------------------------------

  /** When a device goes, everything ever created under it is already gone. */
  lemma ChildrenGoFirst(trace: seq<Call>, i: nat, o: Obj)
    requires LegalTrace(trace) && i < |trace| && trace[i].Destroy? && trace[i].kind == Device
    requires DeviceScoped(o.kind) && o.device == trace[i].native
    ensures Created(trace[..i], o) == Destroyed(trace[..i], o)
  {
    CallAt(trace, i);
    LegalTraceIsBalanced(trace[..i]);
    CreatedIsDestroyedPlusLive(trace[..i], o);
  }

  lemma DriveSplits(trace: seq<Call>, j: nat)
    requires j < |trace|
    ensures Drive(trace[..j + 1]) == Apply(Drive(trace[..j]), trace[j])
  {
    assert trace[..j + 1][..j] == trace[..j];
  }

  /** A live device with its recorded owner. */
  ghost predicate DeviceUnder(drv: Driver, device: Native, instance: Native) {
    IsLive(drv, Device, device) && OwnerIs(drv.owner, Ref(Device, device), instance)
  }

  predicate DestroysDevice(call: Call, device: Native) {
    call.Destroy? && call.kind == Device && call.native == device
  }

  lemma DeviceStays(drv: Driver, call: Call, device: Native, instance: Native)
    requires DeviceUnder(drv, device, instance) && Legal(drv, call) && Conforms(drv, call)
    requires !DestroysDevice(call, device)
    ensures DeviceUnder(Apply(drv, call), device, instance)
  {
    ApplyLive(drv, call, Obj(Device, 0, 0, device));
    assert call.Create? && call.kind == Device ==> device !in call.made;
  }

  lemma DeviceHoldsInstance(drv: Driver, device: Native, instance: Native)
    requires DeviceUnder(drv, device, instance)
    ensures !NoDeviceOf(drv, instance)
  {
  }

  lemma DeviceBegins(drv: Driver, call: Call, device: Native)
    requires Legal(drv, call) && call.Create? && call.kind == Device && device in call.made
    ensures DeviceUnder(Apply(drv, call), device, drv.owner[Ref(PhysicalDevice, call.under)])
  {
    ApplyLive(drv, call, Obj(Device, 0, 0, device));
  }

  /** Until a call destroys it, a device stays live under its instance. */
  lemma {:induction false} DeviceStaysUntil(trace: seq<Call>, i: nat, j: nat, device: Native, instance: Native)
    requires LegalTrace(trace) && ConformingTrace(trace) && i <= j <= |trace|
    requires DeviceUnder(Drive(trace[..i]), device, instance)
    requires forall m :: i <= m < j ==> !DestroysDevice(trace[m], device)
    ensures DeviceUnder(Drive(trace[..j]), device, instance)
    decreases j
  {
    hide Legal, Conforms, Apply, DeviceUnder, DestroysDevice;
    if i < j {
      DeviceStaysUntil(trace, i, j - 1, device, instance);
      CallAt(trace, j - 1);
      DriveSplits(trace, j - 1);
      DeviceStays(Drive(trace[..j - 1]), trace[j - 1], device, instance);
    }
  }

  /** When an instance goes, every device ever created under it has been destroyed since. */
  lemma DevicesGoFirst(trace: seq<Call>, i: nat, j: nat, device: Native)
    requires LegalTrace(trace) && ConformingTrace(trace) && j < i < |trace|
    requires trace[i].Destroy? && trace[i].kind == Instance
    requires trace[j].Create? && trace[j].kind == Device && device in trace[j].made
    requires OwnerIs(Drive(trace[..j]).owner, Ref(PhysicalDevice, trace[j].under), trace[i].native)
    ensures exists m :: j < m < i && DestroysDevice(trace[m], device)
  {
    CallAt(trace, j);
    DriveSplits(trace, j);
    DeviceBegins(Drive(trace[..j]), trace[j], device);
    if forall m :: j < m < i ==> !DestroysDevice(trace[m], device) {
      DeviceStaysUntil(trace, j + 1, i, device, trace[i].native);
      CallAt(trace, i);
      DeviceHoldsInstance(Drive(trace[..i]), device, trace[i].native);
    }
  }

  predicate NamesTop(call: Call, k: Kind, native: Native) {
    match call
    case Create(made, under, _, _) => k == Device && DeviceScoped(made) && under == native
    case Retrieve(found, under, _) =>
      under == native && ((found == PhysicalDevice && k == Instance) || (found == Queue && k == Device))
    case Destroy(gone, under, n) => (gone == k && n == native) || (k == Device && Creatable(gone) && under == native)
    case FreeCommandBuffers(under, _, _) => k == Device && under == native
    case Use(device, _) => k == Device && device == native
    case Query(_) => false
  }

  lemma NamedIsLive(drv: Driver, call: Call, k: Kind, native: Native)
    requires Legal(drv, call) && NamesTop(call, k, native) && (k == Device || k == Instance)
    ensures IsLive(drv, k, native)
  {
  }

  lemma {:induction false} TraceIsUnique(trace: seq<Call>)
    requires ConformingTrace(trace)
    ensures Unique(Drive(trace))
  {
    if trace != [] {
      var n := |trace| - 1;
      TraceIsUnique(trace[..n]);
      ConformingKeepsUnique(Drive(trace[..n]), trace[n]);
    }
  }

  lemma OwnedWhenMade(drv: Driver, call: Call, d: Native)
    requires Legal(drv, call) && Unique(drv) && IsLive(Apply(drv, call), Device, d)
    requires IsLive(drv, Device, d) ==> Ref(Device, d) in drv.owner
    ensures Ref(Device, d) in Apply(drv, call).owner
  {
    ApplyLive(drv, call, Obj(Device, 0, 0, d));
    assert drv.live(Obj(Device, 0, 0, d)) <= 1;
  }

  /** On a trace of valid calls every live device has an owner. */
  lemma {:induction false} LiveDeviceIsOwned(trace: seq<Call>, d: Native)
    requires LegalTrace(trace) && ConformingTrace(trace) && IsLive(Drive(trace), Device, d)
    ensures Ref(Device, d) in Drive(trace).owner
  {
    hide Legal, Conforms, Apply, IsLive, Unique;
    if trace == [] {
      NothingIsLive(d);
    } else {
      var n := |trace| - 1;
      TraceIsUnique(trace[..n]);
      if IsLive(Drive(trace[..n]), Device, d) {
        LiveDeviceIsOwned(trace[..n], d);
      }
      OwnedWhenMade(Drive(trace[..n]), trace[n], d);
    }
  }

  lemma NothingIsLive(d: Native)
    ensures !IsLive(NativeDriver.INITIAL, Device, d)
  {
  }

  lemma DestroyEndsLife(trace: seq<Call>, i: nat, k: Kind, native: Native)
    requires ConformingTrace(trace) && i < |trace| && (k == Device || k == Instance)
    requires trace[i].Destroy? && trace[i].kind == k && trace[i].native == native
    ensures !IsLive(Drive(trace[..i + 1]), k, native)
  {
    CallAt(trace, i);
    TraceIsUnique(trace[..i]);
    assert trace[..i + 1][..i] == trace[..i];
    ApplyLive(Drive(trace[..i]), trace[i], Obj(k, 0, 0, native));
  }

  lemma OnlyCreationRevives(drv: Driver, call: Call, k: Kind, native: Native)
    requires (k == Device || k == Instance) && !IsLive(drv, k, native) && IsLive(Apply(drv, call), k, native)
    ensures call.Create? && call.kind == k && native in call.made
  {
    ApplyLive(drv, call, Obj(k, 0, 0, native));
    assert MadeBy(call, Obj(k, 0, 0, native)) > 0;
  }

  lemma {:induction false} GoneUntilCreated(trace: seq<Call>, i: nat, j: nat, k: Kind, native: Native)
    requires i <= j <= |trace| && (k == Device || k == Instance)
    requires !IsLive(Drive(trace[..i]), k, native) && IsLive(Drive(trace[..j]), k, native)
    ensures exists m :: i <= m < j && trace[m].Create? && trace[m].kind == k && native in trace[m].made
    decreases j
  {
    hide IsLive, Apply;
    if i < j {
      DriveSplits(trace, j - 1);
      if IsLive(Drive(trace[..j - 1]), k, native) {
        GoneUntilCreated(trace, i, j - 1, k, native);
      } else {
        OnlyCreationRevives(Drive(trace[..j - 1]), trace[j - 1], k, native);
      }
    }
  }

  /** A destroyed device or instance is named by no later call, unless the driver has made it anew. */
  lemma NeverNamedAfterDestroy(trace: seq<Call>, i: nat, j: nat, k: Kind, native: Native)
    requires LegalTrace(trace) && ConformingTrace(trace) && i < j < |trace|
    requires (k == Device || k == Instance) && trace[i].Destroy? && trace[i].kind == k && trace[i].native == native
    requires NamesTop(trace[j], k, native)
    ensures exists m :: i < m < j && trace[m].Create? && trace[m].kind == k && native in trace[m].made
  {
    CallAt(trace, j);
    DestroyEndsLife(trace, i, k, native);
    NamedIsLive(Drive(trace[..j]), trace[j], k, native);
    GoneUntilCreated(trace, i + 1, j, k, native);
  }

  // ---- Batches are all or nothing -------------------------------------------------------------------

  lemma AllocatedAppends(w: World, d: Handle, pool: Handle, level: nat, count: nat, env: Env)
    requires Counted(w.reg) && Next(w.reg, CommandBuffer) + |env.natives| < U64
    requires AllocateCommandBuffers(w, d, pool, level, count, env).result == SUCCESS
    ensures Appended(w.reg, CommandBuffer, RecordsFor(env.natives, d, pool, level, 0),
                     AllocateCommandBuffers(w, d, pool, level, count, env).world.reg)
  {
    InsertAllAppends(w.reg, CommandBuffer, RecordsFor(env.natives, d, pool, level, 0));
    hide InsertAll, Appended, Counted;
  }

  /** A successful allocation registers all n buffers, in order, under consecutive fresh handles. */
  lemma AllocateRegistersAll(w: World, d: Handle, pool: Handle, level: nat, count: nat, env: Env)
    requires Counted(w.reg) && Next(w.reg, CommandBuffer) + |env.natives| < U64
    requires AllocateCommandBuffers(w, d, pool, level, count, env).result == SUCCESS
    ensures |env.natives| == count > 0
    ensures Appended(w.reg, CommandBuffer, RecordsFor(env.natives, d, pool, level, 0),
                     AllocateCommandBuffers(w, d, pool, level, count, env).world.reg)
    ensures OneEach(w.reg, CommandBuffer, env.natives, count, d, pool, level,
                    AllocateCommandBuffers(w, d, pool, level, count, env).world.reg)
  {
    hide Counted, AllocateCommandBuffers, OneEach, Appended;
    AllocatedAppends(w, d, pool, level, count, env);
    AllocationRecords(w, d, pool, level, count, env);
  }

  lemma SameRecordsSameTally(w: World, after: World, o: Obj)
    requires InTally(w.reg, All(w.reg), w.trace) && InTally(after.reg, All(after.reg), after.trace)
    requires after.reg.records == w.reg.records && o.kind != Instance
    ensures Drive(after.trace).live(o) == Drive(w.trace).live(o)
  {
    hide BalancedTrace, Unique, ClosedBelow, KeysOf, Drive;
    SameKeys(w.reg, after.reg, All(w.reg), o);
  }

  lemma SameRecordsSameObjects(w: World, after: World, o: Obj)
    requires Sound(w) && Sound(after) && after.reg.records == w.reg.records
    ensures Drive(after.trace).live(o) == Drive(w.trace).live(o)
  {
    SoundCounts(w, o);
    SoundCounts(after, o);
    SoundIsClosed(w);
    hide Sound, KeysOf, ClosedBelow;
    SameKeys(w.reg, after.reg, All(w.reg), o);
  }

  lemma SoundIsClosed(w: World)
    requires Sound(w)
    ensures ClosedBelow(w.reg, All(w.reg))
  {
  }

  lemma AccountedIsCounted(w: World)
    requires Accounted(w)
    ensures Counted(w.reg)
  {
  }

  lemma FailedAllocateKeepsRecords(w: World, d: Handle, pool: Handle, level: nat, count: nat, env: Env)
    requires Counted(w.reg) && Next(w.reg, CommandBuffer) + |env.natives| < U64
    requires AllocateCommandBuffers(w, d, pool, level, count, env).result != SUCCESS
    ensures AllocateCommandBuffers(w, d, pool, level, count, env).world.reg.records == w.reg.records
  {
    RollbackRestores(w.reg, CommandBuffer, RecordsFor(env.natives, d, pool, level, 0));
    hide Counted, InsertAll, Without;
  }

  /** A failed one leaves every record and every native object as it was, wherever it failed. */
  lemma FailedAllocateRestores(w: World, d: Handle, pool: Handle, level: nat, count: nat, env: Env, o: Obj)
    requires Sound(w) && Next(w.reg, CommandBuffer) + |env.natives| < U64
    requires ConformingTrace(AllocateCommandBuffers(w, d, pool, level, count, env).world.trace)
    requires AllocateCommandBuffers(w, d, pool, level, count, env).result != SUCCESS
    ensures AllocateCommandBuffers(w, d, pool, level, count, env).world.reg.records == w.reg.records
    ensures Drive(AllocateCommandBuffers(w, d, pool, level, count, env).world.trace).live(o) == Drive(w.trace).live(o)
  {
    hide ForestBelow, Counted, InTally, InstancesLive, OwnersKnown, TopEdges, LegalTrace, Surplus;
    hide ConformingTrace, AllocateCommandBuffers, Drive, SpareFrom;
    var after := AllocateCommandBuffers(w, d, pool, level, count, env).world;
    FailedAllocateKeepsRecords(w, d, pool, level, count, env);
    if o.kind == Instance {
      AllocateSpares(w, d, pool, level, count, env);
      SparingCalls(w.trace, after.trace);
    } else {
      TallyAllocate(w, d, pool, level, count, env);
      SameRecordsSameTally(w, after, o);
    }
  }

  /** The whole list leaves the table and the driver, or nothing changes. */
  lemma FreeIsAllOrNothing(w: World, d: Handle, pool: Handle, handles: seq<Handle>, env: Env)
    requires Sound(w) && NoDup(handles)
    ensures var r := Lifecycle.FreeCommandBuffers(w, d, pool, handles, env);
      if r.result == SUCCESS then
        && r.world.reg == Without(w.reg, KeysOfKind(CommandBuffer, handles))
        && (forall h :: h in handles ==> InPool(w.reg, d, pool, h))
        && r.world.trace == w.trace + [FreeCall(w.reg, d, pool, handles)]
        && Legal(Drive(w.trace), FreeCall(w.reg, d, pool, handles))
      else r.world == w
  {
    var r := Lifecycle.FreeCommandBuffers(w, d, pool, handles, env);
    if r.result == SUCCESS {
      hide TopEdges, LegalTrace, Surplus, Counted, ForestBelow, InTally, OwnersKnown, Legal, FreeCall, NoDup;
      FreeIsLegalIff(w, d, pool, handles);
    }
  }

  /** The list may repeat a handle, and the free is then invalid: it is valid iff no handle repeats. */
  lemma FreeIsValidIffDistinct(w: World, d: Handle, pool: Handle, handles: seq<Handle>)
    requires Sound(w) && PoolOfDevice(w.reg, d, pool) && forall h :: h in handles ==> InPool(w.reg, d, pool, h)
    ensures Legal(Drive(w.trace), FreeCall(w.reg, d, pool, handles)) <==> NoDup(handles)
  {
    hide TalliedWorld, InstancesLive, OwnersKnown, TopEdges, LegalTrace, Surplus, Legal, FreeCall, NoDup;
    FreeIsLegalIff(w, d, pool, handles);
  }
}
