/**
 * When the native calls of a step are valid usage. The tables alone decide, but for three
 * requests: a call on a physical device needs an instance that reports it, and an instance
 * may not go while a device it owns is recorded under a physical device that dangles.
 */
module Validity {
  import opened Results
  import opened Sequences
  import opened HandleTables
  import opened Registries
  import opened NativeDriver
  import opened Linking
  import opened Batches
  import opened Sweeps
  import opened Lifecycle
  import opened Frames
  import opened Tallies
  import opened Ownership

  /**
   * What holds between any two moves: counts below the instances, recorded instances live,
   * owners where they resolve.
   */
  ghost predicate Accounted(w: World) {
    TalliedWorld(w) && InstancesLive(w) && OwnersKnown(w.reg, Drive(w.trace).owner)
  }

  lemma StepKeepsAccounts(w: World, req: Request)
    requires Accounted(w) && InRange(w, req) && WellOrdered(w, req) && ConformingTrace(Step(w, req).world.trace)
    requires !req.DoCreateInstance? && !req.DoEnumeratePhysicalDevices?
    ensures Accounted(Step(w, req).world)
    ensures forall o: Obj :: o.kind == Instance ==> Surplus(Step(w, req).world, o) == Surplus(w, o)
  {
    hide TalliedWorld, OwnersKnown, InRange, Swept, FreesOnce, ConformingTrace, Step, Surplus, Drive;
    StepKeepsTally(w, req);
    StepKeepsOwners(w, req);
    forall o: Obj | o.kind == Instance ensures Surplus(Step(w, req).world, o) == Surplus(w, o) {
      StepKeepsSurplus(w, req, o);
    }
  }

  // ---- Physical devices --------------------------------------------------------------

  /** Some recorded instance has reported the physical device. */
  ghost predicate Reported(w: World, native: Native) {
    exists h: Handle :: ReportedBy(w, native, h)
  }

  ghost predicate ReportedBy(w: World, native: Native, h: Handle) {
    && Key(Instance, h) in w.reg.records
    && OwnerIs(Drive(w.trace).owner, Ref(PhysicalDevice, native), NativeAt(w.reg, Key(Instance, h)))
  }

  lemma PhysicalIsLiveIff(w: World, native: Native)
    requires InstancesLive(w) && ReportersRecorded(w.reg, Drive(w.trace).owner)
    ensures PhysicalDeviceIsLive(Drive(w.trace), native) <==> Reported(w, native)
  {
    hide Surplus, Drive;
    var r := Ref(PhysicalDevice, native);
    if PhysicalDeviceIsLive(Drive(w.trace), native) {
      assert OwnerIs(Drive(w.trace).owner, r, Drive(w.trace).owner[r]);
      var h: Handle :| InstanceIs(w.reg, h, Drive(w.trace).owner[r]);
      assert ReportedBy(w, native, h);
    }
    if Reported(w, native) {
      var h: Handle :| ReportedBy(w, native, h);
      RecordedIsLive(w, h);
    }
  }

  // ---- Single calls ---------------------------------------------------------------------

  lemma DeviceLive(w: World, d: Handle)
    requires TalliedWorld(w) && Key(Device, d) in w.reg.records
    ensures IsLive(Drive(w.trace), Device, NativeAt(w.reg, Key(Device, d)))
  {
    TalliedIsLive(w.reg, All(w.reg), Drive(w.trace), Key(Device, d));
  }

  lemma PoolLive(w: World, d: Handle, pool: Handle)
    requires TalliedWorld(w) && PoolOfDevice(w.reg, d, pool)
    ensures IsLive(Drive(w.trace), Device, NativeAt(w.reg, Key(Device, d)))
    ensures Drive(w.trace).live(Obj(CommandPool, NativeAt(w.reg, Key(Device, d)), 0,
                                    NativeAt(w.reg, Key(CommandPool, pool)))) > 0
  {
    hide Tallied, Counted, ForestBelow, BalancedTrace;
    TalliedIsLive(w.reg, All(w.reg), Drive(w.trace), Key(Device, d));
    TalliedIsLive(w.reg, All(w.reg), Drive(w.trace), Key(CommandPool, pool));
  }

  /** What a creating call made can be destroyed at once. */
  lemma PoolRollbackIsLegal(drv: Driver, under: Native, native: Native)
    requires IsLive(drv, Device, under)
    ensures Legal(Apply(drv, Create(CommandPool, under, 0, [native])), Destroy(CommandPool, under, native))
  {
    var call := Create(CommandPool, under, 0, [native]);
    ApplyLive(drv, call, Obj(Device, 0, 0, under));
    ApplyLive(drv, call, Obj(CommandPool, under, 0, native));
    assert multiset([native])[native] == 1;
  }

  lemma CreateChildIsValid(w: World, k: Kind, d: Handle, word0: nat, word1: nat, env: Env)
    requires TalliedWorld(w) && Creatable(k)
    ensures LegalTrace(CreateChild(w, k, d, word0, word1, env).world.trace) <==> LegalTrace(w.trace)
  {
    hide TalliedWorld, LegalTrace, Insert, Without, Drive, Apply;
    if Key(Device, d) in w.reg.records {
      var under := NativeAt(w.reg, Key(Device, d));
      var create := Create(k, under, 0, MadeOne(env));
      DeviceLive(w, d);
      LegalSnoc(w.trace, create);
      LegalSnoc(w.trace + [create], Destroy(k, under, FirstOf(env)));
      TraceSnoc(w.trace, create);
      PoolRollbackIsLegal(Drive(w.trace), under, FirstOf(env));
    }
  }

  lemma BuffersUndoneIsLegal(drv: Driver, under: Native, pool: Native, made: seq<Native>)
    requires IsLive(drv, Device, under) && drv.live(Obj(CommandPool, under, 0, pool)) > 0
    ensures Legal(Apply(drv, Create(CommandBuffer, under, pool, made)),
                  NativeDriver.FreeCommandBuffers(under, pool, made))
  {
    var call := Create(CommandBuffer, under, pool, made);
    var after := Apply(drv, call);
    ApplyLive(drv, call, Obj(Device, 0, 0, under));
    ApplyLive(drv, call, Obj(CommandPool, under, 0, pool));
    forall n | n in made ensures multiset(made)[n] <= after.live(Obj(CommandBuffer, under, pool, n)) {
      ApplyLive(drv, call, Obj(CommandBuffer, under, pool, n));
    }
  }

  lemma AllocateIsValid(w: World, d: Handle, pool: Handle, level: nat, count: nat, env: Env)
    requires TalliedWorld(w)
    ensures LegalTrace(AllocateCommandBuffers(w, d, pool, level, count, env).world.trace) <==> LegalTrace(w.trace)
  {
    hide TalliedWorld, LegalTrace, InsertAll, Without, Drive, Apply;
    if PoolOfDevice(w.reg, d, pool) {
      var under, nativePool := NativeAt(w.reg, Key(Device, d)), NativeAt(w.reg, Key(CommandPool, pool));
      var create := Create(CommandBuffer, under, nativePool, MadeMany(env));
      PoolLive(w, d, pool);
      LegalSnoc(w.trace, create);
      LegalSnoc(w.trace + [create], NativeDriver.FreeCommandBuffers(under, nativePool, MadeMany(env)));
      TraceSnoc(w.trace, create);
      BuffersUndoneIsLegal(Drive(w.trace), under, nativePool, MadeMany(env));
    }
  }

  lemma RefsAreNamed(w: World, d: Handle, keys: seq<Key>)
    requires TalliedWorld(w)
    requires forall key :: key in keys ==> DeviceScoped(key.kind) && BelongsTo(w.reg, key, d)
    ensures forall r :: r in RefsOf(w.reg, keys) ==> Names(Drive(w.trace), NativeAt(w.reg, Key(Device, d)), r)
  {
    hide Counted, ForestBelow, BalancedTrace, Tallied;
    forall i | 0 <= i < |keys|
      ensures Names(Drive(w.trace), NativeAt(w.reg, Key(Device, d)), RefOf(w.reg, keys[i]))
    {
      assert keys[i] in keys;
      TalliedIsLive(w.reg, All(w.reg), Drive(w.trace), keys[i]);
    }
  }

  lemma UseIsValid(w: World, d: Handle, keys: seq<Key>, env: Env)
    requires TalliedWorld(w) && forall key :: key in keys ==> DeviceScoped(key.kind)
    ensures LegalTrace(UseObjects(w, d, keys, env).world.trace) <==> LegalTrace(w.trace)
  {
    hide TalliedWorld, LegalTrace, Names, RefsOf;
    if Key(Device, d) in w.reg.records && forall key :: key in keys ==> BelongsTo(w.reg, key, d) {
      DeviceLive(w, d);
      RefsAreNamed(w, d, keys);
      LegalSnoc(w.trace, Use(NativeAt(w.reg, Key(Device, d)), RefsOf(w.reg, keys)));
    }
  }

  lemma QueueWaitIsValid(w: World, q: Handle, status: int)
    requires TalliedWorld(w) && OwnersHold(w.reg, Drive(w.trace).owner)
    ensures LegalTrace(QueueWaitIdle(w, q, status).world.trace) <==> LegalTrace(w.trace)
  {
    hide TalliedWorld, LegalTrace, Drive;
    var key := Key(Queue, q);
    if key in w.reg.records && Key(Device, w.reg.records[key].parent) in w.reg.records {
      DeviceLive(w, w.reg.records[key].parent);
      assert OwnerHolds(w.reg, Drive(w.trace).owner, key);
      LegalSnoc(w.trace, Use(NativeAt(w.reg, Key(Device, w.reg.records[key].parent)), [RefOf(w.reg, key)]));
    }
  }

  lemma FreedIsLive(w: World, d: Handle, pool: Handle, handles: seq<Handle>, n: Native)
    requires TalliedWorld(w) && BuffersIn(w.reg, d, pool, handles) && NoDup(handles)
    ensures var call := FreeCall(w.reg, d, pool, handles);
      multiset(call.freed)[n] <= Drive(w.trace).live(Obj(CommandBuffer, call.under, call.pool, n))
  {
    hide Counted, ForestBelow, BalancedTrace, Tallied, Drive, BuffersIn;
    var call := FreeCall(w.reg, d, pool, handles);
    var o := Obj(CommandBuffer, call.under, call.pool, n);
    TallyAfterFree(w.reg, d, pool, handles, Drive(w.trace), o);
    assert UndoneBy(call, o, Drive(w.trace).live(o)) == multiset(call.freed)[n];
  }

  lemma DistinctFreeIsLegal(w: World, d: Handle, pool: Handle, handles: seq<Handle>)
    requires TalliedWorld(w) && PoolOfDevice(w.reg, d, pool) && BuffersIn(w.reg, d, pool, handles) && NoDup(handles)
    ensures Legal(Drive(w.trace), FreeCall(w.reg, d, pool, handles))
  {
    hide TalliedWorld, PoolOfDevice, BuffersIn, Drive, BufferNatives, NoDup, IsLive;
    PoolLive(w, d, pool);
    var call := FreeCall(w.reg, d, pool, handles);
    forall n | n in call.freed
      ensures multiset(call.freed)[n] <= Drive(w.trace).live(Obj(CommandBuffer, call.under, call.pool, n))
    {
      FreedIsLive(w, d, pool, handles, n);
    }
  }

  /** Freeing buffers of a pool is valid iff no handle of the list repeats. */
  lemma FreeIsLegalIff(w: World, d: Handle, pool: Handle, handles: seq<Handle>)
    requires TalliedWorld(w) && PoolOfDevice(w.reg, d, pool) && BuffersIn(w.reg, d, pool, handles)
    ensures Legal(Drive(w.trace), FreeCall(w.reg, d, pool, handles)) <==> NoDup(handles)
  {
    hide TalliedWorld, Legal, PoolOfDevice, BuffersIn, Drive, FreeCall, NoDup, Unique;
    if NoDup(handles) {
      DistinctFreeIsLegal(w, d, pool, handles);
    } else {
      TalliedIsUnique(w);
      RepeatedFreeIsInvalid(Drive(w.trace), w.reg, d, pool, handles);
    }
  }

  lemma RepeatsAreCounted(reg: Registry, handles: seq<Handle>, i: nat, j: nat)
    requires i < j < |handles| && handles[i] == handles[j]
    ensures multiset(BufferNatives(reg, handles))[BufferNatives(reg, handles)[i]] >= 2
  {
    var ns := BufferNatives(reg, handles);
    assert ns == ns[..j] + ([ns[j]] + ns[j + 1..]);
    assert ns[..j][i] == ns[i];
    assert multiset(ns) == multiset(ns[..j]) + multiset([ns[j]]) + multiset(ns[j + 1..]);
    assert multiset(ns[..j])[ns[i]] >= 1;
  }

  lemma RepeatedFreeIsInvalid(drv: Driver, reg: Registry, d: Handle, pool: Handle, handles: seq<Handle>)
    requires Unique(drv) && !NoDup(handles)
    ensures !Legal(drv, FreeCall(reg, d, pool, handles))
  {
    var i, j :| 0 <= i < j < |handles| && handles[i] == handles[j];
    RepeatsAreCounted(reg, handles, i, j);
    var call := FreeCall(reg, d, pool, handles);
    hide BufferNatives, FreeCall;
    assert call.freed[i] in call.freed;
    assert drv.live(Obj(CommandBuffer, call.under, call.pool, call.freed[i])) <= 1;
  }

  lemma FreeIsValid(w: World, d: Handle, pool: Handle, handles: seq<Handle>, env: Env)
    requires TalliedWorld(w)
    ensures LegalTrace(Lifecycle.FreeCommandBuffers(w, d, pool, handles, env).world.trace) <==>
            LegalTrace(w.trace) && FreesOnce(w, DoFreeCommandBuffers(d, pool, handles, env))
  {
    hide TalliedWorld, LegalTrace, Legal, FreeCall, Without, NoDup;
    if Lifecycle.FreeCommandBuffers(w, d, pool, handles, env).result == SUCCESS {
      FreeIsLegalIff(w, d, pool, handles);
      LegalSnoc(w.trace, FreeCall(w.reg, d, pool, handles));
    }
  }

  lemma DestroyChildIsValid(w: World, k: Kind, d: Handle, h: Handle)
    requires TalliedWorld(w) && Creatable(k)
    ensures LegalTrace(DestroyChild(w, k, d, h).world.trace) <==> LegalTrace(w.trace)
  {
    var key := Key(k, h);
    if Key(Device, d) in w.reg.records && BelongsTo(w.reg, key, d) {
      TallyDropped(w.reg, w.trace, key);
      hide Legal;
      LegalSnoc(w.trace, DestroyCall(w.reg, key));
    }
  }

  // ---- Destroying an instance ----------------------------------------------------------------

  /** A device whose physical device's instance is gone. */
  predicate Orphan(reg: Registry, d: Handle) {
    Key(Device, d) in reg.records && !Resolves(reg, Key(Device, d))
  }

  /** The driver owns no orphan to this instance. */
  ghost predicate OwnsNoOrphan(w: World, i: Handle) {
    forall d: Handle {:trigger Orphan(w.reg, d)} :: Orphan(w.reg, d) ==>
      !OwnerIs(Drive(w.trace).owner, Ref(Device, NativeAt(w.reg, Key(Device, d))), NativeAt(w.reg, Key(Instance, i)))
  }

  lemma LiveDeviceIsRecorded(reg: Registry, drv: Driver, native: Native)
    requires Tallied(reg, All(reg), drv)
    ensures IsLive(drv, Device, native) <==> exists d: Handle :: DeviceOf(reg, d, native)
  {
    var o := Obj(Device, 0, 0, native);
    if IsLive(drv, Device, native) {
      assert KeysOf(reg, All(reg), o) != {};
      var key :| key in KeysOf(reg, All(reg), o);
      assert key == Key(Device, key.handle) && DeviceOf(reg, key.handle, native);
    }
    if d: Handle :| DeviceOf(reg, d, native) {
      TalliedIsLive(reg, All(reg), drv, Key(Device, d));
    }
  }

  predicate DeviceOf(reg: Registry, d: Handle, native: Native) {
    Key(Device, d) in reg.records && reg.records[Key(Device, d)].native == native
  }

  lemma {:induction false} SweepShrinksOwners(reg: Registry, sweep: seq<Key>, trace: seq<Call>, r: Ref, x: Native)
    requires OwnerIs(Drive(trace + SweepCalls(reg, sweep)).owner, r, x)
    ensures OwnerIs(Drive(trace).owner, r, x)
    decreases |sweep|
  {
    hide Apply, DestroyCall, MapSeq, OwnerIs;
    if sweep == [] {
      assert trace + SweepCalls(reg, sweep) == trace;
    } else {
      var n := |sweep| - 1;
      assert sweep[..n + 1] == sweep;
      SweepCallsSnoc(reg, sweep, n, trace);
      TraceSnoc(trace + SweepCalls(reg, sweep[..n]), DestroyCall(reg, sweep[n]));
      DestroyShrinksOwners(Drive(trace + SweepCalls(reg, sweep[..n])), reg, sweep[n], r, x);
      SweepShrinksOwners(reg, sweep[..n], trace, r, x);
    }
  }

  lemma DestroyShrinksOwners(drv: Driver, reg: Registry, key: Key, r: Ref, x: Native)
    requires OwnerIs(Apply(drv, DestroyCall(reg, key)).owner, r, x)
    ensures OwnerIs(drv.owner, r, x)
  {
  }

  lemma DevicesOfResolve(reg: Registry, i: Handle, d: Handle)
    requires d in DevicesOf(reg, i) && Key(Instance, i) in reg.records
    ensures Key(Device, d) in reg.records && Resolves(reg, Key(Device, d))
  {
    var key :| key in reg.records && key.kind == Device && key.handle == d
               && reg.records[key].parent in PhysicalDevicesOf(reg, i);
    assert key == Key(Device, d);
  }

  lemma OrphanSurvives(reg: Registry, i: Handle, d: Handle)
    requires Orphan(reg, d) && Key(Instance, i) in reg.records
    ensures Key(Device, d) in RemoveDevices(reg, DevicesOf(reg, i)).records
  {
    hide DevicesOf, Resolves;
    if d in DevicesOf(reg, i) {
      DevicesOfResolve(reg, i, d);
    } else {
      assert !DoomedBy(reg, DevicesOf(reg, i), Key(Device, d));
    }
  }

  /** An orphan the driver owns to the instance is there when its turn comes. */
  lemma OrphanHoldsInstance(w: World, i: Handle, sweep: seq<Key>, d: Handle)
    requires Accounted(w) && Key(Instance, i) in w.reg.records && SweepOf(w.reg, DevicesOf(w.reg, i), sweep)
    requires Orphan(w.reg, d)
    requires OwnerIs(Drive(w.trace).owner, Ref(Device, NativeAt(w.reg, Key(Device, d))),
                     NativeAt(w.reg, Key(Instance, i)))
    ensures !NoDeviceOf(Drive(w.trace + SweepCalls(w.reg, sweep)), NativeAt(w.reg, Key(Instance, i)))
  {
    var ds, key, x := DevicesOf(w.reg, i), Key(Device, d), NativeAt(w.reg, Key(Instance, i));
    var rest, swept := RemoveDevices(w.reg, ds), w.trace + SweepCalls(w.reg, sweep);
    var native := NativeAt(w.reg, key);
    OrphanSurvives(w.reg, i, d);
    TallySweeps(w.reg, ds, sweep, w.trace);
    assert DeviceOf(rest, d, native);
    hide InstancesLive, OwnersKnown, Counted, ForestBelow, BalancedTrace;
    hide ClosedBelow, CountsBelow, Unique, LegalTrace, SweepCalls;
    hide SweepOf, DevicesOf, RemoveDevices, Untaken;
    LiveDeviceIsRecorded(rest, Drive(swept), native);
    OrphanUntaken(w.reg, ds, sweep, Drive(w.trace), key, x);
    SweepKeepsOwner(w.reg, sweep, w.trace, Ref(Device, native), x);
    assert IsLive(Drive(swept), Device, native) && OwnerIs(Drive(swept).owner, Ref(Device, native), x);
  }

  lemma OrphanUntaken(reg: Registry, ds: set<Handle>, sweep: seq<Key>, drv: Driver, key: Key, x: Native)
    requires ForestBelow(reg) && Tallied(reg, All(reg), drv) && SweepOf(reg, ds, sweep)
    requires key in RemoveDevices(reg, ds).records && key.kind == Device
    ensures Untaken(reg, sweep, Ref(Device, NativeAt(reg, key)), x)
  {
    SurvivorUntaken(reg, ds, sweep, drv, key);
  }

  /** Every device the cascade leaves is someone else's. */
  lemma SurvivorIsAnothers(w: World, i: Handle, sweep: seq<Key>, d: Handle)
    requires Accounted(w) && Key(Instance, i) in w.reg.records && SweepOf(w.reg, DevicesOf(w.reg, i), sweep)
    requires OwnsNoOrphan(w, i) && Key(Device, d) in RemoveDevices(w.reg, DevicesOf(w.reg, i)).records
    ensures !OwnerIs(Drive(w.trace + SweepCalls(w.reg, sweep)).owner,
                     Ref(Device, NativeAt(w.reg, Key(Device, d))), NativeAt(w.reg, Key(Instance, i)))
  {
    var key, x := Key(Device, d), NativeAt(w.reg, Key(Instance, i));
    var r := Ref(Device, NativeAt(w.reg, key));
    hide TalliedWorld, InstancesLive, ReportersRecorded, SweepOf, SweepCalls, Drive;
    if OwnerIs(Drive(w.trace + SweepCalls(w.reg, sweep)).owner, r, x) {
      SweepShrinksOwners(w.reg, sweep, w.trace, r, x);
      if !Orphan(w.reg, d) {
        assert OwnerHolds(w.reg, Drive(w.trace).owner, key);
        RootIsAnother(w, i, d);
      }
    }
  }

  lemma RootIsAnother(w: World, i: Handle, d: Handle)
    requires TalliedWorld(w) && InstancesLive(w) && Key(Instance, i) in w.reg.records
    requires Key(Device, d) in RemoveDevices(w.reg, DevicesOf(w.reg, i)).records && Resolves(w.reg, Key(Device, d))
    ensures OwnerOf(w.reg, Key(Device, d)) != NativeAt(w.reg, Key(Instance, i))
  {
    hide TalliedWorld, InstancesLive;
    var key := Key(Device, d);
    var physical := Key(PhysicalDevice, w.reg.records[key].parent);
    var j := w.reg.records[physical].parent;
    assert !DoomedBy(w.reg, DevicesOf(w.reg, i), key);
    assert j == i ==> physical.handle in PhysicalDevicesOf(w.reg, i);
    assert j == i ==> d in DevicesOf(w.reg, i);
    if OwnerOf(w.reg, key) == NativeAt(w.reg, Key(Instance, i)) {
      TalliedIsUnique(w);
      OneInstance(w, i, j);
    }
  }

  lemma OthersLetInstanceGo(w: World, i: Handle, sweep: seq<Key>)
    requires Accounted(w) && Key(Instance, i) in w.reg.records && SweepOf(w.reg, DevicesOf(w.reg, i), sweep)
    requires OwnsNoOrphan(w, i)
    ensures NoDeviceOf(Drive(w.trace + SweepCalls(w.reg, sweep)), NativeAt(w.reg, Key(Instance, i)))
  {
    var x := NativeAt(w.reg, Key(Instance, i));
    var ds, swept := DevicesOf(w.reg, i), w.trace + SweepCalls(w.reg, sweep);
    TallySweeps(w.reg, ds, sweep, w.trace);
    hide InstancesLive, OwnersKnown, SweepOf, SweepCalls, Tallied;
    hide BalancedTrace, LegalTrace, Drive, RemoveDevices, IsLive;
    hide Counted, ForestBelow, OwnsNoOrphan;
    forall n | IsLive(Drive(swept), Device, n) ensures !OwnerIs(Drive(swept).owner, Ref(Device, n), x) {
      LiveDeviceIsRecorded(RemoveDevices(w.reg, ds), Drive(swept), n);
      var d: Handle :| DeviceOf(RemoveDevices(w.reg, ds), d, n);
      SurvivorIsHere(w.reg, ds, d, n);
      SurvivorIsAnothers(w, i, sweep, d);
    }
  }

  lemma SurvivorIsHere(reg: Registry, ds: set<Handle>, d: Handle, native: Native)
    requires DeviceOf(RemoveDevices(reg, ds), d, native)
    ensures Key(Device, d) in RemoveDevices(reg, ds).records && NativeAt(reg, Key(Device, d)) == native
  {
  }

  lemma InstanceStaysLive(w: World, i: Handle, sweep: seq<Key>)
    requires InstancesLive(w) && Key(Instance, i) in w.reg.records && SweepOf(w.reg, DevicesOf(w.reg, i), sweep)
    ensures IsLive(Drive(w.trace + SweepCalls(w.reg, sweep)), Instance, NativeAt(w.reg, Key(Instance, i)))
  {
    hide Surplus, SweepOf, SweepCalls, DevicesOf, Drive;
    RecordedIsLive(w, i);
    SweepSpares(w.reg, DevicesOf(w.reg, i), sweep, w.trace);
    SparingCalls(w.trace, w.trace + SweepCalls(w.reg, sweep));
  }

  lemma InstanceCallIsLegalIff(w: World, i: Handle, sweep: seq<Key>)
    requires Accounted(w) && Key(Instance, i) in w.reg.records && SweepOf(w.reg, DevicesOf(w.reg, i), sweep)
    ensures Legal(Drive(w.trace + SweepCalls(w.reg, sweep)), DestroyCall(w.reg, Key(Instance, i))) <==>
            OwnsNoOrphan(w, i)
  {
    hide TalliedWorld, InstancesLive, OwnersKnown, SweepOf, SweepCalls, DevicesOf, Drive, NoDeviceOf, IsLive, OwnerIs;
    InstanceStaysLive(w, i, sweep);
    if OwnsNoOrphan(w, i) {
      OthersLetInstanceGo(w, i, sweep);
    } else {
      var x := NativeAt(w.reg, Key(Instance, i));
      var d: Handle :| Orphan(w.reg, d)
        && OwnerIs(Drive(w.trace).owner, Ref(Device, NativeAt(w.reg, Key(Device, d))), x);
      OrphanHoldsInstance(w, i, sweep, d);
    }
  }

  lemma DestroyInstanceIsValidIff(w: World, i: Handle, sweep: seq<Key>)
    requires Accounted(w) && Swept(w, DoDestroyInstance(i, sweep)) && Key(Instance, i) in w.reg.records
    ensures LegalTrace(DestroyInstance(w, i, sweep).world.trace) <==> LegalTrace(w.trace) && OwnsNoOrphan(w, i)
  {
    InstanceCallIsLegalIff(w, i, sweep);
    TallySweeps(w.reg, DevicesOf(w.reg, i), sweep, w.trace);
    hide Accounted, SweepOf, SweepCalls, OwnsNoOrphan, LegalTrace, Legal, InTally, RemoveInstance;
    LegalSnoc(w.trace + SweepCalls(w.reg, sweep), DestroyCall(w.reg, Key(Instance, i)));
  }

  // ---- Every step ---------------------------------------------------------------------------------

  /** What the native calls of a step need beyond what the tables check. */
  ghost predicate ValidHere(w: World, req: Request) {
    match req
    case DoQueryPhysicalDevice(p, _, _, env) => OnPhysicalDevice(w, p, env) ==>
      Reported(w, NativeAt(w.reg, Key(PhysicalDevice, p)))
    case DoCreateDevice(p, env) => OnPhysicalDevice(w, p, env) ==> Reported(w, NativeAt(w.reg, Key(PhysicalDevice, p)))
    case DoDestroyInstance(i, _) => Key(Instance, i) in w.reg.records ==> OwnsNoOrphan(w, i)
    case DoFreeCommandBuffers(_, _, _, _) => FreesOnce(w, req)
    case _ => true
  }

  predicate OnPhysicalDevice(w: World, p: Handle, env: Env) {
    env.argsOk && env.decoded && Key(PhysicalDevice, p) in w.reg.records
  }

  lemma PhysicalCallIsValidIff(w: World, call: Call, p: Handle)
    requires Accounted(w)
    requires var native := NativeAt(w.reg, Key(PhysicalDevice, p));
      call == Query(native) || (call.Create? && call.kind == Device && call.under == native)
    ensures LegalTrace(w.trace + [call]) <==>
            LegalTrace(w.trace) && Reported(w, NativeAt(w.reg, Key(PhysicalDevice, p)))
  {
    hide TalliedWorld, InstancesLive, ReportersRecorded, LegalTrace, Reported, PhysicalDeviceIsLive, Drive;
    PhysicalIsLiveIff(w, NativeAt(w.reg, Key(PhysicalDevice, p)));
    LegalSnoc(w.trace, call);
  }

  lemma OnPhysicalIsValidIff(w: World, req: Request)
    requires Accounted(w) && (req.DoQueryPhysicalDevice? || req.DoCreateDevice?)
    ensures LegalTrace(Step(w, req).world.trace) <==> LegalTrace(w.trace) && ValidHere(w, req)
  {
    hide Accounted, LegalTrace, Reported, Insert;
    var native := NativeAt(w.reg, Key(PhysicalDevice, req.handle));
    PhysicalCallIsValidIff(w, Query(native), req.handle);
    PhysicalCallIsValidIff(w, Create(Device, native, 0, MadeOne(req.env)), req.handle);
  }

  lemma QueueIsValid(w: World, d: Handle, family: nat, index: nat, env: Env)
    requires TalliedWorld(w)
    ensures LegalTrace(GetDeviceQueue(w, d, family, index, env).world.trace) <==> LegalTrace(w.trace)
  {
    hide TalliedWorld, LegalTrace, Insert;
    if Key(Device, d) in w.reg.records {
      DeviceLive(w, d);
      LegalSnoc(w.trace, Retrieve(Queue, NativeAt(w.reg, Key(Device, d)), MadeOne(env)));
    }
  }

  lemma DestroyDeviceIsValid(w: World, d: Handle, sweep: seq<Key>)
    requires TalliedWorld(w) && Swept(w, DoDestroyDevice(d, sweep))
    ensures LegalTrace(DestroyDevice(w, d, sweep).world.trace) <==> LegalTrace(w.trace)
  {
    hide LegalTrace, InTally, SweepOf, SweepCalls, RemoveDevices;
    if Key(Device, d) in w.reg.records {
      TallySweeps(w.reg, {d}, sweep, w.trace);
    }
  }

  lemma InstanceCallsAreValid(w: World, req: Request)
    requires Accounted(w) && (req.DoCreateInstance? || req.DoEnumeratePhysicalDevices?)
    ensures LegalTrace(Step(w, req).world.trace) <==> LegalTrace(w.trace)
  {
    hide TalliedWorld, OwnersKnown, LegalTrace, Insert, InsertAll, Shown, Surplus, Drive;
    match req
    case DoCreateInstance(env) => LegalSnoc(w.trace, Create(Instance, 0, 0, MadeOne(env)));
    case DoEnumeratePhysicalDevices(i, _, env) =>
      if Key(Instance, i) in w.reg.records {
        RecordedIsLive(w, i);
        LegalSnoc(w.trace, Retrieve(PhysicalDevice, NativeAt(w.reg, Key(Instance, i)),
                                    if env.status < 0 then [] else env.natives));
      }
  }

  /** The calls of a step are valid iff the step meets ValidHere. */
  lemma StepIsValidIff(w: World, req: Request)
    requires Accounted(w) && InRange(w, req) && Swept(w, req)
    ensures LegalTrace(Step(w, req).world.trace) <==> LegalTrace(w.trace) && ValidHere(w, req)
  {
    if req.DoQueryPhysicalDevice? || req.DoCreateDevice? {
      OnPhysicalIsValidIff(w, req);
    } else if req.DoCreateInstance? || req.DoEnumeratePhysicalDevices? {
      InstanceCallsAreValid(w, req);
    } else {
      OtherStepIsValidIff(w, req);
    }
  }

  lemma OtherStepIsValidIff(w: World, req: Request)
    requires Accounted(w) && InRange(w, req) && Swept(w, req)
    requires !req.DoQueryPhysicalDevice? && !req.DoCreateDevice?
    requires !req.DoCreateInstance? && !req.DoEnumeratePhysicalDevices?
    ensures LegalTrace(Step(w, req).world.trace) <==> LegalTrace(w.trace) && ValidHere(w, req)
  {
    hide TalliedWorld, InstancesLive, ReportersRecorded, OwnersHold, Swept, FreesOnce, LegalTrace, OwnsNoOrphan, Drive;
    match req
    case DoDestroyInstance(i, sweep) =>
      if Key(Instance, i) in w.reg.records {
        DestroyInstanceIsValidIff(w, i, sweep);
      }
    case DoDestroyDevice(d, sweep) => DestroyDeviceIsValid(w, d, sweep);
    case DoGetDeviceQueue(d, family, index, env) => QueueIsValid(w, d, family, index, env);
    case DoCreateChild(k, d, word0, word1, env) => CreateChildIsValid(w, k, d, word0, word1, env);
    case DoDestroyChild(k, d, h) => DestroyChildIsValid(w, k, d, h);
    case DoAllocateCommandBuffers(d, pool, level, count, env) => AllocateIsValid(w, d, pool, level, count, env);
    case DoFreeCommandBuffers(d, pool, hs, env) => FreeIsValid(w, d, pool, hs, env);
    case DoUseObjects(d, keys, env) => UseIsValid(w, d, keys, env);
    case DoQueueWaitIdle(q, status) => QueueWaitIsValid(w, q, status);
  }

  // ---- Instances and physical devices arrive ---------------------------------------------------------

  /** A call that creates, destroys and hands out nothing. */
  lemma QuietCallAccounts(w: World, call: Call)
    requires Accounted(w) && Neutral(call) && Quiet(call) && Spares(call)
    ensures Accounted(Calling(w, call)) && Drive(w.trace + [call]).owner == Drive(w.trace).owner
    ensures forall o: Obj :: o.kind == Instance ==> Surplus(Calling(w, call), o) == Surplus(w, o)
  {
    hide ForestBelow, Counted, InTally, OwnersKnown, KeysOf, Drive;
    TallyNeutral(w.reg, w.trace, call);
    QuietCall(w.trace, call);
    TraceSnoc(w.trace, call);
    SparingCall(Drive(w.trace), call);
  }

  /** Below the instances, creating one changes nothing. */
  lemma InstanceCallTally(reg: Registry, trace: seq<Call>, native: Native)
    requires InTally(reg, All(reg), trace) && Conforms(Drive(trace), Create(Instance, 0, 0, [native]))
    ensures InTally(reg, All(reg), trace + [Create(Instance, 0, 0, [native])])
  {
    var call := Create(Instance, 0, 0, [native]);
    hide BalancedTrace, KeysOf, ClosedBelow, Conforms;
    ConformingKeepsUnique(Drive(trace), call);
    forall o: Obj | o.kind != Instance ensures Apply(Drive(trace), call).live(o) == Drive(trace).live(o) {
      ApplyLive(Drive(trace), call, o);
    }
    TallySnoc(reg, All(reg), trace, call, trace + [call]);
  }

  lemma InstanceCalled(w: World, native: Native)
    requires Accounted(w) && ConformingTrace(w.trace + [Create(Instance, 0, 0, [native])])
    ensures var after := Calling(w, Create(Instance, 0, 0, [native]));
      && Accounted(after) && Drive(after.trace).owner == Drive(w.trace).owner
      && forall o: Obj :: o.kind == Instance ==>
        Surplus(after, o) == Surplus(w, o) + if o == Obj(Instance, 0, 0, native) then 1 else 0
  {
    hide ForestBelow, Counted, InTally, OwnersKnown, KeysOf, Drive, Conforms, ConformingTrace, Apply;
    var call := Create(Instance, 0, 0, [native]);
    TraceSnoc(w.trace, call);
    InstanceCallTally(w.reg, w.trace, native);
    QuietCall(w.trace, call);
    forall o: Obj | o.kind == Instance
      ensures Surplus(Calling(w, call), o) == Surplus(w, o) + if o == Obj(Instance, 0, 0, native) then 1 else 0
    {
      InstanceMade(Drive(w.trace), native, o);
    }
  }

  /** Recording an instance changes nothing below the instances. */
  lemma InstanceRecordTally(reg: Registry, trace: seq<Call>, record: Record)
    requires ForestBelow(reg) && Counted(reg) && Next(reg, Instance) + 1 < U64 && InTally(reg, All(reg), trace)
    ensures var after := Insert(reg, Instance, record);
      ForestBelow(after) && Counted(after) && InTally(after, All(after), trace)
  {
    hide BalancedTrace, KeysOf, EdgeHolds, Insert;
    var after := Insert(reg, Instance, record);
    InsertAdds(reg, Instance, record);
    InsertKeepsForest(reg, Instance, record);
    ForestBelowIsClosedBelow(after);
    forall o: Obj | o.kind != Instance ensures Drive(trace).live(o) == |KeysOf(after, All(after), o)| {
      NewInstanceCounts(reg, record, o);
    }
  }

  lemma InstanceEntered(w: World, native: Native)
    requires Accounted(w) && TopEdgesMinted(w.reg) && Next(w.reg, Instance) + 1 < U64
    requires Surplus(w, Obj(Instance, 0, 0, native)) >= 1
    ensures var after := w.(reg := Insert(w.reg, Instance, Record(native, 0, 0, 0, 0)));
      && Accounted(after)
      && forall o: Obj :: o.kind == Instance ==>
        Surplus(after, o) == Surplus(w, o) - if o == Obj(Instance, 0, 0, native) then 1 else 0
  {
    hide ForestBelow, Counted, InTally, TopEdgesMinted, OwnersKnown, KeysOf, Drive, Insert;
    var record := Record(native, 0, 0, 0, 0);
    InstanceRecordTally(w.reg, w.trace, record);
    InstanceRecordOwned(w.reg, Drive(w.trace).owner, record);
    forall o: Obj | o.kind == Instance
      ensures Surplus(w.(reg := Insert(w.reg, Instance, record)), o)
           == Surplus(w, o) - if o == Obj(Instance, 0, 0, native) then 1 else 0
    {
      NewInstanceCounts(w.reg, record, o);
    }
  }

  lemma DevicesListed(w: World, i: Handle, found: seq<Native>)
    requires Accounted(w) && Key(Instance, i) in w.reg.records
    requires ConformingTrace(w.trace + [Retrieve(PhysicalDevice, NativeAt(w.reg, Key(Instance, i)), found)])
    ensures var after := Calling(w, Retrieve(PhysicalDevice, NativeAt(w.reg, Key(Instance, i)), found));
      && Accounted(after) && ShownOwned(after.reg, Drive(after.trace).owner, i, found)
      && (forall o: Obj :: o.kind == Instance ==> Surplus(after, o) == Surplus(w, o))
      && forall r: Ref, x: Native :: OwnerIs(Drive(w.trace).owner, r, x) ==> OwnerIs(Drive(after.trace).owner, r, x)
  {
    hide ForestBelow, Counted, InTally, OwnersKnown, KeysOf, Drive, ConformingTrace, ShownOwned, OwnerIs;
    var call := Retrieve(PhysicalDevice, NativeAt(w.reg, Key(Instance, i)), found);
    TallyNeutral(w.reg, w.trace, call);
    ListedOwned(w.reg, w.trace, i, found);
    TraceSnoc(w.trace, call);
    forall o: Obj | o.kind == Instance ensures Drive(w.trace + [call]).live(o) == Drive(w.trace).live(o) {
      ApplyLive(Drive(w.trace), call, o);
    }
  }

  lemma DevicesEntered(w: World, i: Handle, shown: seq<Native>)
    requires Accounted(w) && Next(w.reg, PhysicalDevice) + |shown| < U64
    requires ShownOwned(w.reg, Drive(w.trace).owner, i, shown)
    ensures var after := w.(reg := InsertAll(w.reg, PhysicalDevice, PhysicalRecords(i, shown)));
      Accounted(after) && forall o: Obj :: o.kind == Instance ==> Surplus(after, o) == Surplus(w, o)
  {
    hide InTally, OwnersKnown, EdgeHolds, KeysOf, InsertAll, Appended, Drive, ShownOwned;
    var records := PhysicalRecords(i, shown);
    var after := w.(reg := InsertAll(w.reg, PhysicalDevice, records));
    InsertAllAppends(w.reg, PhysicalDevice, records);
    InsertAllKeepsForest(w.reg, PhysicalDevice, records);
    TallyRetrieved(w.reg, w.trace, PhysicalDevice, records);
    RegisteredOwned(w.reg, Drive(w.trace).owner, i, shown);
    InsertAllKeepsOthers(w.reg, PhysicalDevice, records, {Instance});
    forall o: Obj | o.kind == Instance ensures Surplus(after, o) == Surplus(w, o) {
      SameInstanceKeys(w.reg, after.reg, o);
    }
  }
}
