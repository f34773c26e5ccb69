/**
 * Who natively owns what the tables record: the instance above a physical device or a
 * device, the device above a queue. Where the chain of parents resolves, the driver's
 * owner is the recorded one, whatever sections of other threads came in between.
 */
module Ownership {
  import opened Results
  import opened Sequences
  import opened HandleTables
  import opened Registries
  import opened NativeDriver
  import opened Linking
  import opened Batches
  import opened Sweeps
  import opened Lifecycle
  import opened Frames
  import opened Tallies

  /** The parents of a physical device, device or queue are there, up to its native owner. */
  predicate Resolves(reg: Registry, key: Key)
    requires key in reg.records
  {
    var parent := reg.records[key].parent;
    match key.kind
    case PhysicalDevice => Key(Instance, parent) in reg.records
    case Device =>
      var physical := Key(PhysicalDevice, parent);
      physical in reg.records && Key(Instance, reg.records[physical].parent) in reg.records
    case _ => Key(Device, parent) in reg.records
  }

  ghost predicate OwnerHolds(reg: Registry, owner: map<Ref, Native>, key: Key)
    requires key in reg.records
  {
    Retrieved(key.kind) && Resolves(reg, key) ==>
      OwnerIs(owner, Ref(key.kind, reg.records[key].native), OwnerOf(reg, key))
  }

  ghost predicate OwnersHold(reg: Registry, owner: map<Ref, Native>) {
    forall key {:trigger OwnerHolds(reg, owner, key)} :: key in reg.records ==> OwnerHolds(reg, owner, key)
  }

  predicate InstanceIs(reg: Registry, h: Handle, native: Native) {
    Key(Instance, h) in reg.records && reg.records[Key(Instance, h)].native == native
  }

  /** Whoever owns a physical device is a recorded instance. */
  ghost predicate ReportersRecorded(reg: Registry, owner: map<Ref, Native>) {
    forall r: Ref, x: Native :: r.kind == PhysicalDevice && OwnerIs(owner, r, x) ==>
      exists h: Handle :: InstanceIs(reg, h, x)
  }

  ghost predicate OwnersKnown(reg: Registry, owner: map<Ref, Native>) {
    OwnersHold(reg, owner) && ReportersRecorded(reg, owner)
  }

  const TOP := {Instance, PhysicalDevice, Device, Queue}

  /** The later registry has no record of these kinds that the earlier one lacks. */
  ghost predicate From(reg: Registry, after: Registry, ks: set<Kind>) {
    forall key :: key in after.records && key.kind in ks ==>
      key in reg.records && after.records[key] == reg.records[key]
  }

  // ---- Tables that lose records ---------------------------------------------------------

  lemma FewerResolve(reg: Registry, after: Registry, key: Key)
    requires From(reg, after, TOP) && key in after.records && Retrieved(key.kind) && Resolves(after, key)
    ensures key in reg.records && Resolves(reg, key) && OwnerOf(after, key) == OwnerOf(reg, key)
    ensures after.records[key] == reg.records[key]
  {
  }

  /** Owners hold on if they do for the records that stay. */
  lemma FewerHold(reg: Registry, after: Registry, owner: map<Ref, Native>, later: map<Ref, Native>)
    requires From(reg, after, TOP) && OwnersHold(reg, owner)
    requires forall key :: key in after.records && key in reg.records && Retrieved(key.kind) && Resolves(after, key)
                           && OwnerIs(owner, Ref(key.kind, reg.records[key].native), OwnerOf(reg, key)) ==>
                             OwnerIs(later, Ref(key.kind, reg.records[key].native), OwnerOf(reg, key))
    ensures OwnersHold(after, later)
  {
    hide From, Resolves, OwnerOf, OwnerIs;
    forall key | key in after.records ensures OwnerHolds(after, later, key) {
      if Retrieved(key.kind) && Resolves(after, key) {
        FewerResolve(reg, after, key);
        assert OwnerHolds(reg, owner, key);
      }
    }
  }

  // ---- Tables that gain records -----------------------------------------------------------

  lemma OldResolve(reg: Registry, k: Kind, records: seq<Record>, after: Registry, key: Key)
    requires ForestBelow(reg) && Counted(reg) && Appended(reg, k, records, after)
    requires k == Instance ==> TopEdgesMinted(reg)
    requires key in reg.records && Retrieved(key.kind) && Resolves(after, key)
    ensures Resolves(reg, key) && OwnerOf(after, key) == OwnerOf(reg, key) && after.records[key] == reg.records[key]
  {
    assert EdgeHolds(reg, key);
    var parent := reg.records[key].parent;
    if key.kind == PhysicalDevice {
      OldInstance(reg, k, records, after, key);
    } else if key.kind == Device {
      OldInstance(reg, k, records, after, Key(PhysicalDevice, parent));
    }
  }

  lemma OldInstance(reg: Registry, k: Kind, records: seq<Record>, after: Registry, key: Key)
    requires Counted(reg) && Appended(reg, k, records, after) && (k == Instance ==> TopEdgesMinted(reg))
    requires key in reg.records && key.kind == PhysicalDevice
    requires Key(Instance, reg.records[key].parent) in after.records
    ensures Key(Instance, reg.records[key].parent) in reg.records
  {
    var i := Key(Instance, reg.records[key].parent);
    if i !in reg.records {
      AppendedNew(reg, k, records, after, i);
    }
  }

  lemma MoreHold(reg: Registry, k: Kind, records: seq<Record>, after: Registry,
          owner: map<Ref, Native>, later: map<Ref, Native>)
    requires ForestBelow(reg) && Counted(reg) && Appended(reg, k, records, after) && OwnersHold(reg, owner)
    requires k == Instance ==> TopEdgesMinted(reg)
    requires forall key :: key in reg.records && Retrieved(key.kind)
                           && OwnerIs(owner, Ref(key.kind, reg.records[key].native), OwnerOf(reg, key)) ==>
                             OwnerIs(later, Ref(key.kind, reg.records[key].native), OwnerOf(reg, key))
    requires forall key :: key in after.records && key !in reg.records ==> OwnerHolds(after, later, key)
    ensures OwnersHold(after, later)
  {
    hide ForestBelow, Counted, Appended, TopEdgesMinted, Resolves, OwnerOf, OwnerIs;
    forall key | key in after.records ensures OwnerHolds(after, later, key) {
      if key in reg.records && Retrieved(key.kind) && Resolves(after, key) {
        OldResolve(reg, k, records, after, key);
        assert OwnerHolds(reg, owner, key);
      }
    }
  }

  /** Instances stay recorded. */
  lemma ReportersStay(reg: Registry, after: Registry, owner: map<Ref, Native>, later: map<Ref, Native>)
    requires ReportersRecorded(reg, owner) && SameOf(reg, after, {Instance})
    requires forall r: Ref, x: Native :: r.kind == PhysicalDevice && OwnerIs(later, r, x) ==> OwnerIs(owner, r, x)
    ensures ReportersRecorded(after, later)
  {
    forall r: Ref, x: Native | r.kind == PhysicalDevice && OwnerIs(later, r, x)
      ensures exists h: Handle :: InstanceIs(after, h, x)
    {
      var h: Handle :| InstanceIs(reg, h, x);
      assert Key(Instance, h) in after.records;
      assert InstanceIs(after, h, x);
    }
  }

  // ---- Calls --------------------------------------------------------------------------------

  /** The call changes no owner. */
  predicate Quiet(call: Call) {
    || call.Use? || call.Query? || call.FreeCommandBuffers?
    || (call.Create? && (call.kind != Device || call.made == []))
    || (call.Retrieve? && call.found == [])
    || (call.Destroy? && call.kind != Device && call.kind != Instance)
  }

  lemma QuietCall(trace: seq<Call>, call: Call)
    requires Quiet(call)
    ensures Drive(trace + [call]).owner == Drive(trace).owner
  {
    TraceSnoc(trace, call);
  }

  lemma QuietCalls(trace: seq<Call>, first: Call, second: Call)
    requires Quiet(first) && Quiet(second)
    ensures Drive(trace + [first]).owner == Drive(trace).owner
    ensures Drive(trace + [first] + [second]).owner == Drive(trace).owner
  {
    QuietCall(trace, first);
    QuietCall(trace + [first], second);
  }

  /** Requests that record nothing at the top, and make quiet calls only. */
  predicate QuietRequest(req: Request) {
    || req.DoQueryPhysicalDevice? || req.DoCreateChild? || req.DoDestroyChild? || req.DoAllocateCommandBuffers?
    || req.DoFreeCommandBuffers? || req.DoUseObjects? || req.DoQueueWaitIdle?
  }

  lemma QuietCreateChild(w: World, k: Kind, d: Handle, word0: nat, word1: nat, env: Env)
    requires Creatable(k)
    ensures Drive(CreateChild(w, k, d, word0, word1, env).world.trace).owner == Drive(w.trace).owner
  {
    hide Insert, Without, Drive;
    var under := NativeAt(w.reg, Key(Device, d));
    QuietCalls(w.trace, Create(k, under, 0, MadeOne(env)), Destroy(k, under, FirstOf(env)));
  }

  lemma QuietAllocate(w: World, d: Handle, pool: Handle, level: nat, count: nat, env: Env)
    ensures Drive(AllocateCommandBuffers(w, d, pool, level, count, env).world.trace).owner == Drive(w.trace).owner
  {
    hide InsertAll, Without, Drive;
    var under, nativePool := NativeAt(w.reg, Key(Device, d)), NativeAt(w.reg, Key(CommandPool, pool));
    QuietCalls(w.trace, Create(CommandBuffer, under, nativePool, MadeMany(env)),
               NativeDriver.FreeCommandBuffers(under, nativePool, MadeMany(env)));
  }

  lemma QuietStep(w: World, req: Request)
    requires QuietRequest(req) && InRange(w, req)
    ensures Drive(Step(w, req).world.trace).owner == Drive(w.trace).owner
  {
    hide CreateChild, AllocateCommandBuffers, Drive, RefsOf, RefOf, FreeCall, Without, Dropped;
    match req
    case DoQueryPhysicalDevice(p, _, _, _) => QuietCall(w.trace, Query(NativeAt(w.reg, Key(PhysicalDevice, p))));
    case DoCreateChild(k, d, word0, word1, env) => QuietCreateChild(w, k, d, word0, word1, env);
    case DoDestroyChild(k, d, h) => QuietCall(w.trace, DestroyCall(w.reg, Key(k, h)));
    case DoAllocateCommandBuffers(d, pool, level, count, env) => QuietAllocate(w, d, pool, level, count, env);
    case DoFreeCommandBuffers(d, pool, hs, _) => QuietFree(w, d, pool, hs);
    case DoUseObjects(d, keys, _) => QuietCall(w.trace, Use(NativeAt(w.reg, Key(Device, d)), RefsOf(w.reg, keys)));
    case DoQueueWaitIdle(q, _) =>
      if Key(Queue, q) in w.reg.records {
        var device := Key(Device, w.reg.records[Key(Queue, q)].parent);
        QuietCall(w.trace, Use(NativeAt(w.reg, device), [RefOf(w.reg, Key(Queue, q))]));
      }
  }

  lemma QuietFree(w: World, d: Handle, pool: Handle, handles: seq<Handle>)
    ensures Drive(w.trace + [FreeCall(w.reg, d, pool, handles)]).owner == Drive(w.trace).owner
  {
    QuietCall(w.trace, FreeCall(w.reg, d, pool, handles));
  }

  lemma QuietKeepsOwners(w: World, req: Request)
    requires QuietRequest(req) && InRange(w, req) && OwnersKnown(w.reg, Drive(w.trace).owner)
    ensures OwnersKnown(Step(w, req).world.reg, Drive(Step(w, req).world.trace).owner)
  {
    hide Step, OwnerHolds, Resolves, OwnerOf;
    QuietStep(w, req);
    QuietTouchesNoTop(w, req);
    StepTouches(w, req, TOP);
    var after := Step(w, req).world.reg;
    FewerHold(w.reg, after, Drive(w.trace).owner, Drive(w.trace).owner);
    ReportersStay(w.reg, after, Drive(w.trace).owner, Drive(w.trace).owner);
  }

  lemma QuietTouchesNoTop(w: World, req: Request)
    requires QuietRequest(req) && InRange(w, req)
    ensures TOP !! Touched(req)
  {
  }

  // ---- Devices and queues ----------------------------------------------------------------------

  /** A recorded device or queue keeps its owner through the creation of a device, or the handing out of a queue. */
  lemma DeviceCallKeeps(reg: Registry, drv: Driver, call: Call, key: Key)
    requires Tallied(reg, All(reg), drv) && Conforms(drv, call)
    requires (call.Create? && call.kind == Device) || (call.Retrieve? && call.kind == Queue)
    requires key in reg.records && Retrieved(key.kind)
    requires OwnerIs(drv.owner, Ref(key.kind, reg.records[key].native), OwnerOf(reg, key))
    ensures OwnerIs(Apply(drv, call).owner, Ref(key.kind, reg.records[key].native), OwnerOf(reg, key))
  {
    if key.kind == Device && call.Create? {
      TalliedIsLive(reg, All(reg), drv, key);
      LiveIsNotMade(drv, call, reg.records[key].native);
    }
  }

  lemma LiveIsNotMade(drv: Driver, call: Call, native: Native)
    requires Conforms(drv, call) && call.Create? && call.kind == Device && IsLive(drv, Device, native)
    ensures native !in call.made
  {
    assert drv.live(ScopedObj(Device, call.under, 0, native)) > 0;
  }

  lemma DeviceIsOwned(reg: Registry, drv: Driver, record: Record)
    requires ForestBelow(reg) && Counted(reg) && Next(reg, Device) + 1 < U64 && OwnersHold(reg, drv.owner)
    requires Tallied(reg, All(reg), drv) && Key(PhysicalDevice, record.parent) in reg.records
    requires var call := Create(Device, NativeAt(reg, Key(PhysicalDevice, record.parent)), 0, [record.native]);
      Conforms(drv, call)
    ensures var call := Create(Device, NativeAt(reg, Key(PhysicalDevice, record.parent)), 0, [record.native]);
      OwnersHold(Insert(reg, Device, record), Apply(drv, call).owner)
  {
    hide ForestBelow, Counted, Tallied, Conforms, Insert, Appended;
    var physical := Key(PhysicalDevice, record.parent);
    var call := Create(Device, NativeAt(reg, physical), 0, [record.native]);
    var after := Insert(reg, Device, record);
    InsertAppends(reg, Device, record);
    assert OwnerHolds(reg, drv.owner, physical);
    forall key | key in after.records && key !in reg.records ensures OwnerHolds(after, Apply(drv, call).owner, key) {
      AppendedNew(reg, Device, [record], after, key);
      NewDeviceHolds(reg, after, drv.owner, record, key);
    }
    forall key | key in reg.records && Retrieved(key.kind)
                 && OwnerIs(drv.owner, Ref(key.kind, reg.records[key].native), OwnerOf(reg, key))
      ensures OwnerIs(Apply(drv, call).owner, Ref(key.kind, reg.records[key].native), OwnerOf(reg, key))
    {
      DeviceCallKeeps(reg, drv, call, key);
    }
    hide OwnerHolds, Apply, OwnerIs, OwnerOf, Resolves;
    MoreHold(reg, Device, [record], after, drv.owner, Apply(drv, call).owner);
  }

  lemma InsertAppends(reg: Registry, k: Kind, record: Record)
    requires Counted(reg) && Next(reg, k) + 1 < U64
    ensures Appended(reg, k, [record], Insert(reg, k, record))
    ensures Insert(reg, k, record).records == reg.records[Key(k, Next(reg, k)) := record]
  {
    InsertAllAppends(reg, k, [record]);
    InsertIsBatch(reg, k, record);
    InsertAdds(reg, k, record);
  }

  lemma NewDeviceHolds(reg: Registry, after: Registry, owner: map<Ref, Native>, record: Record, key: Key)
    requires after.records == reg.records[Key(Device, Next(reg, Device)) := record]
    requires key == Key(Device, Next(reg, Device)) && Key(PhysicalDevice, record.parent) in reg.records
    requires OwnerHolds(reg, owner, Key(PhysicalDevice, record.parent))
    ensures var call := Create(Device, NativeAt(reg, Key(PhysicalDevice, record.parent)), 0, [record.native]);
      OwnerHolds(after, OwnerAfter(owner, call), key)
  {
  }

  lemma CreateDeviceOwners(w: World, p: Handle, env: Env)
    requires TalliedWorld(w) && OwnersHold(w.reg, Drive(w.trace).owner) && Next(w.reg, Device) + 1 < U64
    requires ConformingTrace(CreateDevice(w, p, env).world.trace)
    ensures var after := CreateDevice(w, p, env).world; OwnersHold(after.reg, Drive(after.trace).owner)
  {
    hide ForestBelow, Counted, BalancedTrace, Tallied, OwnersHold, Drive, ConformingTrace, Conforms, Insert, Apply;
    if env.argsOk && env.decoded && Key(PhysicalDevice, p) in w.reg.records {
      var under := NativeAt(w.reg, Key(PhysicalDevice, p));
      var call := Create(Device, under, 0, MadeOne(env));
      TraceSnoc(w.trace, call);
      if env.status == SUCCESS {
        DeviceIsOwned(w.reg, Drive(w.trace), Record(MadeOne(env)[0], p, 0, 0, 0));
      } else {
        QuietCall(w.trace, call);
      }
    }
  }

  lemma QueueIsOwned(reg: Registry, drv: Driver, record: Record)
    requires ForestBelow(reg) && Counted(reg) && Next(reg, Queue) + 1 < U64 && OwnersHold(reg, drv.owner)
    requires Tallied(reg, All(reg), drv) && Key(Device, record.parent) in reg.records
    requires Conforms(drv, Retrieve(Queue, NativeAt(reg, Key(Device, record.parent)), [record.native]))
    ensures var call := Retrieve(Queue, NativeAt(reg, Key(Device, record.parent)), [record.native]);
      OwnersHold(Insert(reg, Queue, record), Apply(drv, call).owner)
  {
    hide ForestBelow, Counted, Tallied, Insert, Appended;
    var call := Retrieve(Queue, NativeAt(reg, Key(Device, record.parent)), [record.native]);
    var after := Insert(reg, Queue, record);
    InsertAppends(reg, Queue, record);
    forall key | key in after.records && key !in reg.records ensures OwnerHolds(after, Apply(drv, call).owner, key) {
      AppendedNew(reg, Queue, [record], after, key);
    }
    forall key | key in reg.records && Retrieved(key.kind)
                 && OwnerIs(drv.owner, Ref(key.kind, reg.records[key].native), OwnerOf(reg, key))
      ensures OwnerIs(Apply(drv, call).owner, Ref(key.kind, reg.records[key].native), OwnerOf(reg, key))
    {
      DeviceCallKeeps(reg, drv, call, key);
    }
    hide OwnerHolds, Apply, OwnerIs, OwnerOf, Resolves;
    MoreHold(reg, Queue, [record], after, drv.owner, Apply(drv, call).owner);
  }

  lemma QueueOwners(w: World, d: Handle, family: nat, index: nat, env: Env)
    requires TalliedWorld(w) && OwnersHold(w.reg, Drive(w.trace).owner) && Next(w.reg, Queue) + 1 < U64
    requires ConformingTrace(GetDeviceQueue(w, d, family, index, env).world.trace)
    ensures var after := GetDeviceQueue(w, d, family, index, env).world; OwnersHold(after.reg, Drive(after.trace).owner)
  {
    hide ForestBelow, Counted, BalancedTrace, Tallied, OwnersHold, Drive, ConformingTrace, Conforms, Insert, Apply;
    if env.argsOk && Key(Device, d) in w.reg.records {
      var call := Retrieve(Queue, NativeAt(w.reg, Key(Device, d)), MadeOne(env));
      TraceSnoc(w.trace, call);
      if env.status == SUCCESS {
        QueueIsOwned(w.reg, Drive(w.trace), Record(MadeOne(env)[0], d, 0, family, index));
      } else {
        QuietCall(w.trace, call);
      }
    }
  }

  // ---- Cascades -------------------------------------------------------------------------------

  /** No device of the sweep is r, or owns the queue r. */
  ghost predicate Untaken(reg: Registry, sweep: seq<Key>, r: Ref, x: Native) {
    forall key :: key in sweep ==>
      && key.kind != Instance
      && (key.kind == Device ==> r != Ref(Device, NativeAt(reg, key)) && !(r.kind == Queue && x == NativeAt(reg, key)))
  }

  lemma DestroyKeepsOwner(drv: Driver, reg: Registry, key: Key, r: Ref, x: Native)
    requires OwnerIs(drv.owner, r, x) && key.kind != Instance
    requires key.kind == Device ==>
      r != Ref(Device, NativeAt(reg, key)) && !(r.kind == Queue && x == NativeAt(reg, key))
    ensures OwnerIs(Apply(drv, DestroyCall(reg, key)).owner, r, x)
  {
  }

  lemma {:induction false} SweepKeepsOwner(reg: Registry, sweep: seq<Key>, trace: seq<Call>, r: Ref, x: Native)
    requires OwnerIs(Drive(trace).owner, r, x) && Untaken(reg, sweep, r, x)
    ensures OwnerIs(Drive(trace + SweepCalls(reg, sweep)).owner, r, x)
    decreases |sweep|
  {
    hide Apply, OwnerIs, NativeAt, DestroyCall, MapSeq;
    if sweep == [] {
      assert trace + SweepCalls(reg, sweep) == trace;
    } else {
      var n := |sweep| - 1;
      assert sweep[..n + 1] == sweep && sweep[n] in sweep;
      SweepKeepsOwner(reg, sweep[..n], trace, r, x);
      SweepCallsSnoc(reg, sweep, n, trace);
      TraceSnoc(trace + SweepCalls(reg, sweep[..n]), DestroyCall(reg, sweep[n]));
      DestroyKeepsOwner(Drive(trace + SweepCalls(reg, sweep[..n])), reg, sweep[n], r, x);
    }
  }

  /** A cascade takes nothing from the records it leaves. */
  lemma SurvivorUntaken(reg: Registry, ds: set<Handle>, sweep: seq<Key>, drv: Driver, key: Key)
    requires ForestBelow(reg) && Tallied(reg, All(reg), drv) && SweepOf(reg, ds, sweep)
    requires key in RemoveDevices(reg, ds).records && Retrieved(key.kind)
    ensures Untaken(reg, sweep, Ref(key.kind, reg.records[key].native), OwnerOf(reg, key))
  {
    hide ForestBelow, Tallied;
    assert key !in Doomed(reg, ds) && !DoomedBy(reg, ds, key);
    forall b | b in sweep
      ensures b.kind != Instance
      ensures b.kind == Device ==>
        && Ref(key.kind, reg.records[key].native) != Ref(Device, NativeAt(reg, b))
        && !(key.kind == Queue && OwnerOf(reg, key) == NativeAt(reg, b))
    {
      assert InSweep(reg, ds, b);
      if b.kind == Device && key.kind == Device && reg.records[key].native == NativeAt(reg, b) {
        OneTallied(reg, All(reg), drv, key, b);
      }
      if b.kind == Device && key.kind == Queue && OwnerOf(reg, key) == NativeAt(reg, b) {
        QueueHasDevice(reg, key);
        OneTallied(reg, All(reg), drv, Key(Device, reg.records[key].parent), b);
      }
    }
  }

  lemma QueueHasDevice(reg: Registry, key: Key)
    requires ForestBelow(reg) && key in reg.records && key.kind == Queue
    ensures Key(Device, reg.records[key].parent) in reg.records
  {
    assert EdgeHolds(reg, key);
  }

  lemma RemovalIsFrom(reg: Registry, gone: set<Key>, ks: set<Kind>)
    ensures From(reg, Without(reg, gone), ks)
  {
  }

  lemma SweptOwners(reg: Registry, ds: set<Handle>, sweep: seq<Key>, trace: seq<Call>)
    requires ForestBelow(reg) && Tallied(reg, All(reg), Drive(trace)) && OwnersHold(reg, Drive(trace).owner)
    requires SweepOf(reg, ds, sweep)
    ensures OwnersHold(RemoveDevices(reg, ds), Drive(trace + SweepCalls(reg, sweep)).owner)
  {
    var after := RemoveDevices(reg, ds);
    var later := Drive(trace + SweepCalls(reg, sweep)).owner;
    RemovalIsFrom(reg, Doomed(reg, ds), TOP);
    hide ForestBelow, Tallied, SweepOf, SweepCalls, Untaken, OwnersHold, From, Resolves, OwnerOf, OwnerIs;
    forall key | key in after.records && key in reg.records && Retrieved(key.kind)
                 && OwnerIs(Drive(trace).owner, Ref(key.kind, reg.records[key].native), OwnerOf(reg, key))
      ensures OwnerIs(later, Ref(key.kind, reg.records[key].native), OwnerOf(reg, key))
    {
      SurvivorUntaken(reg, ds, sweep, Drive(trace), key);
      SweepKeepsOwner(reg, sweep, trace, Ref(key.kind, reg.records[key].native), OwnerOf(reg, key));
    }
    FewerHold(reg, after, Drive(trace).owner, later);
  }

  lemma DestroyDeviceOwners(w: World, d: Handle, sweep: seq<Key>)
    requires TalliedWorld(w) && OwnersHold(w.reg, Drive(w.trace).owner) && Swept(w, DoDestroyDevice(d, sweep))
    ensures var after := DestroyDevice(w, d, sweep).world; OwnersHold(after.reg, Drive(after.trace).owner)
  {
    hide ForestBelow, Counted, BalancedTrace, Tallied, OwnersHold, Drive, SweepOf, SweepCalls, RemoveDevices;
    if Key(Device, d) in w.reg.records {
      SweptOwners(w.reg, {d}, sweep, w.trace);
    }
  }

  /** Two records of one live instance are one record. */
  lemma OneInstance(w: World, i: Handle, j: Handle)
    requires Unique(Drive(w.trace)) && InstancesLive(w)
    requires Key(Instance, i) in w.reg.records && Key(Instance, j) in w.reg.records
    requires NativeAt(w.reg, Key(Instance, i)) == NativeAt(w.reg, Key(Instance, j))
    ensures i == j
  {
    var o := Obj(Instance, 0, 0, NativeAt(w.reg, Key(Instance, i)));
    hide KeysOf;
    assert Surplus(w, o) >= 0 && Drive(w.trace).live(o) <= 1;
    OneKey(w.reg, All(w.reg), Key(Instance, i), Key(Instance, j));
  }

  lemma InstanceCallKeeps(drv: Driver, x: Native, r: Ref, y: Native)
    ensures OwnerIs(Apply(drv, Destroy(Instance, 0, x)).owner, r, y) <==>
            OwnerIs(drv.owner, r, y) && !(r.kind == PhysicalDevice && y == x)
  {
  }

  /** With its devices and physical devices gone from the tables, an instance takes no other owner along. */
  lemma DestroyInstanceOwners(w: World, i: Handle, sweep: seq<Key>)
    requires TalliedWorld(w) && InstancesLive(w) && OwnersHold(w.reg, Drive(w.trace).owner)
    requires Key(Instance, i) in w.reg.records && Swept(w, DoDestroyInstance(i, sweep))
    ensures var after := DestroyInstance(w, i, sweep).world; OwnersHold(after.reg, Drive(after.trace).owner)
  {
    var ds := DevicesOf(w.reg, i);
    var rest := RemoveDevices(w.reg, ds);
    var after := RemoveInstance(w.reg, i);
    var swept := w.trace + SweepCalls(w.reg, sweep);
    var call := DestroyCall(w.reg, Key(Instance, i));
    RemovalIsFrom(rest, InstanceKeys(w.reg, i), TOP);
    TraceSnoc(swept, call);
    SweptOwners(w.reg, ds, sweep, w.trace);
    hide TalliedWorld, SweepOf, SweepCalls, Swept, OwnersHold, DevicesOf, RemoveDevices, Apply, Drive;
    forall key | key in after.records && key in rest.records && Retrieved(key.kind) && Resolves(after, key)
                 && OwnerIs(Drive(swept).owner, Ref(key.kind, rest.records[key].native), OwnerOf(rest, key))
      ensures OwnerIs(Apply(Drive(swept), call).owner, Ref(key.kind, rest.records[key].native), OwnerOf(rest, key))
    {
      InstanceCallKeeps(Drive(swept), call.native, Ref(key.kind, rest.records[key].native), OwnerOf(rest, key));
      if key.kind == PhysicalDevice {
        OtherInstance(w, i, rest, key);
      }
    }
    FewerHold(rest, after, Drive(swept).owner, Apply(Drive(swept), call).owner);
  }

  lemma OtherInstance(w: World, i: Handle, rest: Registry, key: Key)
    requires TalliedWorld(w) && InstancesLive(w) && Key(Instance, i) in w.reg.records
    requires rest == RemoveDevices(w.reg, DevicesOf(w.reg, i))
    requires var after := RemoveInstance(w.reg, i);
      key in after.records && key.kind == PhysicalDevice && Resolves(after, key)
    ensures key in rest.records && OwnerOf(rest, key) != NativeAt(w.reg, Key(Instance, i))
  {
    hide TalliedWorld, InstancesLive;
    var j := w.reg.records[key].parent;
    InstanceGoesAlone(w.reg, i, Key(Instance, j));
    if NativeAt(w.reg, Key(Instance, i)) == NativeAt(w.reg, Key(Instance, j)) {
      TalliedIsUnique(w);
      OneInstance(w, i, j);
    }
  }

  lemma TalliedIsUnique(w: World)
    requires TalliedWorld(w)
    ensures Unique(Drive(w.trace))
  {
  }

  // ---- Who reports physical devices -----------------------------------------------------------------

  /** A report stands through a step as long as its instance is recorded. */
  lemma StepKeepsReport(w: World, req: Request, r: Ref, h: Handle, x: Native)
    requires TalliedWorld(w) && InstancesLive(w) && InRange(w, req) && Swept(w, req)
    requires !req.DoCreateInstance? && !req.DoEnumeratePhysicalDevices?
    requires r.kind == PhysicalDevice && OwnerIs(Drive(w.trace).owner, r, x)
    requires InstanceIs(w.reg, h, x) && Key(Instance, h) in Step(w, req).world.reg.records
    ensures OwnerIs(Drive(Step(w, req).world.trace).owner, r, x) && InstanceIs(Step(w, req).world.reg, h, x)
  {
    hide TalliedWorld, InstancesLive, InRange, Swept, Drive;
    if req.DoDestroyInstance? {
      if Key(Instance, req.handle) in w.reg.records {
        InstanceGoesAlone(w.reg, req.handle, Key(Instance, h));
        if x == NativeAt(w.reg, Key(Instance, req.handle)) {
          TalliedIsUnique(w);
          OneInstance(w, req.handle, h);
        }
        DestroyKeepsReports(w, req.handle, req.sweep, r, x);
      }
    } else {
      hide Step;
      StepKeepsInstances(w, req);
    }
  }

  lemma DestroyKeepsReports(w: World, i: Handle, sweep: seq<Key>, r: Ref, x: Native)
    requires Key(Instance, i) in w.reg.records && Swept(w, DoDestroyInstance(i, sweep)) && r.kind == PhysicalDevice
    ensures OwnerIs(Drive(DestroyInstance(w, i, sweep).world.trace).owner, r, x) <==>
            OwnerIs(Drive(w.trace).owner, r, x) && x != NativeAt(w.reg, Key(Instance, i))
  {
    hide SweepOf, SweepCalls, DevicesOf, Drive, Apply, RemoveInstance;
    var swept := w.trace + SweepCalls(w.reg, sweep);
    SweepSpares(w.reg, DevicesOf(w.reg, i), sweep, w.trace);
    SparingCalls(w.trace, swept);
    TraceSnoc(swept, DestroyCall(w.reg, Key(Instance, i)));
    InstanceCallKeeps(Drive(swept), NativeAt(w.reg, Key(Instance, i)), r, x);
  }

  lemma StepKeepsReporters(w: World, req: Request)
    requires InRange(w, req) && Swept(w, req) && ReportersRecorded(w.reg, Drive(w.trace).owner)
    requires !req.DoCreateInstance? && !req.DoEnumeratePhysicalDevices?
    ensures ReportersRecorded(Step(w, req).world.reg, Drive(Step(w, req).world.trace).owner)
  {
    hide InRange, Swept, Drive;
    if req.DoDestroyInstance? {
      if Key(Instance, req.handle) in w.reg.records {
        DestroyKeepsReporters(w, req.handle, req.sweep);
      }
    } else {
      hide Step, ReportersRecorded;
      StepKeepsInstances(w, req);
      ReportersStay(w.reg, Step(w, req).world.reg, Drive(w.trace).owner, Drive(Step(w, req).world.trace).owner);
    }
  }

  lemma DestroyKeepsReporters(w: World, i: Handle, sweep: seq<Key>)
    requires ReportersRecorded(w.reg, Drive(w.trace).owner)
    requires Key(Instance, i) in w.reg.records && Swept(w, DoDestroyInstance(i, sweep))
    ensures var after := DestroyInstance(w, i, sweep).world; ReportersRecorded(after.reg, Drive(after.trace).owner)
  {
    hide Swept, Drive, RemoveInstance, SweepCalls;
    var after := DestroyInstance(w, i, sweep).world;
    forall r: Ref, x: Native | r.kind == PhysicalDevice && OwnerIs(Drive(after.trace).owner, r, x)
      ensures exists h: Handle :: InstanceIs(after.reg, h, x)
    {
      DestroyKeepsReports(w, i, sweep, r, x);
      var h: Handle :| InstanceIs(w.reg, h, x);
      InstanceGoesAlone(w.reg, i, Key(Instance, h));
      assert InstanceIs(after.reg, h, x);
    }
  }

  /** Whatever is left dangling, a step keeps the owners of what resolves. */
  lemma StepKeepsOwners(w: World, req: Request)
    requires TalliedWorld(w) && InstancesLive(w) && OwnersKnown(w.reg, Drive(w.trace).owner)
    requires InRange(w, req) && Swept(w, req) && ConformingTrace(Step(w, req).world.trace)
    requires !req.DoCreateInstance? && !req.DoEnumeratePhysicalDevices?
    ensures OwnersKnown(Step(w, req).world.reg, Drive(Step(w, req).world.trace).owner)
  {
    hide TalliedWorld, InstancesLive, OwnersHold, ReportersRecorded, Swept, ConformingTrace, Drive;
    StepKeepsReporters(w, req);
    if QuietRequest(req) {
      QuietKeepsOwners(w, req);
    } else {
      LoudKeepsOwners(w, req);
    }
  }

  lemma LoudKeepsOwners(w: World, req: Request)
    requires TalliedWorld(w) && InstancesLive(w) && OwnersHold(w.reg, Drive(w.trace).owner)
    requires InRange(w, req) && Swept(w, req) && ConformingTrace(Step(w, req).world.trace)
    requires !req.DoCreateInstance? && !req.DoEnumeratePhysicalDevices? && !QuietRequest(req)
    ensures OwnersHold(Step(w, req).world.reg, Drive(Step(w, req).world.trace).owner)
  {
    hide TalliedWorld, InstancesLive, OwnersHold, Swept, ConformingTrace, Drive;
    match req
    case DoCreateDevice(p, env) => CreateDeviceOwners(w, p, env);
    case DoGetDeviceQueue(d, family, index, env) => QueueOwners(w, d, family, index, env);
    case DoDestroyDevice(d, sweep) => DestroyDeviceOwners(w, d, sweep);
    case DoDestroyInstance(i, sweep) =>
      if Key(Instance, i) in w.reg.records {
        DestroyInstanceOwners(w, i, sweep);
      }
  }

  // ---- Enumerating, and recording instances ------------------------------------------------------------

  /** If the instance is recorded, the driver reports these physical devices under it. */
  ghost predicate ShownOwned(reg: Registry, owner: map<Ref, Native>, i: Handle, shown: seq<Native>) {
    Key(Instance, i) in reg.records ==>
      forall n :: n in shown ==> OwnerIs(owner, Ref(PhysicalDevice, n), NativeAt(reg, Key(Instance, i)))
  }

  lemma ListedOwned(reg: Registry, trace: seq<Call>, i: Handle, found: seq<Native>)
    requires OwnersKnown(reg, Drive(trace).owner) && Key(Instance, i) in reg.records
    requires ConformingTrace(trace + [Retrieve(PhysicalDevice, NativeAt(reg, Key(Instance, i)), found)])
    ensures var longer := trace + [Retrieve(PhysicalDevice, NativeAt(reg, Key(Instance, i)), found)];
      && OwnersKnown(reg, Drive(longer).owner) && ShownOwned(reg, Drive(longer).owner, i, found)
      && forall r: Ref, x: Native :: OwnerIs(Drive(trace).owner, r, x) ==> OwnerIs(Drive(longer).owner, r, x)
  {
    var call := Retrieve(PhysicalDevice, NativeAt(reg, Key(Instance, i)), found);
    TraceSnoc(trace, call);
    var owner, later := Drive(trace).owner, Apply(Drive(trace), call).owner;
    assert forall r: Ref, x: Native :: OwnerIs(owner, r, x) ==> OwnerIs(later, r, x);
    FewerHold(reg, reg, owner, later);
    forall r: Ref, x: Native | r.kind == PhysicalDevice && OwnerIs(later, r, x)
      ensures exists h: Handle :: InstanceIs(reg, h, x)
    {
      if !OwnerIs(owner, r, x) {
        assert InstanceIs(reg, i, x);
      }
    }
  }

  lemma RegisteredOwned(reg: Registry, owner: map<Ref, Native>, i: Handle, shown: seq<Native>)
    requires ForestBelow(reg) && Counted(reg) && Next(reg, PhysicalDevice) + |shown| < U64
    requires OwnersKnown(reg, owner) && ShownOwned(reg, owner, i, shown)
    ensures OwnersKnown(InsertAll(reg, PhysicalDevice, PhysicalRecords(i, shown)), owner)
  {
    hide ForestBelow, Counted, OwnersHold, ReportersRecorded, InsertAll, Appended;
    var records := PhysicalRecords(i, shown);
    var after := InsertAll(reg, PhysicalDevice, records);
    InsertAllAppends(reg, PhysicalDevice, records);
    InsertAllKeepsOthers(reg, PhysicalDevice, records, {Instance});
    forall key | key in after.records && key !in reg.records ensures OwnerHolds(after, owner, key) {
      AppendedNew(reg, PhysicalDevice, records, after, key);
      assert shown[key.handle - Next(reg, PhysicalDevice)] in shown;
      assert Key(Instance, i) in after.records ==> Key(Instance, i) in reg.records;
    }
    MoreHold(reg, PhysicalDevice, records, after, owner, owner);
    ReportersStay(reg, after, owner, owner);
  }

  lemma InstanceRecordOwned(reg: Registry, owner: map<Ref, Native>, record: Record)
    requires ForestBelow(reg) && Counted(reg) && TopEdgesMinted(reg) && Next(reg, Instance) + 1 < U64
    requires OwnersKnown(reg, owner)
    ensures OwnersKnown(Insert(reg, Instance, record), owner)
  {
    hide ForestBelow, TopEdgesMinted, Insert, Appended, OwnersHold;
    var after := Insert(reg, Instance, record);
    InsertAppends(reg, Instance, record);
    forall key | key in after.records && key !in reg.records ensures OwnerHolds(after, owner, key) {
    }
    MoreHold(reg, Instance, [record], after, owner, owner);
    forall r: Ref, x: Native | r.kind == PhysicalDevice && OwnerIs(owner, r, x)
      ensures exists h: Handle :: InstanceIs(after, h, x)
    {
      var h: Handle :| InstanceIs(reg, h, x);
      NextIsFree(reg, Instance);
      assert InstanceIs(after, h, x);
    }
  }
}
