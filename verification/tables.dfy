/**
 * What every step keeps of the tables, whatever the guest passes and the driver
 * answers: the ownership forest, the counters, and that no handle comes back.
 */
module TableSafety {
  import opened Results
  import opened HandleTables
  import opened Registries
  import opened Batches
  import opened Sweeps
  import opened Lifecycle

  /** Sound tables; the top edges are claimed only if they held before. */
  ghost predicate Kept(before: Registry, after: Registry) {
    && ForestBelow(after) && Counted(after) && Evolves(before, after)
    && (TopEdges(before) ==> TopEdges(after))
  }

  lemma UnchangedIsKept(reg: Registry)
    requires ForestBelow(reg) && Counted(reg)
    ensures Kept(reg, reg)
  {
  }

  lemma InsertKept(reg: Registry, k: Kind, record: Record)
    requires ForestBelow(reg) && Counted(reg) && Next(reg, k) + 1 < U64 && ParentsPresent(reg, k, record)
    requires k == PhysicalDevice ==> Key(Instance, record.parent) in reg.records
    ensures Kept(reg, Insert(reg, k, record))
  {
    InsertAdds(reg, k, record);
    InsertKeepsForest(reg, k, record);
  }

  lemma InsertAllKept(reg: Registry, k: Kind, records: seq<Record>)
    requires ForestBelow(reg) && Counted(reg) && Next(reg, k) + |records| < U64
    requires forall r :: r in records ==> ParentsPresent(reg, k, r)
    requires k == PhysicalDevice ==> forall r :: r in records ==> Key(Instance, r.parent) in reg.records
    ensures Kept(reg, InsertAll(reg, k, records))
  {
    InsertAllAppends(reg, k, records);
    InsertAllKeepsForest(reg, k, records);
    AppendedEvolves(reg, k, records, InsertAll(reg, k, records));
  }

  lemma WithoutKept(reg: Registry, keys: set<Key>)
    requires ForestBelow(reg) && Counted(reg) && Removable(reg, keys)
    ensures Kept(reg, Without(reg, keys))
  {
    WithoutKeeps(reg, keys);
  }

  lemma KeptTransitive(a: Registry, b: Registry, c: Registry)
    requires Kept(a, b) && Kept(b, c)
    ensures Kept(a, c)
  {
    EvolvesTransitive(a, b, c);
  }

  lemma RemoveDevicesKept(reg: Registry, ds: set<Handle>)
    requires ForestBelow(reg) && Counted(reg)
    ensures Kept(reg, RemoveDevices(reg, ds))
  {
    DoomedRemovable(reg, ds);
    WithoutKept(reg, Doomed(reg, ds));
  }

  lemma InstanceKeysRemovable(reg: Registry, instance: Handle)
    requires ForestBelow(reg)
    ensures var rest := RemoveDevices(reg, DevicesOf(reg, instance)); Removable(rest, InstanceKeys(reg, instance))
  {
    var rest := RemoveDevices(reg, DevicesOf(reg, instance));
    forall key | key in rest.records && key !in InstanceKeys(reg, instance) && key.kind != Instance
      ensures Key(ParentKind(key.kind), rest.records[key].parent) !in InstanceKeys(reg, instance)
    {
      if key.kind == PhysicalDevice {
        assert reg.records[key].parent == instance ==> key.handle in PhysicalDevicesOf(reg, instance);
      } else if key.kind == Device {
        assert reg.records[key].parent in PhysicalDevicesOf(reg, instance) ==> key.handle in DevicesOf(reg, instance);
      }
    }
  }

  lemma RemoveInstanceKept(reg: Registry, instance: Handle)
    requires ForestBelow(reg) && Counted(reg)
    ensures Kept(reg, RemoveInstance(reg, instance))
  {
    var rest := RemoveDevices(reg, DevicesOf(reg, instance));
    RemoveDevicesKept(reg, DevicesOf(reg, instance));
    InstanceKeysRemovable(reg, instance);
    WithoutKept(rest, InstanceKeys(reg, instance));
    KeptTransitive(reg, rest, RemoveInstance(reg, instance));
  }

  lemma DroppedRemovable(reg: Registry, key: Key)
    requires ForestBelow(reg) && Creatable(key.kind)
    ensures Removable(reg, Dropped(reg, key))
  {
    forall k | k in reg.records ensures EdgeHolds(reg, k) {}
  }

  lemma BuffersRemovable(reg: Registry, handles: seq<Handle>)
    ensures Removable(reg, KeysOfKind(CommandBuffer, handles))
  {
  }

  lemma SameRecordsKept(reg: Registry, after: Registry)
    requires ForestBelow(reg) && Counted(reg) && after.records == reg.records
    requires forall k :: Counter(reg.next, k) <= Counter(after.next, k)
    ensures Kept(reg, after)
  {
    forall key | key in after.records ensures EdgeHolds(after, key) {
      assert EdgeHolds(reg, key);
    }
  }

  lemma PoolRollback(reg: Registry, record: Record)
    requires Counted(reg) && Next(reg, CommandPool) + 1 < U64
    ensures Without(Insert(reg, CommandPool, record), {Key(CommandPool, Next(reg, CommandPool))}).records == reg.records
  {
    InsertAdds(reg, CommandPool, record);
  }

  lemma CreateChildKept(w: World, k: Kind, device: Handle, word0: nat, word1: nat, env: Env)
    requires ForestBelow(w.reg) && Counted(w.reg) && Creatable(k) && Next(w.reg, k) + 1 < U64
    ensures Kept(w.reg, CreateChild(w, k, device, word0, word1, env).world.reg)
  {
    var after := CreateChild(w, k, device, word0, word1, env).world.reg;
    if env.argsOk && env.decoded && env.status == SUCCESS && Key(Device, device) in w.reg.records {
      var record := Record(MadeOne(env)[0], device, 0, word0, word1);
      InsertKept(w.reg, k, record);
      if k == CommandPool && !env.published {
        PoolRollback(w.reg, record);
        InsertAdds(w.reg, k, record);
        SameRecordsKept(w.reg, after);
      }
    } else {
      SameRecordsKept(w.reg, after);
    }
  }

  lemma AllocateKept(w: World, device: Handle, pool: Handle, level: nat, count: nat, env: Env)
    requires ForestBelow(w.reg) && Counted(w.reg) && Next(w.reg, CommandBuffer) + |env.natives| < U64
    ensures Kept(w.reg, AllocateCommandBuffers(w, device, pool, level, count, env).world.reg)
  {
    hide Kept, ForestBelow, InsertAll;
    var after := AllocateCommandBuffers(w, device, pool, level, count, env);
    if Key(Device, device) in w.reg.records && BelongsTo(w.reg, Key(CommandPool, pool), device) &&
       |env.natives| == count {
      var records := RecordsFor(env.natives, device, pool, level, 0);
      if after.result == SUCCESS {
        InsertAllKept(w.reg, CommandBuffer, records);
      } else {
        RollbackRestores(w.reg, CommandBuffer, records);
        SameRecordsKept(w.reg, after.world.reg);
      }
    } else {
      SameRecordsKept(w.reg, after.world.reg);
    }
  }

  lemma RootKept(w: World, env: Env)
    requires ForestBelow(w.reg) && Counted(w.reg) && Next(w.reg, Instance) + 1 < U64
    ensures Kept(w.reg, CreateInstance(w, env).world.reg)
  {
    if env.status == SUCCESS {
      InsertKept(w.reg, Instance, Record(MadeOne(env)[0], 0, 0, 0, 0));
    }
  }

  lemma EnumerateKept(w: World, i: Handle, capacity: nat, env: Env)
    requires ForestBelow(w.reg) && Counted(w.reg) && Next(w.reg, PhysicalDevice) + |env.natives| < U64
    ensures Kept(w.reg, EnumeratePhysicalDevices(w, i, capacity, env).world.reg)
  {
    if Key(Instance, i) in w.reg.records {
      InsertAllKept(w.reg, PhysicalDevice, PhysicalRecords(i, Shown(capacity, env.natives)));
    }
  }

  lemma CreateDeviceKept(w: World, p: Handle, env: Env)
    requires ForestBelow(w.reg) && Counted(w.reg) && Next(w.reg, Device) + 1 < U64
    ensures Kept(w.reg, CreateDevice(w, p, env).world.reg)
  {
    if Key(PhysicalDevice, p) in w.reg.records && env.status == SUCCESS {
      InsertKept(w.reg, Device, Record(MadeOne(env)[0], p, 0, 0, 0));
    }
  }

  lemma QueueKept(w: World, d: Handle, family: nat, index: nat, env: Env)
    requires ForestBelow(w.reg) && Counted(w.reg) && Next(w.reg, Queue) + 1 < U64
    ensures Kept(w.reg, GetDeviceQueue(w, d, family, index, env).world.reg)
  {
    if Key(Device, d) in w.reg.records && env.status == SUCCESS {
      InsertKept(w.reg, Queue, Record(MadeOne(env)[0], d, 0, family, index));
    }
  }

  lemma DestroyChildKept(w: World, k: Kind, d: Handle, h: Handle)
    requires ForestBelow(w.reg) && Counted(w.reg) && Creatable(k)
    ensures Kept(w.reg, DestroyChild(w, k, d, h).world.reg)
  {
    DroppedRemovable(w.reg, Key(k, h));
    WithoutKept(w.reg, Dropped(w.reg, Key(k, h)));
  }

  lemma FreeKept(w: World, d: Handle, pool: Handle, handles: seq<Handle>, env: Env)
    requires ForestBelow(w.reg) && Counted(w.reg)
    ensures Kept(w.reg, FreeCommandBuffers(w, d, pool, handles, env).world.reg)
  {
    BuffersRemovable(w.reg, handles);
    WithoutKept(w.reg, KeysOfKind(CommandBuffer, handles));
  }

  lemma CascadeKept(w: World, handle: Handle, sweep: seq<Key>)
    requires ForestBelow(w.reg) && Counted(w.reg)
    ensures Kept(w.reg, DestroyInstance(w, handle, sweep).world.reg)
    ensures Kept(w.reg, DestroyDevice(w, handle, sweep).world.reg)
  {
    hide Kept, Counted, ForestBelow, RemoveInstance, RemoveDevices;
    UnchangedIsKept(w.reg);
    RemoveInstanceKept(w.reg, handle);
    RemoveDevicesKept(w.reg, {handle});
  }

  /** One request, arbitrary handles and replies: the tables stay sound and only evolve. */
  lemma StepKeepsTables(w: World, req: Request)
    requires ForestBelow(w.reg) && Counted(w.reg) && InRange(w, req)
    ensures Kept(w.reg, Step(w, req).world.reg)
  {
    hide Kept, Counted, ForestBelow, CreateInstance, CreateDevice, CreateChild, DestroyInstance, DestroyDevice;
    match req
    case DoCreateInstance(env) => RootKept(w, env);
    case DoDestroyInstance(i, sweep) => CascadeKept(w, i, sweep);
    case DoEnumeratePhysicalDevices(i, capacity, env) => EnumerateKept(w, i, capacity, env);
    case DoQueryPhysicalDevice(_, _, _, _) => UnchangedIsKept(w.reg);
    case DoCreateDevice(p, env) => CreateDeviceKept(w, p, env);
    case DoDestroyDevice(d, sweep) => CascadeKept(w, d, sweep);
    case DoGetDeviceQueue(d, family, index, env) => QueueKept(w, d, family, index, env);
    case DoCreateChild(k, d, word0, word1, env) => CreateChildKept(w, k, d, word0, word1, env);
    case DoDestroyChild(k, d, h) => DestroyChildKept(w, k, d, h);
    case DoAllocateCommandBuffers(d, pool, level, count, env) => AllocateKept(w, d, pool, level, count, env);
    case DoFreeCommandBuffers(d, pool, hs, env) => FreeKept(w, d, pool, hs, env);
    case DoUseObjects(d, keys, env) => UnchangedIsKept(w.reg);
    case DoQueueWaitIdle(q, status) => UnchangedIsKept(w.reg);
  }

  ghost predicate RunInRange(w: World, reqs: seq<Request>) {
    reqs != [] ==>
      RunInRange(w, reqs[..|reqs| - 1]) && InRange(Run(w, reqs[..|reqs| - 1]), reqs[|reqs| - 1])
  }

  /** Over a whole run the forest stands, and the tables only evolve. */
  lemma {:induction false} RunKeepsForest(w: World, reqs: seq<Request>)
    requires Forest(w.reg) && Counted(w.reg) && RunInRange(w, reqs)
    ensures Forest(Run(w, reqs).reg) && Counted(Run(w, reqs).reg) && Evolves(w.reg, Run(w, reqs).reg)
    decreases |reqs|
  {
    if reqs != [] {
      var n := |reqs| - 1;
      RunKeepsForest(w, reqs[..n]);
      StepKeepsTables(Run(w, reqs[..n]), reqs[n]);
      EvolvesTransitive(w.reg, Run(w, reqs[..n]).reg, Run(w, reqs).reg);
    }
  }

  /** No resurrection: a key gone between two points of a run never resolves again. */
  lemma ErasedStaysErased(w: World, first: seq<Request>, second: seq<Request>, third: seq<Request>, key: Key)
    requires Forest(w.reg) && Counted(w.reg)
    requires RunInRange(w, first) && RunInRange(Run(w, first), second) && RunInRange(Run(Run(w, first), second), third)
    requires key in Run(w, first).reg.records && key !in Run(Run(w, first), second).reg.records
    ensures key !in Run(Run(Run(w, first), second), third).reg.records
  {
    RunKeepsForest(w, first);
    RunKeepsForest(Run(w, first), second);
    RunKeepsForest(Run(Run(w, first), second), third);
  }

  /** A handle that resolves at two points of a run names one unchanged record. */
  lemma ResolvesToSameRecord(w: World, first: seq<Request>, second: seq<Request>, key: Key)
    requires Forest(w.reg) && Counted(w.reg)
    requires RunInRange(w, first) && RunInRange(Run(w, first), second)
    requires key in Run(w, first).reg.records && key in Run(Run(w, first), second).reg.records
    ensures Run(w, first).reg.records[key] == Run(Run(w, first), second).reg.records[key]
  {
    RunKeepsForest(w, first);
    RunKeepsForest(Run(w, first), second);
  }
}
