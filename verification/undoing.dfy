/** What a destruction undoes: creating an object and destroying it restores tables and driver. */
module Undoing {
  import opened Results
  import opened HandleTables
  import opened Registries
  import opened NativeDriver
  import opened Lifecycle
  import opened DriverSafety
  import opened Frames
  import opened Validity
  import opened RunSafety

  ghost predicate Unowned(reg: Registry, k: Kind, handle: Handle) {
    forall key :: key in reg.records ==>
      && (key.kind != Instance && ParentKind(key.kind) == k ==> reg.records[key].parent != handle)
      && (key.kind == CommandBuffer && k == CommandPool ==> reg.records[key].pool != handle)
  }

  /** Nothing in a forest hangs under a handle that is yet to be minted. */
  lemma NextIsUnowned(reg: Registry, k: Kind)
    requires Forest(reg) && Counted(reg)
    ensures Unowned(reg, k, Next(reg, k))
  {
    forall key | key in reg.records
      ensures key.kind != Instance && ParentKind(key.kind) == k ==> reg.records[key].parent != Next(reg, k)
      ensures key.kind == CommandBuffer && k == CommandPool ==> reg.records[key].pool != Next(reg, k)
    {
      assert EdgeHolds(reg, key);
    }
  }

  /** A run's end with the records it began with has the live objects it began with. */
  lemma SameObjectsAgain(w: World, after: World, o: Obj)
    requires Sound(w) && Sound(after) && after.reg.records == w.reg.records
    ensures Drive(after.trace).live(o) == Drive(w.trace).live(o)
  {
    SameRecordsSameObjects(w, after, o);
  }

  // ---- A new object goes alone ----------------------------------------------------------

  lemma NewChildDropsAlone(reg: Registry, k: Kind, record: Record)
    requires Forest(reg) && Counted(reg) && Creatable(k) && Next(reg, k) + 1 < U64
    ensures var key := Key(k, Next(reg, k));
      var added := Insert(reg, k, record);
      Dropped(added, key) == {key} && Without(added, {key}).records == reg.records
  {
    NextIsUnowned(reg, k);
    InsertAdds(reg, k, record);
    UndoRestoresIffFree(reg, k, record);
  }

  lemma DoomedAlone(reg: Registry, added: Registry, d: Handle, record: Record)
    requires Unowned(reg, Device, d) && Key(Device, d) !in reg.records
    requires added.records == reg.records[Key(Device, d) := record]
    ensures Doomed(added, {d}) == {Key(Device, d)}
  {
    forall key | key in Doomed(added, {d}) ensures key == Key(Device, d) {
      assert DoomedBy(added, {d}, key);
    }
  }

  lemma NewDeviceGoesAlone(reg: Registry, record: Record)
    requires Forest(reg) && Counted(reg) && Next(reg, Device) + 1 < U64
    ensures RemoveDevices(Insert(reg, Device, record), {Next(reg, Device)}).records == reg.records
  {
    hide Forest, Unowned, Doomed;
    NextIsUnowned(reg, Device);
    InsertAdds(reg, Device, record);
    UndoRestoresIffFree(reg, Device, record);
    DoomedAlone(reg, Insert(reg, Device, record), Next(reg, Device), record);
  }

  lemma DevicelessAlone(reg: Registry, added: Registry, i: Handle, record: Record)
    requires Unowned(reg, Instance, i) && added.records == reg.records[Key(Instance, i) := record]
    ensures DevicesOf(added, i) == {} && InstanceKeys(added, i) == {Key(Instance, i)} && Doomed(added, {}) == {}
  {
    forall key | key in added.records && key.kind == PhysicalDevice ensures added.records[key].parent != i {
    }
    assert PhysicalDevicesOf(added, i) == {};
    hide PhysicalDevicesOf;
    assert DevicesOf(added, i) == {} && InstanceKeys(added, i) == {Key(Instance, i)};
  }

  lemma NewInstanceGoesAlone(reg: Registry, record: Record)
    requires Forest(reg) && Counted(reg) && Next(reg, Instance) + 1 < U64
    ensures DevicesOf(Insert(reg, Instance, record), Next(reg, Instance)) == {}
    ensures RemoveInstance(Insert(reg, Instance, record), Next(reg, Instance)).records == reg.records
  {
    hide Forest, Unowned, Doomed, DevicesOf, InstanceKeys;
    NextIsUnowned(reg, Instance);
    InsertAdds(reg, Instance, record);
    UndoRestoresIffFree(reg, Instance, record);
    DevicelessAlone(reg, Insert(reg, Instance, record), Next(reg, Instance), record);
  }

  // ---- Creating and destroying ------------------------------------------------------------

  /** Two steps that leave the records as they were leave the live objects as they were. */
  lemma TwoStepsRestore(w: World, first: Request, second: Request, o: Obj)
    requires Sound(w) && InRange(w, first) && WellOrdered(w, first)
    requires InRange(Step(w, first).world, second) && WellOrdered(Step(w, first).world, second)
    requires ConformingTrace(Step(Step(w, first).world, second).world.trace)
    requires Step(Step(w, first).world, second).world.reg.records == w.reg.records
    ensures Drive(Step(Step(w, first).world, second).world.trace).live(o) == Drive(w.trace).live(o)
  {
    var middle := Step(w, first).world;
    var whole := Step(middle, second).world.trace;
    TraceGrows(middle, second);
    assert middle.trace == whole[..|middle.trace|];
    LegalPrefix(whole, |middle.trace|);
    StepKeepsSound(w, first);
    StepKeepsSound(middle, second);
    SameObjectsAgain(w, Step(middle, second).world, o);
  }

  predicate Creates(req: Request) {
    req.DoCreateInstance? || req.DoCreateDevice? || req.DoCreateChild?
  }

  /** The destruction of what a creation in w makes. */
  function UndoOf(w: World, create: Request, sweep: seq<Key>): Request
    requires Creates(create)
  {
    match create
    case DoCreateInstance(_) => DoDestroyInstance(Next(w.reg, Instance), sweep)
    case DoCreateDevice(_, _) => DoDestroyDevice(Next(w.reg, Device), sweep)
    case DoCreateChild(k, d, _, _, _) => DoDestroyChild(k, d, Next(w.reg, k))
  }

  lemma InstanceRecordsRestored(w: World, env: Env, sweep: seq<Key>)
    requires Forest(w.reg) && Counted(w.reg) && InRange(w, DoCreateInstance(env))
    requires CreateInstance(w, env).result == SUCCESS
    ensures var created := CreateInstance(w, env).world;
      var destroyed := DestroyInstance(created, Next(w.reg, Instance), sweep);
      && InRange(created, DoDestroyInstance(Next(w.reg, Instance), sweep))
      && destroyed.result == SUCCESS && destroyed.world.reg.records == w.reg.records
  {
    InsertAdds(w.reg, Instance, Record(MadeOne(env)[0], 0, 0, 0, 0));
    NewInstanceGoesAlone(w.reg, Record(MadeOne(env)[0], 0, 0, 0, 0));
  }

  lemma DeviceRecordsRestored(w: World, p: Handle, env: Env, sweep: seq<Key>)
    requires Forest(w.reg) && Counted(w.reg) && InRange(w, DoCreateDevice(p, env))
    requires CreateDevice(w, p, env).result == SUCCESS
    ensures var created := CreateDevice(w, p, env).world;
      var destroyed := DestroyDevice(created, Next(w.reg, Device), sweep);
      && InRange(created, DoDestroyDevice(Next(w.reg, Device), sweep))
      && destroyed.result == SUCCESS && destroyed.world.reg.records == w.reg.records
  {
    hide Forest, Insert, RemoveDevices;
    InsertAdds(w.reg, Device, Record(MadeOne(env)[0], p, 0, 0, 0));
    NewDeviceGoesAlone(w.reg, Record(MadeOne(env)[0], p, 0, 0, 0));
  }

  lemma ChildRecordsRestored(w: World, k: Kind, d: Handle, word0: nat, word1: nat, env: Env)
    requires Forest(w.reg) && Counted(w.reg) && InRange(w, DoCreateChild(k, d, word0, word1, env))
    requires CreateChild(w, k, d, word0, word1, env).result == SUCCESS
    ensures var created := CreateChild(w, k, d, word0, word1, env).world;
      var destroyed := DestroyChild(created, k, d, Next(w.reg, k));
      && InRange(created, DoDestroyChild(k, d, Next(w.reg, k)))
      && destroyed.result == SUCCESS && destroyed.world.reg.records == w.reg.records
  {
    hide Forest, Insert, Without, Dropped;
    InsertAdds(w.reg, k, Record(MadeOne(env)[0], d, 0, word0, word1));
    NewChildDropsAlone(w.reg, k, Record(MadeOne(env)[0], d, 0, word0, word1));
  }

  lemma RecordsAreRestored(w: World, create: Request, sweep: seq<Key>)
    requires Forest(w.reg) && Counted(w.reg) && InRange(w, create) && Creates(create)
    requires Step(w, create).result == SUCCESS
    ensures InRange(Step(w, create).world, UndoOf(w, create, sweep))
    ensures var destroyed := Step(Step(w, create).world, UndoOf(w, create, sweep));
      destroyed.result == SUCCESS && destroyed.world.reg.records == w.reg.records
  {
    hide Forest, Counted, CreateInstance, CreateDevice;
    hide CreateChild, DestroyInstance, DestroyDevice, DestroyChild, InRange;
    match create
    case DoCreateInstance(env) =>
      assert Step(w, create) == CreateInstance(w, env);
      InstanceRecordsRestored(w, env, sweep);
    case DoCreateDevice(p, env) =>
      assert Step(w, create) == CreateDevice(w, p, env);
      DeviceRecordsRestored(w, p, env, sweep);
    case DoCreateChild(k, d, word0, word1, env) =>
      assert Step(w, create) == CreateChild(w, k, d, word0, word1, env);
      ChildRecordsRestored(w, k, d, word0, word1, env);
  }

  /** Creating any object and destroying it through the handle minted restores tables and driver. */
  lemma CreationIsUndone(w: World, create: Request, sweep: seq<Key>, o: Obj)
    requires Sound(w) && InRange(w, create) && Creates(create) && Step(w, create).result == SUCCESS
    requires WellOrdered(Step(w, create).world, UndoOf(w, create, sweep))
    requires ConformingTrace(Step(Step(w, create).world, UndoOf(w, create, sweep)).world.trace)
    ensures var destroyed := Step(Step(w, create).world, UndoOf(w, create, sweep));
      && destroyed.result == SUCCESS && destroyed.world.reg.records == w.reg.records
      && Drive(destroyed.world.trace).live(o) == Drive(w.trace).live(o)
  {
    RecordsAreRestored(w, create, sweep);
    assert WellOrdered(w, create);
    TwoStepsRestore(w, create, UndoOf(w, create, sweep), o);
  }

  lemma UnpublishedRecords(w: World, k: Kind, d: Handle, word0: nat, word1: nat, env: Env)
    requires Counted(w.reg) && Next(w.reg, k) + 1 < U64
    requires Key(Device, d) in w.reg.records && env.argsOk && env.decoded && env.status == SUCCESS && !env.published
    ensures var r := CreateChild(w, k, d, word0, word1, env);
      && r.result == ERROR_GUEST_MEMORY
      && (r.world.reg.records == w.reg.records <==> k == CommandPool)
      && (k != CommandPool ==> Key(k, Next(w.reg, k)) in r.world.reg.records)
  {
    var record := Record(MadeOne(env)[0], d, 0, word0, word1);
    InsertAdds(w.reg, k, record);
    UndoRestoresIffFree(w.reg, k, record);
    hide Insert, Without, Counted;
  }

  /** When the handle cannot be written, a command pool is undone and every other object stays. */
  lemma UnpublishedIsUndoneIffPool(w: World, k: Kind, d: Handle, word0: nat, word1: nat, env: Env, o: Obj)
    requires Sound(w) && InRange(w, DoCreateChild(k, d, word0, word1, env))
    requires Key(Device, d) in w.reg.records && env.argsOk && env.decoded && env.status == SUCCESS && !env.published
    requires ConformingTrace(CreateChild(w, k, d, word0, word1, env).world.trace)
    ensures var r := CreateChild(w, k, d, word0, word1, env);
      && r.result == ERROR_GUEST_MEMORY
      && (r.world.reg.records == w.reg.records <==> k == CommandPool)
      && (k == CommandPool ==> Drive(r.world.trace).live(o) == Drive(w.trace).live(o))
      && (k != CommandPool ==> Key(k, Next(w.reg, k)) in r.world.reg.records)
  {
    hide Accounted, TopEdges, LegalTrace, Surplus, ConformingTrace, CreateChild, Counted, Drive;
    AccountedIsCounted(w);
    UnpublishedRecords(w, k, d, word0, word1, env);
    StepKeepsSound(w, DoCreateChild(k, d, word0, word1, env));
    if k == CommandPool {
      SameRecordsSameObjects(w, CreateChild(w, k, d, word0, word1, env).world, o);
    }
  }

  // ---- Aliases -------------------------------------------------------------------

  /** Asking twice for one queue gives two handles for it. */
  lemma QueueTwiceAliases(w: World, d: Handle, family: nat, index: nat, env: Env)
    requires Counted(w.reg) && Next(w.reg, Queue) + 2 < U64
    requires GetDeviceQueue(w, d, family, index, env).result == SUCCESS
    ensures var once := GetDeviceQueue(w, d, family, index, env).world;
      var twice := GetDeviceQueue(once, d, family, index, env);
      var a, b := Key(Queue, Next(w.reg, Queue)), Key(Queue, Next(once.reg, Queue));
      && twice.result == SUCCESS && a != b
      && a in twice.world.reg.records && b in twice.world.reg.records
      && twice.world.reg.records[a] == twice.world.reg.records[b]
  {
    var record := Record(MadeOne(env)[0], d, 0, family, index);
    InsertAdds(w.reg, Queue, record);
    InsertAdds(Insert(w.reg, Queue, record), Queue, record);
  }
}
