/** Runs that reach the states in which the tables' two conditional promises fail. */
module Witnesses {
  import opened Results
  import opened Registries
  import opened NativeDriver
  import opened Batches
  import opened Lifecycle
  import opened Tallies
  import opened DriverSafety
  import opened RunSafety
  import opened Undoing

  /** Everything readable and writable, and the driver answers with one native. */
  function Ok(native: Native): Env {
    Env(true, true, SUCCESS, [native], true)
  }

  const CREATE_INSTANCE := DoCreateInstance(Ok(11))
  const ENUMERATE := DoEnumeratePhysicalDevices(1, 1, Ok(12))
  const CREATE_DEVICE := DoCreateDevice(1, Ok(13))
  const CREATE_POOL := DoCreateChild(CommandPool, 1, 0, 0, Ok(14))
  const ALLOCATE := DoAllocateCommandBuffers(1, 1, 0, 1, Ok(15))
  const FREE_TWICE := DoFreeCommandBuffers(1, 1, [1, 1], Ok(0))
  const CREATE_UNSEEN_FENCE := DoCreateChild(Fence, 1, 0, 0, Ok(16).(published := false))

  const WITH_INSTANCE := [CREATE_INSTANCE]
  const WITH_PHYSICAL := WITH_INSTANCE + [ENUMERATE]
  const WITH_DEVICE := WITH_PHYSICAL + [CREATE_DEVICE]
  const WITH_POOL := WITH_DEVICE + [CREATE_POOL]
  const WITH_BUFFER := WITH_POOL + [ALLOCATE]

  /** One more record of a kind that has none yet, and one more call. */
  function Grown(w: World, k: Kind, record: Record, call: Call): World {
    World(Registry(w.reg.next[k := 2], w.reg.records[Key(k, 1) := record]), w.trace + [call])
  }

  const INSTANCE_WORLD :=
    Grown(INITIAL_WORLD, Instance, Record(11, 0, 0, 0, 0), Create(Instance, 0, 0, [11]))
  const PHYSICAL_WORLD :=
    Grown(INSTANCE_WORLD, PhysicalDevice, Record(12, 1, 0, 0, 0), Retrieve(PhysicalDevice, 11, [12]))
  const DEVICE_WORLD :=
    Grown(PHYSICAL_WORLD, Device, Record(13, 1, 0, 0, 0), Create(Device, 12, 0, [13]))
  const POOL_WORLD :=
    Grown(DEVICE_WORLD, CommandPool, Record(14, 1, 0, 0, 0), Create(CommandPool, 13, 0, [14]))
  const BUFFER_WORLD :=
    Grown(POOL_WORLD, CommandBuffer, Record(15, 1, 1, 0, 0), Create(CommandBuffer, 13, 14, [15]))

  lemma {:induction false} NeverMade(trace: seq<Call>, o: Obj)
    requires forall call :: call in trace ==> MadeBy(call, o) == 0
    ensures Drive(trace).live(o) == 0
  {
    hide MadeBy, UndoneBy;
    if trace != [] {
      var n := |trace| - 1;
      assert trace[n] in trace;
      NeverMade(trace[..n], o);
      ApplyLive(Drive(trace[..n]), trace[n], o);
    }
  }

  /** A driver may answer the first creation of a kind with any handle. */
  lemma FirstConforms(trace: seq<Call>, call: Call)
    requires ConformingTrace(trace) && call.Create? && |call.made| == 1
    requires forall c :: c in trace && c.Create? ==> c.kind != call.kind
    ensures ConformingTrace(trace + [call])
  {
    NeverMade(trace, ScopedObj(call.kind, call.under, call.pool, call.made[0]));
    assert call.made == [call.made[0]];
    var longer := trace + [call];
    assert longer[..|trace|] == trace;
  }

  /** One more request, which creates the first object of its kind. */
  lemma RunCreates(reqs: seq<Request>, req: Request, w: World, call: Call, after: World)
    requires GoodRun(reqs) && Run(INITIAL_WORLD, reqs) == w && Step(w, req).world == after
    requires InRange(w, req) && WellOrdered(w, req) && after.trace == w.trace + [call]
    requires call.Create? && |call.made| == 1 && forall c :: c in w.trace && c.Create? ==> c.kind != call.kind
    ensures GoodRun(reqs + [req]) && Run(INITIAL_WORLD, reqs + [req]) == after
  {
    hide Step, InRange, WellOrdered, ConformingTrace;
    FirstConforms(w.trace, call);
    assert (reqs + [req])[..|reqs|] == reqs;
  }

  lemma InstanceStep()
    ensures Step(INITIAL_WORLD, CREATE_INSTANCE).world == INSTANCE_WORLD
    ensures InRange(INITIAL_WORLD, CREATE_INSTANCE) && WellOrdered(INITIAL_WORLD, CREATE_INSTANCE)
  {
  }

  lemma ReachesInstance()
    ensures GoodRun(WITH_INSTANCE) && Run(INITIAL_WORLD, WITH_INSTANCE) == INSTANCE_WORLD
  {
    InstanceStep();
    hide Step, InRange, WellOrdered;
    RunCreates([], CREATE_INSTANCE, INITIAL_WORLD, Create(Instance, 0, 0, [11]), INSTANCE_WORLD);
    assert [] + [CREATE_INSTANCE] == WITH_INSTANCE;
  }

  lemma PhysicalStep()
    ensures Step(INSTANCE_WORLD, ENUMERATE).world == PHYSICAL_WORLD
    ensures InRange(INSTANCE_WORLD, ENUMERATE) && WellOrdered(INSTANCE_WORLD, ENUMERATE)
  {
    assert PhysicalRecords(1, Shown(1, [12])) == [Record(12, 1, 0, 0, 0)];
    InsertIsBatch(INSTANCE_WORLD.reg, PhysicalDevice, Record(12, 1, 0, 0, 0));
  }

  lemma ReachesPhysical()
    ensures GoodRun(WITH_PHYSICAL) && Run(INITIAL_WORLD, WITH_PHYSICAL) == PHYSICAL_WORLD
  {
    PhysicalStep();
    ReachesInstance();
    hide Step, InRange, WellOrdered;
    assert WITH_PHYSICAL[..1] == WITH_INSTANCE && PHYSICAL_WORLD.trace[..1] == INSTANCE_WORLD.trace;
    assert Conforms(Drive(INSTANCE_WORLD.trace), Retrieve(PhysicalDevice, 11, [12]));
  }

  lemma DeviceStep()
    ensures Step(PHYSICAL_WORLD, CREATE_DEVICE).world == DEVICE_WORLD
    ensures InRange(PHYSICAL_WORLD, CREATE_DEVICE) && WellOrdered(PHYSICAL_WORLD, CREATE_DEVICE)
  {
  }

  lemma ReachesDevice()
    ensures GoodRun(WITH_DEVICE) && Run(INITIAL_WORLD, WITH_DEVICE) == DEVICE_WORLD
  {
    DeviceStep();
    ReachesPhysical();
    hide Step, InRange, WellOrdered, GoodRun, Run;
    RunCreates(WITH_PHYSICAL, CREATE_DEVICE, PHYSICAL_WORLD, Create(Device, 12, 0, [13]), DEVICE_WORLD);
  }

  lemma PoolStep()
    ensures Step(DEVICE_WORLD, CREATE_POOL).world == POOL_WORLD
    ensures InRange(DEVICE_WORLD, CREATE_POOL) && WellOrdered(DEVICE_WORLD, CREATE_POOL)
  {
  }

  lemma ReachesPool()
    ensures GoodRun(WITH_POOL) && Run(INITIAL_WORLD, WITH_POOL) == POOL_WORLD
  {
    PoolStep();
    ReachesDevice();
    hide Step, InRange, WellOrdered, GoodRun, Run;
    RunCreates(WITH_DEVICE, CREATE_POOL, DEVICE_WORLD, Create(CommandPool, 13, 0, [14]), POOL_WORLD);
  }

  lemma BufferStep()
    ensures Step(POOL_WORLD, ALLOCATE).world == BUFFER_WORLD
    ensures InRange(POOL_WORLD, ALLOCATE) && WellOrdered(POOL_WORLD, ALLOCATE)
  {
    assert RecordsFor([15], 1, 1, 0, 0) == [Record(15, 1, 1, 0, 0)];
    InsertIsBatch(POOL_WORLD.reg, CommandBuffer, Record(15, 1, 1, 0, 0));
  }

  lemma ReachesBuffer()
    ensures GoodRun(WITH_BUFFER) && Run(INITIAL_WORLD, WITH_BUFFER) == BUFFER_WORLD
  {
    BufferStep();
    ReachesPool();
    hide Step, InRange, WellOrdered, GoodRun, Run;
    RunCreates(WITH_POOL, ALLOCATE, POOL_WORLD, Create(CommandBuffer, 13, 14, [15]), BUFFER_WORLD);
  }

  lemma FreeStep()
    ensures PoolOfDevice(BUFFER_WORLD.reg, 1, 1) && InPool(BUFFER_WORLD.reg, 1, 1, 1)
    ensures var r := Step(BUFFER_WORLD, FREE_TWICE);
      && r.result == SUCCESS
      && r.world.trace == BUFFER_WORLD.trace + [FreeCall(BUFFER_WORLD.reg, 1, 1, [1, 1])]
  {
  }

  /** Five calls reach a state in which a list that names one buffer twice is freed, and the free is invalid. */
  lemma FreeingTwiceIsReached()
    ensures GoodRun(WITH_BUFFER)
    ensures var w := Run(INITIAL_WORLD, WITH_BUFFER);
      && Sound(w) && PoolOfDevice(w.reg, 1, 1) && InPool(w.reg, 1, 1, 1)
      && Step(w, FREE_TWICE).result == SUCCESS
      && Step(w, FREE_TWICE).world.trace == w.trace + [FreeCall(w.reg, 1, 1, [1, 1])]
      && !Legal(Drive(w.trace), FreeCall(w.reg, 1, 1, [1, 1]))
  {
    ReachesBuffer();
    FreeStep();
    hide Step, Run, Sound, PoolOfDevice, InPool, Legal, FreeCall;
    InitiallySound();
    RunKeepsSound(INITIAL_WORLD, WITH_BUFFER);
    FreeIsValidIffDistinct(BUFFER_WORLD, 1, 1, [1, 1]);
    assert [1, 1][0] == [1, 1][1];
  }

  lemma SoundDevice()
    ensures GoodRun(WITH_DEVICE) && Sound(DEVICE_WORLD) && ConformingTrace(DEVICE_WORLD.trace)
  {
    ReachesDevice();
    hide Step, Run, Sound, ConformingTrace;
    InitiallySound();
    RunKeepsSound(INITIAL_WORLD, WITH_DEVICE);
  }

  lemma UnseenFenceStep()
    ensures InRange(DEVICE_WORLD, CREATE_UNSEEN_FENCE) && Key(Device, 1) in DEVICE_WORLD.reg.records
    ensures var created := CreateChild(DEVICE_WORLD, Fence, 1, 0, 0, Ok(16).(published := false));
      && created == Step(DEVICE_WORLD, CREATE_UNSEEN_FENCE)
      && created.world.trace == DEVICE_WORLD.trace + [Create(Fence, 13, 0, [16])]
    ensures Next(DEVICE_WORLD.reg, Fence) == 1
  {
  }

  /** A fence whose handle the guest never got: the call reports a guest memory error, and its record stays. */
  lemma UnseenFenceIsReached()
    ensures GoodRun(WITH_DEVICE)
    ensures var w := Run(INITIAL_WORLD, WITH_DEVICE);
      && Sound(w) && Step(w, CREATE_UNSEEN_FENCE).result == ERROR_GUEST_MEMORY
      && Key(Fence, 1) in Step(w, CREATE_UNSEEN_FENCE).world.reg.records
  {
    SoundDevice();
    ReachesDevice();
    UnseenFenceStep();
    hide Run, Sound, InRange, Step, CreateChild, GoodRun, ConformingTrace, Drive, Next;
    FirstConforms(DEVICE_WORLD.trace, Create(Fence, 13, 0, [16]));
    UnpublishedIsUndoneIffPool(DEVICE_WORLD, Fence, 1, 0, 0, Ok(16).(published := false), Obj(Fence, 13, 0, 16));
  }

  lemma DestroyPoolStep()
    ensures Step(DEVICE_WORLD, CREATE_POOL).result == SUCCESS
    ensures UndoOf(DEVICE_WORLD, CREATE_POOL, []) == DoDestroyChild(CommandPool, 1, 1)
    ensures WellOrdered(POOL_WORLD, DoDestroyChild(CommandPool, 1, 1))
  {
    hide Dropped, Without;
  }

  lemma DestroyPoolCall()
    ensures Step(POOL_WORLD, DoDestroyChild(CommandPool, 1, 1)).world.trace ==
            POOL_WORLD.trace + [Destroy(CommandPool, 13, 14)]
  {
    hide Dropped, Without;
  }

  lemma UndonePoolConforms()
    requires ConformingTrace(POOL_WORLD.trace)
    ensures ConformingTrace(POOL_WORLD.trace + [Destroy(CommandPool, 13, 14)])
  {
    hide Drive;
    var destroyed := POOL_WORLD.trace + [Destroy(CommandPool, 13, 14)];
    assert destroyed[..|destroyed| - 1] == POOL_WORLD.trace;
  }

  /** A pool created and destroyed again leaves everything as it was. */
  lemma PoolIsUndone(o: Obj)
    ensures GoodRun(WITH_DEVICE)
    ensures var w := Run(INITIAL_WORLD, WITH_DEVICE);
      var destroyed := Step(Step(w, CREATE_POOL).world, DoDestroyChild(CommandPool, 1, 1));
      && Sound(w) && destroyed.result == SUCCESS && destroyed.world.reg.records == w.reg.records
      && Drive(destroyed.world.trace).live(o) == Drive(w.trace).live(o)
  {
    SoundDevice();
    ReachesDevice();
    ReachesPool();
    PoolStep();
    DestroyPoolStep();
    DestroyPoolCall();
    hide Run, Sound, InRange, Step, WellOrdered, UndoOf, ConformingTrace, Drive;
    UndonePoolConforms();
    CreationIsUndone(DEVICE_WORLD, CREATE_POOL, [], o);
  }

  // ---- The counter's wrap ------------------------------------------------------------

  lemma {:induction false} FirstRecordStays(k: Kind, records: seq<Record>)
    requires records != []
    ensures var reg := InsertAll(EMPTY, k, records);
      Key(k, 1) in reg.records && reg.records[Key(k, 1)] == records[0]
  {
    if |records| == 1 {
      InsertIsBatch(EMPTY, k, records[0]);
    } else {
      FirstRecordStays(k, records[..|records| - 1]);
    }
  }

  /**
   * After 2^64 insertions the counter is back at one: the next object is given the first one's handle, and its
   * record is lost.
   */
  lemma WrapIsReached(k: Kind, records: seq<Record>, record: Record)
    requires |records| == U64 && record != records[0]
    ensures var reg := InsertAll(EMPTY, k, records);
      var key := Key(k, Next(reg, k));
      && key == Key(k, 1) && key in reg.records
      && Insert(reg, k, record).records == reg.records && reg.records[key] != record
  {
    BatchMints(EMPTY, k, records);
    FirstRecordStays(k, records);
  }
}
