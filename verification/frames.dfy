/** What a step leaves alone: records of kinds it does not touch, and instances it does not destroy. */
module Frames {
  import opened Results
  import opened HandleTables
  import opened Registries
  import opened NativeDriver
  import opened Linking
  import opened Batches
  import opened Sweeps
  import opened Lifecycle

  // ---- Records ----------------------------------------------------------------------

  /** The two registries have the same records of these kinds. */
  ghost predicate SameOf(reg: Registry, after: Registry, ks: set<Kind>) {
    && (forall key: Key :: key.kind in ks ==> (key in after.records <==> key in reg.records))
    && (forall key: Key :: key.kind in ks && key in reg.records && key in after.records ==>
          after.records[key] == reg.records[key])
  }

  lemma SameOfTransitive(a: Registry, b: Registry, c: Registry, ks: set<Kind>)
    requires SameOf(a, b, ks) && SameOf(b, c, ks)
    ensures SameOf(a, c, ks)
  {
  }

  lemma {:induction false} InsertAllKeepsOthers(reg: Registry, k: Kind, records: seq<Record>, ks: set<Kind>)
    requires k !in ks
    ensures SameOf(reg, InsertAll(reg, k, records), ks)
  {
    if records != [] {
      InsertAllKeepsOthers(reg, k, records[..|records| - 1], ks);
    }
  }

  lemma InsertKeepsOthers(reg: Registry, k: Kind, record: Record, ks: set<Kind>)
    requires k !in ks
    ensures SameOf(reg, Insert(reg, k, record), ks)
  {
  }

  lemma WithoutKeepsOthers(reg: Registry, gone: set<Key>, ks: set<Kind>)
    requires forall key :: key in gone ==> key.kind !in ks
    ensures SameOf(reg, Without(reg, gone), ks)
  {
  }

  /** The kinds whose records a request may change; creating and enumerating instances aside. */
  function Touched(req: Request): set<Kind> {
    match req
    case DoDestroyInstance(_, _) => KINDS
    case DoCreateDevice(_, _) => {Device}
    case DoDestroyDevice(_, _) => KINDS - {Instance, PhysicalDevice}
    case DoGetDeviceQueue(_, _, _, _) => {Queue}
    case DoCreateChild(k, _, _, _, _) => {k}
    case DoDestroyChild(k, _, _) => {k, CommandBuffer}
    case DoAllocateCommandBuffers(_, _, _, _, _) => {CommandBuffer}
    case DoFreeCommandBuffers(_, _, _, _) => {CommandBuffer}
    case DoCreateInstance(_) => {Instance}
    case DoEnumeratePhysicalDevices(_, _, _) => {PhysicalDevice}
    case _ => {}
  }

  lemma CreatingTouches(w: World, req: Request, ks: set<Kind>)
    requires ks !! Touched(req)
    requires req.DoCreateDevice? || req.DoGetDeviceQueue? || req.DoCreateInstance? || req.DoEnumeratePhysicalDevices?
    ensures SameOf(w.reg, Step(w, req).world.reg, ks)
  {
    hide SameOf, Insert, InsertAll;
    SameOfItself(w.reg, ks);
    match req
    case DoCreateDevice(p, env) =>
      InsertKeepsOthers(w.reg, Device, Record(FirstOf(env), p, 0, 0, 0), ks);
    case DoGetDeviceQueue(d, family, index, env) =>
      InsertKeepsOthers(w.reg, Queue, Record(FirstOf(env), d, 0, family, index), ks);
    case DoCreateInstance(env) =>
      InsertKeepsOthers(w.reg, Instance, Record(FirstOf(env), 0, 0, 0, 0), ks);
    case DoEnumeratePhysicalDevices(i, capacity, env) =>
      InsertAllKeepsOthers(w.reg, PhysicalDevice, PhysicalRecords(i, Shown(capacity, env.natives)), ks);
  }

  function FirstOf(env: Env): Native {
    if env.natives == [] then 0 else env.natives[0]
  }

  lemma SameOfItself(reg: Registry, ks: set<Kind>)
    ensures SameOf(reg, reg, ks)
  {
  }

  lemma CreateChildTouches(w: World, k: Kind, d: Handle, word0: nat, word1: nat, env: Env, ks: set<Kind>)
    requires k !in ks
    ensures SameOf(w.reg, CreateChild(w, k, d, word0, word1, env).world.reg, ks)
  {
    hide SameOf, Insert, Without;
    var added := Insert(w.reg, k, Record(FirstOf(env), d, 0, word0, word1));
    SameOfItself(w.reg, ks);
    InsertKeepsOthers(w.reg, k, Record(FirstOf(env), d, 0, word0, word1), ks);
    WithoutKeepsOthers(added, {Key(k, Next(w.reg, k))}, ks);
    SameOfTransitive(w.reg, added, Without(added, {Key(k, Next(w.reg, k))}), ks);
  }

  lemma AllocateTouches(w: World, d: Handle, pool: Handle, level: nat, count: nat, env: Env, ks: set<Kind>)
    requires CommandBuffer !in ks
    ensures SameOf(w.reg, AllocateCommandBuffers(w, d, pool, level, count, env).world.reg, ks)
  {
    hide SameOf, InsertAll, Without;
    var records := RecordsFor(env.natives, d, pool, level, 0);
    var added := InsertAll(w.reg, CommandBuffer, records);
    var minted := KeysOfKind(CommandBuffer, Minted(Next(w.reg, CommandBuffer), count));
    SameOfItself(w.reg, ks);
    InsertAllKeepsOthers(w.reg, CommandBuffer, records, ks);
    WithoutKeepsOthers(added, minted, ks);
    SameOfTransitive(w.reg, added, Without(added, minted), ks);
  }

  lemma RemovingTouches(w: World, req: Request, ks: set<Kind>)
    requires ks !! Touched(req)
    requires req.DoDestroyDevice? || req.DoDestroyChild? || req.DoFreeCommandBuffers?
    ensures SameOf(w.reg, Step(w, req).world.reg, ks)
  {
    hide SameOf, SweepCalls, DestroyCall, FreeCall;
    SameOfItself(w.reg, ks);
    match req
    case DoDestroyDevice(d, _) => DoomedAreBelow(w.reg, {d}); WithoutKeepsOthers(w.reg, Doomed(w.reg, {d}), ks);
    case DoDestroyChild(k, _, h) => WithoutKeepsOthers(w.reg, Dropped(w.reg, Key(k, h)), ks);
    case DoFreeCommandBuffers(_, _, hs, _) => WithoutKeepsOthers(w.reg, KeysOfKind(CommandBuffer, hs), ks);
  }

  lemma DoomedAreBelow(reg: Registry, ds: set<Handle>)
    ensures forall key :: key in Doomed(reg, ds) ==> key.kind in KINDS - {Instance, PhysicalDevice}
  {
    forall key | key in Doomed(reg, ds) ensures key.kind in KINDS - {Instance, PhysicalDevice} {
      KindIsListed(key.kind);
      assert DoomedBy(reg, ds, key);
    }
  }

  /** A request changes no record of a kind it does not touch. */
  lemma StepTouches(w: World, req: Request, ks: set<Kind>)
    requires ks !! Touched(req)
    ensures SameOf(w.reg, Step(w, req).world.reg, ks)
  {
    hide SameOf, CreateChild, AllocateCommandBuffers, SweepCalls, RefsOf, RefOf;
    SameOfItself(w.reg, ks);
    match req
    case DoDestroyInstance(i, sweep) =>
      forall k | k in ks ensures false {
        KindIsListed(k);
      }
      NothingAsked(w.reg, Step(w, req).world.reg, ks);
    case DoCreateChild(k, d, word0, word1, env) => CreateChildTouches(w, k, d, word0, word1, env, ks);
    case DoAllocateCommandBuffers(d, pool, level, count, env) => AllocateTouches(w, d, pool, level, count, env, ks);
    case DoQueryPhysicalDevice(_, _, _, _) =>
    case DoUseObjects(_, _, _) =>
    case DoQueueWaitIdle(_, _) =>
    case _ =>
      if req.DoDestroyDevice? || req.DoDestroyChild? || req.DoFreeCommandBuffers? {
        RemovingTouches(w, req, ks);
      } else {
        CreatingTouches(w, req, ks);
      }
  }

  lemma NothingAsked(reg: Registry, after: Registry, ks: set<Kind>)
    requires ks == {}
    ensures SameOf(reg, after, ks)
  {
  }

  // ---- Calls ------------------------------------------------------------------------

  /** The call leaves every instance alone, and who owns which physical device. */
  predicate Spares(call: Call) {
    && (call.Create? ==> call.kind != Instance || call.made == [])
    && (call.Destroy? ==> call.kind != Instance)
    && (call.Retrieve? ==> call.kind != PhysicalDevice)
  }

  ghost predicate SpareFrom(trace: seq<Call>, longer: seq<Call>) {
    trace <= longer && forall j :: |trace| <= j < |longer| ==> Spares(longer[j])
  }

  /** Instances, and owners of physical devices, are the same in both. */
  ghost predicate SameTop(drv: Driver, after: Driver) {
    && (forall o: Obj :: o.kind == Instance ==> after.live(o) == drv.live(o))
    && (forall r: Ref, x: Native ::
          r.kind == PhysicalDevice ==> (OwnerIs(after.owner, r, x) <==> OwnerIs(drv.owner, r, x)))
  }

  lemma SparingCall(drv: Driver, call: Call)
    requires Spares(call)
    ensures SameTop(drv, Apply(drv, call))
  {
    forall o: Obj | o.kind == Instance ensures Apply(drv, call).live(o) == drv.live(o) {
      ApplyLive(drv, call, o);
    }
  }

  lemma {:induction false} SparingCalls(trace: seq<Call>, longer: seq<Call>)
    requires SpareFrom(trace, longer)
    ensures SameTop(Drive(trace), Drive(longer))
    decreases |longer|
  {
    hide Spares, Apply;
    if |trace| == |longer| {
      assert trace == longer;
    } else {
      var n := |longer| - 1;
      assert forall j :: |trace| <= j < n ==> longer[..n][j] == longer[j];
      SparingCalls(trace, longer[..n]);
      SparingCall(Drive(longer[..n]), longer[n]);
    }
  }

  lemma SweepSpares(reg: Registry, ds: set<Handle>, sweep: seq<Key>, trace: seq<Call>)
    requires SweepOf(reg, ds, sweep)
    ensures SpareFrom(trace, trace + SweepCalls(reg, sweep))
  {
    forall j | 0 <= j < |sweep| ensures Spares(SweepCalls(reg, sweep)[j]) {
      assert sweep[j] in sweep && InSweep(reg, ds, sweep[j]);
    }
  }

  lemma CreateChildSpares(w: World, k: Kind, d: Handle, word0: nat, word1: nat, env: Env)
    requires Creatable(k)
    ensures SpareFrom(w.trace, CreateChild(w, k, d, word0, word1, env).world.trace)
  {
    hide Insert, Without, NativeAt;
  }

  lemma AllocateSpares(w: World, d: Handle, pool: Handle, level: nat, count: nat, env: Env)
    ensures SpareFrom(w.trace, AllocateCommandBuffers(w, d, pool, level, count, env).world.trace)
  {
    hide InsertAll, Without, NativeAt, BelongsTo;
  }

  /** Only creating, destroying and enumerating instances makes calls that are about instances. */
  lemma StepSpares(w: World, req: Request)
    requires InRange(w, req) && Swept(w, req)
    requires !req.DoCreateInstance? && !req.DoEnumeratePhysicalDevices? && !req.DoDestroyInstance?
    ensures SpareFrom(w.trace, Step(w, req).world.trace)
  {
    hide CreateChild, AllocateCommandBuffers, SweepCalls, SweepOf, Insert, Without, RemoveDevices, RefsOf, RefOf;
    hide BufferNatives, InPool;
    match req
    case DoCreateChild(k, d, word0, word1, env) => CreateChildSpares(w, k, d, word0, word1, env);
    case DoAllocateCommandBuffers(d, pool, level, count, env) => AllocateSpares(w, d, pool, level, count, env);
    case DoDestroyDevice(d, sweep) =>
      if Key(Device, d) in w.reg.records {
        SweepSpares(w.reg, {d}, sweep, w.trace);
      }
    case _ =>
  }

  // ---- Instances -------------------------------------------------------------------------

  /** Of the instances, a destroyed one goes alone. */
  lemma InstanceGoesAlone(reg: Registry, i: Handle, key: Key)
    requires key.kind == Instance
    ensures var after := RemoveInstance(reg, i);
      && (key in after.records <==> key in reg.records && key != Key(Instance, i))
      && (key in after.records ==> after.records[key] == reg.records[key])
  {
    hide DevicesOf, PhysicalDevicesOf;
  }

  /** How many more copies of an instance are live than recorded: those on their way to the tables. */
  ghost function Surplus(w: World, o: Obj): int {
    Drive(w.trace).live(o) - |KeysOf(w.reg, All(w.reg), o)|
  }

  /** Every recorded instance is live. */
  ghost predicate InstancesLive(w: World) {
    forall o: Obj :: o.kind == Instance ==> Surplus(w, o) >= 0
  }

  lemma InstanceKeyOf(reg: Registry, o: Obj, key: Key)
    requires o.kind == Instance
    ensures key in KeysOf(reg, All(reg), o) <==>
            key in reg.records && key.kind == Instance && o == Obj(Instance, 0, 0, reg.records[key].native)
  {
  }

  lemma SameInstanceKeys(reg: Registry, after: Registry, o: Obj)
    requires SameOf(reg, after, {Instance}) && o.kind == Instance
    ensures KeysOf(after, All(after), o) == KeysOf(reg, All(reg), o)
  {
    hide KeysOf;
    forall key ensures key in KeysOf(after, All(after), o) <==> key in KeysOf(reg, All(reg), o) {
      InstanceKeyOf(reg, o, key);
      InstanceKeyOf(after, o, key);
    }
  }

  lemma DestroyedInstanceCounts(reg: Registry, i: Handle, o: Obj)
    requires Key(Instance, i) in reg.records && o.kind == Instance
    ensures |KeysOf(reg, All(reg), o)|
         == |KeysOf(RemoveInstance(reg, i), All(RemoveInstance(reg, i)), o)|
            + if o == Obj(Instance, 0, 0, reg.records[Key(Instance, i)].native) then 1 else 0
  {
    hide RemoveInstance, KeysOf;
    var after, key := RemoveInstance(reg, i), Key(Instance, i);
    forall b: Key ensures b in KeysOf(after, All(after), o) <==> b in KeysOf(reg, All(reg), o) && b != key {
      InstanceKeyOf(reg, o, b);
      InstanceKeyOf(after, o, b);
      if b.kind == Instance {
        InstanceGoesAlone(reg, i, b);
      }
    }
    assert KeysOf(after, All(after), o) == KeysOf(reg, All(reg), o) - {key};
    InstanceKeyOf(reg, o, key);
    OneFewer(KeysOf(reg, All(reg), o), key);
  }

  lemma RecordedIsLive(w: World, i: Handle)
    requires Key(Instance, i) in w.reg.records
    requires Surplus(w, Obj(Instance, 0, 0, NativeAt(w.reg, Key(Instance, i)))) >= 0
    ensures IsLive(Drive(w.trace), Instance, NativeAt(w.reg, Key(Instance, i)))
  {
    var o := Obj(Instance, 0, 0, NativeAt(w.reg, Key(Instance, i)));
    InstanceKeyOf(w.reg, o, Key(Instance, i));
    hide KeysOf;
    assert KeysOf(w.reg, All(w.reg), o) != {};
  }

  lemma DestroyKeepsSurplus(w: World, i: Handle, sweep: seq<Key>, o: Obj)
    requires Key(Instance, i) in w.reg.records && SweepOf(w.reg, DevicesOf(w.reg, i), sweep) && o.kind == Instance
    requires Surplus(w, Obj(Instance, 0, 0, NativeAt(w.reg, Key(Instance, i)))) >= 0
    ensures Surplus(DestroyInstance(w, i, sweep).world, o) == Surplus(w, o)
  {
    hide SweepOf, SweepCalls, RemoveInstance, DevicesOf, KeysOf, Apply;
    var swept := w.trace + SweepCalls(w.reg, sweep);
    var call := DestroyCall(w.reg, Key(Instance, i));
    SweepSpares(w.reg, DevicesOf(w.reg, i), sweep, w.trace);
    SparingCalls(w.trace, swept);
    RecordedIsLive(w, i);
    TraceSnoc(swept, call);
    ApplyLive(Drive(swept), call, o);
    DestroyedInstanceCounts(w.reg, i, o);
  }

  /** A step leaves each instance's surplus as it was. */
  lemma StepKeepsSurplus(w: World, req: Request, o: Obj)
    requires InRange(w, req) && Swept(w, req) && o.kind == Instance
    requires !req.DoCreateInstance? && !req.DoEnumeratePhysicalDevices?
    requires InstancesLive(w)
    ensures Surplus(Step(w, req).world, o) == Surplus(w, o)
  {
    hide SweepOf, KeysOf, SweepCalls, InRange, RemoveInstance, DevicesOf;
    if req.DoDestroyInstance? {
      if Key(Instance, req.handle) in w.reg.records {
        DestroyKeepsSurplus(w, req.handle, req.sweep, o);
      }
    } else {
      StepKeepsInstances(w, req);
      SameInstanceKeys(w.reg, Step(w, req).world.reg, o);
    }
  }

  lemma StepKeepsInstances(w: World, req: Request)
    requires InRange(w, req) && Swept(w, req)
    requires !req.DoCreateInstance? && !req.DoEnumeratePhysicalDevices? && !req.DoDestroyInstance?
    ensures SameOf(w.reg, Step(w, req).world.reg, {Instance})
    ensures SameTop(Drive(w.trace), Drive(Step(w, req).world.trace))
  {
    hide Step, Swept, SameOf, SpareFrom, SameTop;
    NoInstanceTouched(w, req);
    StepTouches(w, req, {Instance});
    StepSpares(w, req);
    SparingCalls(w.trace, Step(w, req).world.trace);
  }

  lemma NoInstanceTouched(w: World, req: Request)
    requires InRange(w, req)
    requires !req.DoCreateInstance? && !req.DoEnumeratePhysicalDevices? && !req.DoDestroyInstance?
    ensures {Instance, PhysicalDevice} !! Touched(req)
  {
  }

  lemma InstanceMade(drv: Driver, native: Native, o: Obj)
    ensures Apply(drv, Create(Instance, 0, 0, [native])).live(o)
         == drv.live(o) + if o == Obj(Instance, 0, 0, native) then 1 else 0
  {
    ApplyLive(drv, Create(Instance, 0, 0, [native]), o);
    assert multiset([native])[o.native] == if o.native == native then 1 else 0;
  }

  lemma NewInstanceCounts(reg: Registry, record: Record, o: Obj)
    requires ForestBelow(reg) && Counted(reg) && Next(reg, Instance) + 1 < U64
    ensures var after := Insert(reg, Instance, record);
      |KeysOf(after, All(after), o)|
      == |KeysOf(reg, All(reg), o)| + if o == Obj(Instance, 0, 0, record.native) then 1 else 0
  {
    hide ForestBelow, KeysOf, Insert;
    InsertAdds(reg, Instance, record);
    ForestBelowIsClosedBelow(reg);
    CountsAfterAdd(reg, Insert(reg, Instance, record), Key(Instance, Next(reg, Instance)), o);
  }
}
