/**
 * What every step keeps where entry points run one at a time: only valid calls are made,
 * and the live native objects are exactly those the tables record.
 */
module DriverSafety {
  import opened Results
  import opened HandleTables
  import opened Registries
  import opened NativeDriver
  import opened Linking
  import opened Batches
  import opened Lifecycle
  import opened TableSafety
  import opened Frames
  import opened Tallies
  import opened Ownership
  import opened Validity

  ghost predicate Sound(w: World) {
    && Accounted(w) && TopEdges(w.reg) && LegalTrace(w.trace)
    && forall o: Obj :: o.kind == Instance ==> Surplus(w, o) == 0
  }

  /** In a sound world the live copies of an object are its records. */
  lemma SoundCounts(w: World, o: Obj)
    requires Sound(w)
    ensures Drive(w.trace).live(o) == |KeysOf(w.reg, All(w.reg), o)|
  {
    hide KeysOf;
    assert o.kind == Instance ==> Surplus(w, o) == 0;
  }

  lemma PhysicalIsReported(w: World, p: Handle)
    requires Accounted(w) && Key(PhysicalDevice, p) in w.reg.records
    requires Resolves(w.reg, Key(PhysicalDevice, p))
    ensures Reported(w, NativeAt(w.reg, Key(PhysicalDevice, p)))
  {
    hide TalliedWorld, InstancesLive, ReportersRecorded, Drive;
    var key := Key(PhysicalDevice, p);
    assert OwnerHolds(w.reg, Drive(w.trace).owner, key);
    assert ReportedBy(w, NativeAt(w.reg, key), w.reg.records[key].parent);
  }

  /** Where every physical device has its instance, there are no orphans. */
  lemma NoOrphans(reg: Registry, d: Handle)
    requires Forest(reg)
    ensures !Orphan(reg, d)
  {
    if Key(Device, d) in reg.records {
      assert EdgeHolds(reg, Key(Device, d));
    }
  }

  lemma TopIsValidHere(w: World, req: Request)
    requires Accounted(w) && TopEdges(w.reg) && FreesOnce(w, req)
    ensures ValidHere(w, req)
  {
    hide InTally, InstancesLive, OwnersKnown, FreesOnce, ForestBelow, Reported, Orphan, Drive;
    if (req.DoQueryPhysicalDevice? || req.DoCreateDevice?) && OnPhysicalDevice(w, req.handle, req.env) {
      PhysicalIsReported(w, req.handle);
    }
    if req.DoDestroyInstance? {
      forall d: Handle ensures !Orphan(w.reg, d) {
        NoOrphans(w.reg, d);
      }
    }
  }

  lemma MintedWhenThere(reg: Registry)
    requires TopEdges(reg) && Counted(reg)
    ensures TopEdgesMinted(reg)
  {
  }

  // ---- Creating an instance, and enumerating ----------------------------------------------

  lemma CreateInstanceSound(w: World, env: Env)
    requires Sound(w) && Next(w.reg, Instance) + 1 < U64
    requires ConformingTrace(CreateInstance(w, env).world.trace)
    ensures var after := CreateInstance(w, env).world;
      Accounted(after) && forall o: Obj :: o.kind == Instance ==> Surplus(after, o) == 0
  {
    hide TalliedWorld, InstancesLive, OwnersKnown, TopEdges, Surplus, ConformingTrace, LegalTrace, Drive, Insert;
    if env.argsOk && env.decoded {
      var called := Calling(w, Create(Instance, 0, 0, MadeOne(env)));
      if env.status == SUCCESS {
        InstanceCalled(w, FirstOf(env));
        MintedInSound(w);
        InstanceEntered(called, FirstOf(env));
      } else {
        QuietCallAccounts(w, Create(Instance, 0, 0, []));
      }
    }
  }

  lemma MintedInSound(w: World)
    requires Sound(w)
    ensures TopEdgesMinted(w.reg)
  {
    MintedWhenThere(w.reg);
  }

  lemma EnumerateSound(w: World, i: Handle, capacity: nat, env: Env)
    requires Sound(w) && Next(w.reg, PhysicalDevice) + |env.natives| < U64
    requires ConformingTrace(EnumeratePhysicalDevices(w, i, capacity, env).world.trace)
    ensures var after := EnumeratePhysicalDevices(w, i, capacity, env).world;
      Accounted(after) && forall o: Obj :: o.kind == Instance ==> Surplus(after, o) == 0
  {
    hide TalliedWorld, InstancesLive, OwnersKnown, TopEdges, Surplus, ConformingTrace, LegalTrace, Drive, InsertAll;
    if env.argsOk && Key(Instance, i) in w.reg.records {
      var found := if env.status < 0 then [] else env.natives;
      var called := Calling(w, Retrieve(PhysicalDevice, NativeAt(w.reg, Key(Instance, i)), found));
      DevicesListed(w, i, found);
      if env.status >= 0 {
        forall n | n in Shown(capacity, found) ensures n in found {}
        DevicesEntered(called, i, Shown(capacity, found));
      }
    }
  }

  // ---- Every step ------------------------------------------------------------------------------

  lemma StepKeepsCounts(w: World, req: Request)
    requires Sound(w) && InRange(w, req) && WellOrdered(w, req)
    requires ConformingTrace(Step(w, req).world.trace)
    ensures Accounted(Step(w, req).world)
    ensures forall o: Obj :: o.kind == Instance ==> Surplus(Step(w, req).world, o) == 0
  {
    hide Accounted, TopEdges, LegalTrace, Swept, FreesOnce, ConformingTrace, Surplus;
    match req
    case DoCreateInstance(env) => CreateInstanceSound(w, env);
    case DoEnumeratePhysicalDevices(i, capacity, env) => EnumerateSound(w, i, capacity, env);
    case _ =>
      hide Step;
      StepKeepsAccounts(w, req);
  }

  /** One request with arbitrary handles: only valid native calls, and tables and driver stay linked. */
  lemma StepKeepsSound(w: World, req: Request)
    requires Sound(w) && InRange(w, req) && WellOrdered(w, req)
    requires ConformingTrace(Step(w, req).world.trace)
    ensures Sound(Step(w, req).world)
  {
    StepKeepsCounts(w, req);
    hide InTally, InstancesLive, OwnersKnown, TopEdges, LegalTrace, Swept, FreesOnce, ConformingTrace, Surplus, Step;
    hide ForestBelow, Counted, Evolves, ValidHere, InRange;
    StepKeepsTables(w, req);
    TopIsValidHere(w, req);
    StepIsValidIff(w, req);
  }
}
