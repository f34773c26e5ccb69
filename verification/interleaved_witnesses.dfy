/** Interleavings that reach the states in which what the driver is asked for goes wrong. */
module InterleavedWitnesses {
  import opened Results
  import opened HandleTables
  import opened Registries
  import opened NativeDriver
  import opened Linking
  import opened Sweeps
  import opened Lifecycle
  import opened Frames
  import opened Tallies
  import opened Ownership
  import opened Validity
  import opened Reports
  import opened Interleaving
  import opened InterleavedDriver
  import opened InterleavedValidity
  import opened Witnesses

  /** One more record, under the next handle of its kind. */
  function Recorded(w: World, key: Key, record: Record): World {
    w.(reg := Registry(w.reg.next[key.kind := key.handle + 1], w.reg.records[key := record]))
  }

  function Idle(w: World): System {
    System(w, map[])
  }

  /** Moves of one run, the state they lead to, and one more move with its state. */
  ghost predicate Leads(moves: seq<Move>, s: System) {
    GoodMoves(moves) && RunMoves(Interleaving.INITIAL, moves) == s
  }

  lemma LeadsOn(moves: seq<Move>, s: System, m: Move, after: System)
    requires Leads(moves, s) && Advance(s, m) == after && Possible(s, m) && Ordered(s, m)
    requires ConformingTrace(after.world.trace)
    ensures Leads(moves + [m], after)
  {
    hide Advance, Possible, Ordered, ConformingTrace;
    MovesSnoc(Interleaving.INITIAL, moves, m);
  }

  lemma LeadsConform(moves: seq<Move>, s: System)
    requires Leads(moves, s)
    ensures ConformingTrace(s.world.trace) && SystemAccounted(s)
  {
    hide SystemAccounted, ConformingTrace;
    MovesKeepAccounts(moves);
  }

  /** A native the driver has not made before may be made. */
  lemma FreshConforms(trace: seq<Call>, call: Call)
    requires ConformingTrace(trace) && call.Create? && |call.made| == 1
    requires forall c :: c in trace ==> MadeBy(c, ScopedObj(call.kind, call.under, call.pool, call.made[0])) == 0
    ensures ConformingTrace(trace + [call])
  {
    NeverMade(trace, ScopedObj(call.kind, call.under, call.pool, call.made[0]));
    assert call.made == [call.made[0]];
    var longer := trace + [call];
    assert longer[..|trace|] == trace;
  }

  /** The only recorded instance may list whatever it likes. */
  lemma OnlyInstanceLists(s: System, i: Handle, found: seq<Native>)
    requires SystemAccounted(s) && ConformingTrace(s.world.trace) && Key(Instance, i) in s.world.reg.records
    requires forall h: Handle :: Key(Instance, h) in s.world.reg.records ==> h == i
    ensures ConformingTrace(s.world.trace
                            + [Retrieve(PhysicalDevice, NativeAt(s.world.reg, Key(Instance, i)), found)])
  {
    hide Holds, TalliedWorld, InstancesLive, OwnersHold, InstancesCarried, AllPendingOwned, Drive;
    var x := NativeAt(s.world.reg, Key(Instance, i));
    forall n | n in found && Ref(PhysicalDevice, n) in Drive(s.world.trace).owner
      ensures Drive(s.world.trace).owner[Ref(PhysicalDevice, n)] == x
    {
      var y := Drive(s.world.trace).owner[Ref(PhysicalDevice, n)];
      assert OwnerIs(Drive(s.world.trace).owner, Ref(PhysicalDevice, n), y);
      var h: Handle :| InstanceIs(s.world.reg, h, y);
    }
    var longer := s.world.trace + [Retrieve(PhysicalDevice, x, found)];
    assert longer[..|s.world.trace|] == s.world.trace;
  }

  lemma InstanceMoves(w: World, native: Native, h: Handle)
    requires h == Next(w.reg, Instance) && h + 1 < U64 && Key(Instance, h) !in w.reg.records
    ensures var called := Calling(w, Create(Instance, 0, 0, [native]));
      var begun := System(called, map[0 := Creating(native)]);
      && Advance(Idle(w), BeginCreateInstance(0, native)) == begun
      && Advance(begun, EndCreateInstance(0)) == Idle(Recorded(called, Key(Instance, h), Record(native, 0, 0, 0, 0)))
  {
  }

  /** A thread creates an instance, and records it under the next handle. */
  lemma InstanceArrives(moves: seq<Move>, w: World, native: Native, h: Handle)
    requires Leads(moves, Idle(w)) && h == Next(w.reg, Instance) && h + 1 < U64
    requires Key(Instance, h) !in w.reg.records
    requires forall c :: c in w.trace ==> MadeBy(c, Obj(Instance, 0, 0, native)) == 0
    ensures var called := Calling(w, Create(Instance, 0, 0, [native]));
      Leads(moves + [BeginCreateInstance(0, native)] + [EndCreateInstance(0)],
            Idle(Recorded(called, Key(Instance, h), Record(native, 0, 0, 0, 0))))
  {
    var called := Calling(w, Create(Instance, 0, 0, [native]));
    var begun := System(called, map[0 := Creating(native)]);
    var after := Idle(Recorded(called, Key(Instance, h), Record(native, 0, 0, 0, 0)));
    LeadsConform(moves, Idle(w));
    InstanceMoves(w, native, h);
    hide Leads, ConformingTrace, SystemAccounted, MadeBy, Advance;
    FreshConforms(w.trace, Create(Instance, 0, 0, [native]));
    LeadsOn(moves, Idle(w), BeginCreateInstance(0, native), begun);
    LeadsOn(moves + [BeginCreateInstance(0, native)], begun, EndCreateInstance(0), after);
  }

  lemma AskingMove(w: World, i: Handle, physical: Native)
    requires Key(Instance, i) in w.reg.records
    ensures var listed := Calling(w, Retrieve(PhysicalDevice, NativeAt(w.reg, Key(Instance, i)), [physical]));
      Advance(Idle(w), BeginEnumerate(0, i, 1, [physical])) == System(listed, map[0 := Enumerating(i, [physical])])
  {
    assert Shown(1, [physical]) == [physical];
    hide Shown;
  }

  /** A thread asks an instance for its physical devices. */
  lemma ListingBegins(moves: seq<Move>, w: World, i: Handle, physical: Native)
    requires Leads(moves, Idle(w)) && Key(Instance, i) in w.reg.records
    requires forall h: Handle :: Key(Instance, h) in w.reg.records ==> h == i
    ensures var listed := Calling(w, Retrieve(PhysicalDevice, NativeAt(w.reg, Key(Instance, i)), [physical]));
      Leads(moves + [BeginEnumerate(0, i, 1, [physical])], System(listed, map[0 := Enumerating(i, [physical])]))
  {
    var listed := Calling(w, Retrieve(PhysicalDevice, NativeAt(w.reg, Key(Instance, i)), [physical]));
    var begun := System(listed, map[0 := Enumerating(i, [physical])]);
    LeadsConform(moves, Idle(w));
    AskingMove(w, i, physical);
    hide Leads, ConformingTrace, SystemAccounted, Advance, NativeAt;
    OnlyInstanceLists(Idle(w), i, [physical]);
    LeadsOn(moves, Idle(w), BeginEnumerate(0, i, 1, [physical]), begun);
  }

  lemma ListingMove(w: World, i: Handle, physical: Native, p: Handle)
    requires p == Next(w.reg, PhysicalDevice) && p + 1 < U64 && Key(PhysicalDevice, p) !in w.reg.records
    ensures Advance(System(w, map[0 := Enumerating(i, [physical])]), EndEnumerate(0))
         == Idle(Recorded(w, Key(PhysicalDevice, p), Record(physical, i, 0, 0, 0)))
  {
    assert PhysicalRecords(i, [physical]) == [Record(physical, i, 0, 0, 0)];
    InsertIsBatch(w.reg, PhysicalDevice, Record(physical, i, 0, 0, 0));
    hide InsertAll, PhysicalRecords;
  }

  /** And records the one it is shown. */
  lemma ListingEnds(moves: seq<Move>, w: World, i: Handle, physical: Native, p: Handle)
    requires Leads(moves, System(w, map[0 := Enumerating(i, [physical])]))
    requires p == Next(w.reg, PhysicalDevice) && p + 1 < U64 && Key(PhysicalDevice, p) !in w.reg.records
    ensures Leads(moves + [EndEnumerate(0)],
                  Idle(Recorded(w, Key(PhysicalDevice, p), Record(physical, i, 0, 0, 0))))
  {
    var begun := System(w, map[0 := Enumerating(i, [physical])]);
    var after := Idle(Recorded(w, Key(PhysicalDevice, p), Record(physical, i, 0, 0, 0)));
    LeadsConform(moves, begun);
    ListingMove(w, i, physical, p);
    hide Leads, ConformingTrace, SystemAccounted, Advance;
    LeadsOn(moves, begun, EndEnumerate(0), after);
  }

  lemma WholeLeads(moves: seq<Move>, s: System, req: Request, after: World)
    requires Leads(moves, s) && Step(s.world, req).world == after
    requires InRange(s.world, req) && WellOrdered(s.world, req)
    requires !req.DoCreateInstance? && !req.DoEnumeratePhysicalDevices? && ConformingTrace(after.trace)
    ensures Leads(moves + [Whole(req)], s.(world := after))
  {
    hide Leads, Step, InRange, WellOrdered, ConformingTrace;
    LeadsOn(moves, s, Whole(req), s.(world := after));
  }

  // ---- An instance that goes between the sections of its enumeration --------------------------

  const FIRST := [BeginCreateInstance(0, 11)] + [EndCreateInstance(0)]
  const LISTING := FIRST + [BeginEnumerate(0, 1, 1, [12])]
  const GONE := LISTING + [Whole(DoDestroyInstance(1, []))]
  const DANGLING := GONE + [EndEnumerate(0)]
  const SECOND := DANGLING + [BeginCreateInstance(0, 21)] + [EndCreateInstance(0)]
  const RELISTED := SECOND + [BeginEnumerate(0, 2, 1, [12])] + [EndEnumerate(0)]
  const ORPHANED := RELISTED + [Whole(DoCreateDevice(1, Ok(13)))]

  const LISTING_WORLD := Calling(INSTANCE_WORLD, Retrieve(PhysicalDevice, 11, [12]))
  const GONE_WORLD :=
    World(Registry(INSTANCE_WORLD.reg.next, map[]), LISTING_WORLD.trace + [Destroy(Instance, 0, 11)])
  const DANGLING_WORLD := Recorded(GONE_WORLD, Key(PhysicalDevice, 1), Record(12, 1, 0, 0, 0))
  const SECOND_WORLD :=
    Recorded(Calling(DANGLING_WORLD, Create(Instance, 0, 0, [21])), Key(Instance, 2), Record(21, 0, 0, 0, 0))
  const RELISTED_WORLD :=
    Recorded(Calling(SECOND_WORLD, Retrieve(PhysicalDevice, 21, [12])), Key(PhysicalDevice, 2), Record(12, 2, 0, 0, 0))
  const ORPHANED_WORLD :=
    Recorded(Calling(RELISTED_WORLD, Create(Device, 12, 0, [13])), Key(Device, 1), Record(13, 1, 0, 0, 0))

  lemma InitiallyLeads()
    ensures Leads([], Idle(INITIAL_WORLD))
  {
  }

  lemma ReachesFirst()
    ensures Leads(FIRST, Idle(INSTANCE_WORLD))
  {
    InitiallyLeads();
    hide Leads;
    InstanceArrives([], INITIAL_WORLD, 11, 1);
    assert [] + [BeginCreateInstance(0, 11)] + [EndCreateInstance(0)] == FIRST;
    assert Recorded(Calling(INITIAL_WORLD, Create(Instance, 0, 0, [11])), Key(Instance, 1), Record(11, 0, 0, 0, 0))
        == INSTANCE_WORLD;
  }

  lemma ReachesListing()
    ensures Leads(LISTING, System(LISTING_WORLD, map[0 := Enumerating(1, [12])]))
  {
    ReachesFirst();
    hide Leads;
    ListingBegins(FIRST, INSTANCE_WORLD, 1, 12);
  }

  lemma GoneStep()
    ensures Step(LISTING_WORLD, DoDestroyInstance(1, [])).world == GONE_WORLD
  {
    NothingBelow();
    assert SweepCalls(LISTING_WORLD.reg, []) == [];
    assert RemoveInstance(LISTING_WORLD.reg, 1).records == map[];
  }

  lemma GoneSwept()
    ensures InRange(LISTING_WORLD, DoDestroyInstance(1, [])) && WellOrdered(LISTING_WORLD, DoDestroyInstance(1, []))
  {
    NothingBelow();
  }

  lemma NothingBelow()
    ensures PhysicalDevicesOf(LISTING_WORLD.reg, 1) == {} && DevicesOf(LISTING_WORLD.reg, 1) == {}
    ensures Doomed(LISTING_WORLD.reg, {}) == {}
  {
  }

  lemma ReachesDangling()
    ensures Leads(DANGLING, Idle(DANGLING_WORLD))
  {
    ReachesListing();
    GoneStep();
    GoneSwept();
    hide Leads, Step, InRange, WellOrdered, ConformingTrace, SystemAccounted;
    var listing := System(LISTING_WORLD, map[0 := Enumerating(1, [12])]);
    LeadsConform(LISTING, listing);
    DestructionConforms(LISTING_WORLD.trace, Destroy(Instance, 0, 11));
    WholeLeads(LISTING, listing, DoDestroyInstance(1, []), GONE_WORLD);
    ListingEnds(GONE, GONE_WORLD, 1, 12, 1);
  }

  /** Nobody lists the dangling record's native at this point: a call on it is invalid. */
  lemma InvalidOnDanglingIsReached()
    ensures GoodMoves(DANGLING)
    ensures var w := RunMoves(Interleaving.INITIAL, DANGLING).world;
      && Key(PhysicalDevice, 1) in w.reg.records && !Resolves(w.reg, Key(PhysicalDevice, 1))
      && !Legal(Drive(w.trace), Create(Device, NativeAt(w.reg, Key(PhysicalDevice, 1)), 0, [13]))
  {
    ReachesDangling();
    hide Legal, RunMoves, RunPossible, RunOrdered, ConformingTrace, StillListed, Drive;
    assert DANGLING_WORLD.reg.records[Key(PhysicalDevice, 1)] == Record(12, 1, 0, 0, 0);
    assert forall h: Handle :: Key(Instance, h) !in DANGLING_WORLD.reg.records;
    PhysicalCallIsValidIffListed(DANGLING, 1, Create(Device, 12, 0, [13]));
  }

  lemma ReachesRelisted()
    ensures Leads(RELISTED, Idle(RELISTED_WORLD))
  {
    ReachesDangling();
    hide Leads;
    InstanceArrives(DANGLING, DANGLING_WORLD, 21, 2);
    ListingBegins(SECOND, SECOND_WORLD, 2, 12);
    ListingEnds(SECOND + [BeginEnumerate(0, 2, 1, [12])],
                Calling(SECOND_WORLD, Retrieve(PhysicalDevice, 21, [12])), 2, 12, 2);
  }

  lemma OrphanStep()
    ensures Step(RELISTED_WORLD, DoCreateDevice(1, Ok(13))).world == ORPHANED_WORLD
    ensures InRange(RELISTED_WORLD, DoCreateDevice(1, Ok(13))) && WellOrdered(RELISTED_WORLD, DoCreateDevice(1, Ok(13)))
  {
  }

  lemma ReachesOrphaned()
    ensures Leads(ORPHANED, Idle(ORPHANED_WORLD))
  {
    ReachesRelisted();
    OrphanStep();
    hide Leads, Step, InRange, WellOrdered, ConformingTrace, SystemAccounted;
    LeadsConform(RELISTED, Idle(RELISTED_WORLD));
    FirstConforms(RELISTED_WORLD.trace, Create(Device, 12, 0, [13]));
    WholeLeads(RELISTED, Idle(RELISTED_WORLD), DoCreateDevice(1, Ok(13)), ORPHANED_WORLD);
  }

  /**
   * After the instance of a shown physical device went in between, another instance lists the
   * same native: a device created on the dangling record is then created validly.
   */
  lemma ValidOnDanglingIsReached()
    ensures GoodMoves(RELISTED)
    ensures var w := RunMoves(Interleaving.INITIAL, RELISTED).world;
      && Key(PhysicalDevice, 1) in w.reg.records && !Resolves(w.reg, Key(PhysicalDevice, 1))
      && Legal(Drive(w.trace), Create(Device, NativeAt(w.reg, Key(PhysicalDevice, 1)), 0, [13]))
  {
    ReachesRelisted();
    hide SystemAccounted, Legal, RunMoves, RunPossible, RunOrdered, ConformingTrace;
    assert RELISTED_WORLD.reg.records[Key(PhysicalDevice, 2)] == Record(12, 2, 0, 0, 0);
    PhysicalCallIsValid(RELISTED, 2, Create(Device, 12, 0, [13]));
  }

  /** But the second instance then no longer goes validly: its cascade leaves the orphan alive. */
  lemma OrphanIsReached()
    ensures GoodMoves(ORPHANED)
    ensures var w := RunMoves(Interleaving.INITIAL, ORPHANED).world;
      && Orphan(w.reg, 1) && Key(Instance, 2) in w.reg.records && SweepOf(w.reg, DevicesOf(w.reg, 2), [])
      && Step(w, DoDestroyInstance(2, [])).result == SUCCESS
      && !Legal(Drive(w.trace + SweepCalls(w.reg, [])), DestroyCall(w.reg, Key(Instance, 2)))
  {
    ReachesOrphaned();
    OrphanSwept();
    OrphanRequest();
    OrphanIsOwned();
    hide Legal, RunMoves, RunPossible, RunOrdered, ConformingTrace, SweepCalls, SweepOf, DevicesOf, Drive, Step;
    OrphanThere();
    hide Orphan, OwnerIs;
    InstanceGoesIffNoOrphan(ORPHANED, 2, []);
  }

  lemma OrphanThere()
    requires OwnerIs(Drive(ORPHANED_WORLD.trace).owner, Ref(Device, 13), 21)
    ensures Orphan(ORPHANED_WORLD.reg, 1) && Key(Instance, 2) in ORPHANED_WORLD.reg.records
    ensures !OwnsNoOrphan(ORPHANED_WORLD, 2)
  {
    hide Drive;
    assert Orphan(ORPHANED_WORLD.reg, 1);
  }

  lemma OrphanSwept()
    ensures SweepOf(ORPHANED_WORLD.reg, DevicesOf(ORPHANED_WORLD.reg, 2), [])
  {
    NothingSwept();
    hide PhysicalDevicesOf, DevicesOf;
  }

  lemma NothingSwept()
    ensures DevicesOf(ORPHANED_WORLD.reg, 2) == {}
  {
    assert PhysicalDevicesOf(ORPHANED_WORLD.reg, 2) == {2};
  }

  lemma OrphanRequest()
    ensures Step(ORPHANED_WORLD, DoDestroyInstance(2, [])).result == SUCCESS
  {
    hide RemoveInstance, SweepCalls;
  }

  lemma OwnedWhereListed(trace: seq<Call>, under: Native, native: Native, x: Native)
    requires OwnerIs(Drive(trace).owner, Ref(PhysicalDevice, under), x)
    ensures OwnerIs(Drive(trace + [Create(Device, under, 0, [native])]).owner, Ref(Device, native), x)
  {
    TraceSnoc(trace, Create(Device, under, 0, [native]));
  }

  lemma OrphanIsOwned()
    ensures OwnerIs(Drive(ORPHANED_WORLD.trace).owner, Ref(Device, 13), 21)
  {
    ReachesRelisted();
    LeadsConform(RELISTED, Idle(RELISTED_WORLD));
    hide Leads, SystemAccounted, ConformingTrace, Drive, OwnerIs;
    RelistedIsOwned();
    OwnedWhereListed(RELISTED_WORLD.trace, 12, 13, 21);
    assert ORPHANED_WORLD.trace == RELISTED_WORLD.trace + [Create(Device, 12, 0, [13])];
  }

  lemma RelistedIsOwned()
    requires SystemAccounted(Idle(RELISTED_WORLD))
    ensures OwnerIs(Drive(RELISTED_WORLD.trace).owner, Ref(PhysicalDevice, 12), 21)
  {
    hide Holds, TalliedWorld, InstancesLive, ReportersRecorded, InstancesCarried, AllPendingOwned, Drive;
    assert OwnerHolds(RELISTED_WORLD.reg, Drive(RELISTED_WORLD.trace).owner, Key(PhysicalDevice, 2));
  }

  // ---- A fence that goes between the sections of its wait -----------------------------------------

  const WITH_LIST := LISTING + [EndEnumerate(0)]
  const WITH_ONE_DEVICE := WITH_LIST + [Whole(DoCreateDevice(1, Ok(13)))]
  const WITH_FENCE := WITH_ONE_DEVICE + [Whole(DoCreateChild(Fence, 1, 0, 0, Ok(16)))]
  const FENCE_GOES := WITH_FENCE + [BeginFences(0, 1, [1])] + [Whole(DoDestroyChild(Fence, 1, 1))]
  const FENCE_WORLD := Grown(DEVICE_WORLD, Fence, Record(16, 1, 0, 0, 0), Create(Fence, 13, 0, [16]))

  lemma ReachesList()
    ensures Leads(WITH_LIST, Idle(PHYSICAL_WORLD))
  {
    ReachesListing();
    hide Leads;
    ListingEnds(LISTING, LISTING_WORLD, 1, 12, 1);
    assert Recorded(LISTING_WORLD, Key(PhysicalDevice, 1), Record(12, 1, 0, 0, 0)) == PHYSICAL_WORLD;
  }

  lemma FenceStep()
    ensures Step(DEVICE_WORLD, DoCreateChild(Fence, 1, 0, 0, Ok(16))).world == FENCE_WORLD
    ensures InRange(DEVICE_WORLD, DoCreateChild(Fence, 1, 0, 0, Ok(16)))
    ensures WellOrdered(DEVICE_WORLD, DoCreateChild(Fence, 1, 0, 0, Ok(16)))
  {
  }

  lemma ReachesFence()
    ensures Leads(WITH_FENCE, Idle(FENCE_WORLD))
  {
    ReachesList();
    DeviceStep();
    FenceStep();
    hide Leads, Step, InRange, WellOrdered, ConformingTrace, SystemAccounted;
    LeadsConform(WITH_LIST, Idle(PHYSICAL_WORLD));
    FirstConforms(PHYSICAL_WORLD.trace, Create(Device, 12, 0, [13]));
    WholeLeads(WITH_LIST, Idle(PHYSICAL_WORLD), DoCreateDevice(1, Ok(13)), DEVICE_WORLD);
    FirstConforms(DEVICE_WORLD.trace, Create(Fence, 13, 0, [16]));
    WholeLeads(WITH_ONE_DEVICE, Idle(DEVICE_WORLD), DoCreateChild(Fence, 1, 0, 0, Ok(16)), FENCE_WORLD);
  }

  lemma OnlyFenceThere()
    ensures Key(Device, 1) in FENCE_WORLD.reg.records && OnlyFence(FENCE_WORLD.reg, 1, 1)
    ensures InRange(FENCE_WORLD, DoDestroyChild(Fence, 1, 1))
  {
  }

  /** A run of eight moves whose next is an invalid wait. */
  lemma BrokenWaitIsReached()
    ensures GoodMoves(FENCE_GOES)
    ensures var s := RunMoves(Interleaving.INITIAL, FENCE_GOES);
      && 0 in s.pending && s.pending[0].Fencing? && Key(Device, s.pending[0].device) in s.world.reg.records
      && !Legal(Drive(s.world.trace), WaitCall(s, 0))
  {
    ReachesFence();
    OnlyFenceThere();
    hide RunMoves, RunPossible, RunOrdered, ConformingTrace, OnlyFence, InRange, Legal, Drive, WaitCall;
    DestroyedFenceBreaksWait(WITH_FENCE, 0, 1, 1);
  }
}
