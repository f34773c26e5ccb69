/**
 * What the driver sees when sections of different threads interleave: native objects are
 * conserved, pending creations included, owners are known where they resolve, and the
 * second section of a fence call is valid iff its fences are still to be found.
 */
module InterleavedDriver {
  import opened HandleTables
  import opened Registries
  import opened NativeDriver
  import opened Linking
  import opened Batches
  import opened Lifecycle
  import opened TableSafety
  import opened Frames
  import opened Tallies
  import opened Ownership
  import opened Validity
  import opened Interleaving

  /** The threads that carry this instance from the driver to the tables. */
  ghost function Carriers(pending: map<ThreadId, Pending>, o: Obj): set<ThreadId> {
    set t | t in pending && pending[t].Creating? && o == Obj(Instance, 0, 0, pending[t].native)
  }

  /** Live instances are those recorded and those on their way. */
  ghost predicate InstancesCarried(s: System) {
    forall o: Obj :: o.kind == Instance ==> Surplus(s.world, o) == |Carriers(s.pending, o)|
  }

  /** What a thread has yet to record was reported by the instance, if that is still there. */
  ghost predicate PendingOwned(w: World, p: Pending) {
    p.Enumerating? ==> ShownOwned(w.reg, Drive(w.trace).owner, p.instance, p.shown)
  }

  ghost predicate AllPendingOwned(s: System) {
    forall t :: t in s.pending ==> PendingOwned(s.world, s.pending[t])
  }

  ghost predicate SystemAccounted(s: System) {
    Holds(s) && Accounted(s.world) && InstancesCarried(s) && AllPendingOwned(s)
  }

  lemma CarrierAdded(pending: map<ThreadId, Pending>, t: ThreadId, native: Native, o: Obj)
    requires t !in pending
    ensures |Carriers(pending[t := Creating(native)], o)|
         == |Carriers(pending, o)| + if o == Obj(Instance, 0, 0, native) then 1 else 0
  {
    var after := pending[t := Creating(native)];
    assert t in Carriers(after, o) <==> o == Obj(Instance, 0, 0, native);
    assert Carriers(pending, o) == Carriers(after, o) - {t};
    hide Carriers;
    OneFewer(Carriers(after, o), t);
  }

  lemma CarrierRemoved(pending: map<ThreadId, Pending>, t: ThreadId, o: Obj)
    requires t in pending
    ensures |Carriers(pending, o)| == |Carriers(pending - {t}, o)|
            + if pending[t].Creating? && o == Obj(Instance, 0, 0, pending[t].native) then 1 else 0
  {
    assert t in Carriers(pending, o) <==> pending[t].Creating? && o == Obj(Instance, 0, 0, pending[t].native);
    assert Carriers(pending - {t}, o) == Carriers(pending, o) - {t};
    hide Carriers;
    OneFewer(Carriers(pending, o), t);
  }

  lemma PendingSwapped(pending: map<ThreadId, Pending>, t: ThreadId, p: Pending)
    requires !p.Creating? && (t in pending ==> !pending[t].Creating?)
    ensures forall o: Obj :: Carriers(pending[t := p], o) == Carriers(pending, o)
    ensures forall o: Obj :: Carriers(pending - {t}, o) == Carriers(pending, o)
  {
  }

  // ---- What threads carry stays true -----------------------------------------------------

  /** An instance a thread has seen, still there after an evolution, was there before. */
  lemma SeenInstance(reg: Registry, after: Registry, i: Handle)
    requires Evolves(reg, after) && i < Next(reg, Instance) && Key(Instance, i) in after.records
    ensures Key(Instance, i) in reg.records && NativeAt(after, Key(Instance, i)) == NativeAt(reg, Key(Instance, i))
  {
  }

  /** Reports persist as long as their instance is recorded. */
  ghost predicate ReportsPersist(w: World, after: World) {
    forall r: Ref, h: Handle, x: Native {:trigger OwnerIs(Drive(after.trace).owner, r, x), InstanceIs(w.reg, h, x)} ::
      r.kind == PhysicalDevice && OwnerIs(Drive(w.trace).owner, r, x) && InstanceIs(w.reg, h, x)
      && Key(Instance, h) in after.reg.records ==>
        OwnerIs(Drive(after.trace).owner, r, x)
  }

  lemma PendingStaysOwned(w: World, after: World, p: Pending)
    requires PendingHolds(w.reg, p) && PendingOwned(w, p)
    requires Evolves(w.reg, after.reg) && ReportsPersist(w, after)
    ensures PendingOwned(after, p)
  {
    hide Drive, Evolves;
    if p.Enumerating? && Key(Instance, p.instance) in after.reg.records {
      SeenInstance(w.reg, after.reg, p.instance);
      var x := NativeAt(w.reg, Key(Instance, p.instance));
      forall n | n in p.shown ensures OwnerIs(Drive(after.trace).owner, Ref(PhysicalDevice, n), x) {
        assert OwnerIs(Drive(w.trace).owner, Ref(PhysicalDevice, n), x) && InstanceIs(w.reg, p.instance, x);
      }
    }
  }

  lemma AllStayOwned(s: System, after: World)
    requires AllPendingOwned(s) && Evolves(s.world.reg, after.reg) && ReportsPersist(s.world, after)
    requires forall t :: t in s.pending ==> PendingHolds(s.world.reg, s.pending[t])
    ensures forall t :: t in s.pending ==> PendingOwned(after, s.pending[t])
  {
    hide Evolves, ReportsPersist, PendingHolds, PendingOwned;
    forall t | t in s.pending ensures PendingOwned(after, s.pending[t]) {
      PendingStaysOwned(s.world, after, s.pending[t]);
    }
  }

  lemma StepReportsPersist(w: World, req: Request)
    requires Accounted(w) && InRange(w, req) && Swept(w, req)
    requires !req.DoCreateInstance? && !req.DoEnumeratePhysicalDevices?
    ensures ReportsPersist(w, Step(w, req).world)
  {
    hide TalliedWorld, InstancesLive, OwnersKnown, InRange, Swept, Step, Drive;
    forall r: Ref, h: Handle, x: Native | r.kind == PhysicalDevice && OwnerIs(Drive(w.trace).owner, r, x)
        && InstanceIs(w.reg, h, x) && Key(Instance, h) in Step(w, req).world.reg.records
      ensures OwnerIs(Drive(Step(w, req).world.trace).owner, r, x)
    {
      StepKeepsReport(w, req, r, h, x);
    }
  }

  lemma SameOwnersPersist(w: World, after: World)
    requires forall r: Ref, x: Native :: OwnerIs(Drive(w.trace).owner, r, x) ==> OwnerIs(Drive(after.trace).owner, r, x)
    ensures ReportsPersist(w, after)
  {
    hide Drive;
  }

  // ---- Moves -----------------------------------------------------------------------------------

  ghost predicate Ordered(s: System, m: Move) {
    m.Whole? ==> WellOrdered(s.world, m.req)
  }

  lemma WholeKeepsAccounts(s: System, req: Request)
    requires SystemAccounted(s) && Possible(s, Whole(req)) && WellOrdered(s.world, req)
    requires ConformingTrace(Step(s.world, req).world.trace)
    ensures SystemAccounted(Advance(s, Whole(req)))
  {
    hide PendingHolds, TopEdgesMinted, InRange, Swept, FreesOnce, ConformingTrace, Step, Surplus, Carriers, Drive;
    hide TalliedWorld, InstancesLive, OwnersKnown, Evolves, ReportsPersist, PendingOwned;
    MoveHolds(s, Whole(req));
    hide Holds;
    StepKeepsAccounts(s.world, req);
    WholeEvolves(s, req);
    StepReportsPersist(s.world, req);
    AllPendingHold(s);
    AllStayOwned(s, Step(s.world, req).world);
  }

  lemma AllPendingHold(s: System)
    requires Holds(s)
    ensures forall t :: t in s.pending ==> PendingHolds(s.world.reg, s.pending[t])
  {
  }

  lemma WholeEvolves(s: System, req: Request)
    requires Holds(s) && Possible(s, Whole(req))
    ensures Evolves(s.world.reg, Step(s.world, req).world.reg)
  {
    hide PendingHolds, TopEdgesMinted, InRange, Step, Evolves;
    StepKeepsTables(s.world, req);
  }

  lemma BeginCreateKeepsAccounts(s: System, t: ThreadId, native: Native)
    requires SystemAccounted(s) && t !in s.pending
    requires ConformingTrace(s.world.trace + [Create(Instance, 0, 0, [native])])
    ensures SystemAccounted(Advance(s, BeginCreateInstance(t, native)))
  {
    hide ForestBelow, Counted, TopEdgesMinted, TalliedWorld, InstancesLive, OwnersKnown, ConformingTrace;
    hide Surplus, Carriers, Drive, PendingHolds, ShownOwned;
    BeginsHold(s, BeginCreateInstance(t, native));
    InstanceCalled(s.world, native);
    var after := Advance(s, BeginCreateInstance(t, native));
    forall o: Obj | o.kind == Instance ensures Surplus(after.world, o) == |Carriers(after.pending, o)| {
      CarrierAdded(s.pending, t, native, o);
    }
  }

  lemma CarriedIsSurplus(s: System, t: ThreadId)
    requires InstancesCarried(s) && t in s.pending && s.pending[t].Creating?
    ensures Surplus(s.world, Obj(Instance, 0, 0, s.pending[t].native)) >= 1
  {
    hide Surplus;
    var o := Obj(Instance, 0, 0, s.pending[t].native);
    assert t in Carriers(s.pending, o);
  }

  lemma EndCreateKeepsAccounts(s: System, t: ThreadId)
    requires SystemAccounted(s) && Possible(s, EndCreateInstance(t))
    ensures SystemAccounted(Advance(s, EndCreateInstance(t)))
  {
    if t in s.pending && s.pending[t].Creating? {
      MoveHolds(s, EndCreateInstance(t));
      CarriedIsSurplus(s, t);
      EnteringEvolves(s, t);
      hide PendingHolds, ForestBelow, Counted, TopEdgesMinted, TalliedWorld, InstancesLive, OwnersKnown;
      hide Surplus, Carriers, Drive, Insert, Evolves, ReportsPersist, PendingOwned;
      var after := Advance(s, EndCreateInstance(t));
      InstanceEntered(s.world, s.pending[t].native);
      SameOwnersPersist(s.world, after.world);
      AllStayOwned(s, after.world);
      forall o: Obj | o.kind == Instance ensures Surplus(after.world, o) == |Carriers(after.pending, o)| {
        CarrierRemoved(s.pending, t, o);
      }
    }
  }

  lemma EnteringEvolves(s: System, t: ThreadId)
    requires Holds(s) && Possible(s, EndCreateInstance(t)) && t in s.pending && s.pending[t].Creating?
    ensures Evolves(s.world.reg, Insert(s.world.reg, Instance, Record(s.pending[t].native, 0, 0, 0, 0)))
  {
    hide ForestBelow, TopEdgesMinted, PendingHolds, Insert, Evolves;
    InsertAdds(s.world.reg, Instance, Record(s.pending[t].native, 0, 0, 0, 0));
  }

  lemma BeginEnumerateKeepsAccounts(s: System, t: ThreadId, i: Handle, capacity: nat, found: seq<Native>)
    requires SystemAccounted(s) && t !in s.pending
    requires ConformingTrace(Advance(s, BeginEnumerate(t, i, capacity, found)).world.trace)
    ensures SystemAccounted(Advance(s, BeginEnumerate(t, i, capacity, found)))
  {
    if Key(Instance, i) in s.world.reg.records {
      var after := Advance(s, BeginEnumerate(t, i, capacity, found));
      BeginsHold(s, BeginEnumerate(t, i, capacity, found));
      var shown := Shown(capacity, found);
      assert forall n :: n in shown ==> n in found;
      hide Holds, Accounted, ConformingTrace, Surplus, AllPendingOwned, Carriers, Drive, Shown, ShownOwned;
      DevicesListed(s.world, i, found);
      PendingSwapped(s.pending, t, Enumerating(i, shown));
      ListingStaysOwned(s, after.world, t, i, found, shown);
    }
  }

  lemma ListingStaysOwned(s: System, after: World, t: ThreadId, i: Handle, found: seq<Native>, shown: seq<Native>)
    requires Holds(s) && AllPendingOwned(s) && t !in s.pending && after.reg == s.world.reg
    requires forall r: Ref, x: Native ::
               OwnerIs(Drive(s.world.trace).owner, r, x) ==> OwnerIs(Drive(after.trace).owner, r, x)
    requires ShownOwned(after.reg, Drive(after.trace).owner, i, found) && forall n :: n in shown ==> n in found
    ensures AllPendingOwned(System(after, s.pending[t := Enumerating(i, shown)]))
  {
    AllPendingHold(s);
    EvolvesItself(s.world.reg);
    hide Holds, Evolves, PendingHolds, Drive, OwnerIs;
    SameOwnersPersist(s.world, after);
    hide ReportsPersist;
    AllStayOwned(s, after);
  }

  lemma EvolvesItself(reg: Registry)
    ensures Evolves(reg, reg)
  {
  }

  lemma EndEnumerateKeepsAccounts(s: System, t: ThreadId)
    requires SystemAccounted(s) && Possible(s, EndEnumerate(t))
    ensures SystemAccounted(Advance(s, EndEnumerate(t)))
  {
    if t in s.pending && s.pending[t].Enumerating? {
      var p := s.pending[t];
      var after := Advance(s, EndEnumerate(t));
      MoveHolds(s, EndEnumerate(t));
      PendingSwapped(s.pending, t, p);
      RegisteringEvolves(s, t);
      AllPendingHold(s);
      assert PendingOwned(s.world, p);
      hide Holds, TalliedWorld, InstancesLive, OwnersKnown, Surplus, Carriers, Drive, InsertAll, Evolves, PendingHolds;
      DevicesEntered(s.world, p.instance, p.shown);
      hide ShownOwned;
      SameOwnersPersist(s.world, after.world);
      AllStayOwned(s, after.world);
    }
  }

  lemma RegisteringEvolves(s: System, t: ThreadId)
    requires Holds(s) && Possible(s, EndEnumerate(t)) && t in s.pending && s.pending[t].Enumerating?
    ensures Evolves(s.world.reg, Advance(s, EndEnumerate(t)).world.reg)
  {
    hide ForestBelow, TopEdgesMinted, PendingHolds, InsertAll, Evolves;
    var p := s.pending[t];
    InsertAllAppends(s.world.reg, PhysicalDevice, PhysicalRecords(p.instance, p.shown));
    AppendedEvolves(s.world.reg, PhysicalDevice, PhysicalRecords(p.instance, p.shown),
                    InsertAll(s.world.reg, PhysicalDevice, PhysicalRecords(p.instance, p.shown)));
  }

  /** Where pending creations and enumerations are the same, only the holds of the moved thread are new. */
  lemma SwapKeepsAccounts(s: System, after: System)
    requires SystemAccounted(s) && Holds(after) && Accounted(after.world) && after.world.reg == s.world.reg
    requires Drive(after.world.trace).owner == Drive(s.world.trace).owner
    requires forall o: Obj :: o.kind == Instance ==> Surplus(after.world, o) == Surplus(s.world, o)
    requires forall o: Obj :: Carriers(after.pending, o) == Carriers(s.pending, o)
    requires forall t :: t in after.pending && after.pending[t].Enumerating? ==>
               t in s.pending && after.pending[t] == s.pending[t]
    ensures SystemAccounted(after)
  {
    hide Holds, Accounted, Surplus, Carriers, Drive, ShownOwned;
    forall t | t in after.pending ensures PendingOwned(after.world, after.pending[t]) {
      if after.pending[t].Enumerating? {
        assert PendingOwned(s.world, s.pending[t]);
      }
    }
  }

  lemma BeginFencesKeepsAccounts(s: System, m: Move)
    requires SystemAccounted(s) && Possible(s, m) && m.BeginFences?
    ensures SystemAccounted(Advance(s, m))
  {
    var after := Advance(s, m);
    if after != s {
      BeginsHold(s, m);
      PendingSwapped(s.pending, m.thread, after.pending[m.thread]);
      hide SystemAccounted, Holds, Accounted, Carriers, Surplus, Drive, BelongsTo, FenceNatives;
      assert Accounted(after.world) by { AccountedSystem(s); }
      SwapKeepsAccounts(s, after);
    }
  }

  lemma AccountedSystem(s: System)
    requires SystemAccounted(s)
    ensures Holds(s) && Accounted(s.world)
  {
  }

  lemma EndFencesKeepsAccounts(s: System, m: Move)
    requires SystemAccounted(s) && Possible(s, m) && m.EndFences?
    ensures SystemAccounted(Advance(s, m))
  {
    if m.thread in s.pending && s.pending[m.thread].Fencing? {
      var p := s.pending[m.thread];
      var after := Advance(s, m);
      BeginsHold(s, m);
      PendingSwapped(s.pending, m.thread, p);
      hide SystemAccounted, Holds, Accounted, Carriers, Surplus, Drive, FenceRefs;
      AccountedSystem(s);
      QuietCallAccounts(s.world, Use(NativeAt(s.world.reg, Key(Device, p.device)), FenceRefs(p.natives)));
      SwapKeepsAccounts(s, after);
    }
  }

  lemma AdvanceKeepsAccounts(s: System, m: Move)
    requires SystemAccounted(s) && Possible(s, m) && Ordered(s, m)
    requires ConformingTrace(Advance(s, m).world.trace)
    ensures SystemAccounted(Advance(s, m))
  {
    hide SystemAccounted, WellOrdered, ConformingTrace, Step, InRange;
    match m
    case Whole(req) => WholeKeepsAccounts(s, req);
    case BeginCreateInstance(t, native) => BeginCreateKeepsAccounts(s, t, native);
    case EndCreateInstance(t) => EndCreateKeepsAccounts(s, t);
    case BeginEnumerate(t, i, capacity, found) => BeginEnumerateKeepsAccounts(s, t, i, capacity, found);
    case EndEnumerate(t) => EndEnumerateKeepsAccounts(s, t);
    case BeginFences(_, _, _) => BeginFencesKeepsAccounts(s, m);
    case EndFences(_) => EndFencesKeepsAccounts(s, m);
  }

  // ---- Runs ------------------------------------------------------------------------------------

  ghost predicate RunOrdered(s: System, moves: seq<Move>) {
    moves != [] ==>
      RunOrdered(s, moves[..|moves| - 1]) && Ordered(RunMoves(s, moves[..|moves| - 1]), moves[|moves| - 1])
  }

  /** Threads interleave at will; cascades meet tables in some order, no freed list repeats a buffer. */
  ghost predicate GoodMoves(moves: seq<Move>) {
    && RunPossible(Interleaving.INITIAL, moves) && RunOrdered(Interleaving.INITIAL, moves)
    && ConformingTrace(RunMoves(Interleaving.INITIAL, moves).world.trace)
  }

  lemma MovesGrowTrace(s: System, m: Move)
    ensures s.world.trace <= Advance(s, m).world.trace
  {
    if m.Whole? {
      TraceGrows(s.world, m.req);
    }
  }

  lemma InitiallyAccounted()
    ensures SystemAccounted(Interleaving.INITIAL)
  {
    forall o: Obj ensures Surplus(INITIAL_WORLD, o) == 0 && Carriers(map[], o) == {} && Drive([]).live(o) == 0 {
      assert KeysOf(EMPTY, All(EMPTY), o) == {};
    }
  }

  lemma MovesConform(before: System, m: Move)
    requires ConformingTrace(Advance(before, m).world.trace)
    ensures ConformingTrace(before.world.trace)
    ensures LegalTrace(Advance(before, m).world.trace) ==> LegalTrace(before.world.trace)
  {
    hide Conforms, Legal, Advance;
    var whole := Advance(before, m).world.trace;
    MovesGrowTrace(before, m);
    assert before.world.trace == whole[..|before.world.trace|];
    LegalPrefix(whole, |before.world.trace|);
  }

  lemma {:induction false} MovesKeepAccounts(moves: seq<Move>)
    requires GoodMoves(moves)
    ensures SystemAccounted(RunMoves(Interleaving.INITIAL, moves))
    decreases |moves|
  {
    hide SystemAccounted, Possible, Ordered, ConformingTrace, Advance;
    if moves == [] {
      InitiallyAccounted();
    } else {
      var n := |moves| - 1;
      var before := RunMoves(Interleaving.INITIAL, moves[..n]);
      MovesConform(before, moves[n]);
      MovesKeepAccounts(moves[..n]);
      AdvanceKeepsAccounts(before, moves[n]);
    }
  }

  /**
   * Conservation under interleaving: what was created is what was destroyed, what is
   * recorded, and what some thread still carries to the tables.
   */
  lemma ConservedWhileInterleaved(moves: seq<Move>, o: Obj)
    requires GoodMoves(moves)
    ensures var s := RunMoves(Interleaving.INITIAL, moves);
      Created(s.world.trace, o)
      == Destroyed(s.world.trace, o) + |KeysOf(s.world.reg, All(s.world.reg), o)| + |Carriers(s.pending, o)|
  {
    MovesKeepAccounts(moves);
    var s := RunMoves(Interleaving.INITIAL, moves);
    hide RunMoves, RunPossible, RunOrdered, Holds, OwnersKnown, AllPendingOwned, KeysOf;
    CreatedIsDestroyedPlusLive(s.world.trace, o);
    assert o.kind != Instance ==> Carriers(s.pending, o) == {};
    assert o.kind == Instance ==> Surplus(s.world, o) == |Carriers(s.pending, o)|;
  }

  // ---- The second section of a fence call ---------------------------------------------------------

  /** Some recorded fence of the device has this native. */
  ghost predicate StillAFence(reg: Registry, device: Handle, native: Native) {
    exists h: Handle :: BelongsTo(reg, Key(Fence, h), device) && reg.records[Key(Fence, h)].native == native
  }

  lemma RecordOfFence(reg: Registry, drv: Driver, device: Handle, key: Key, native: Native)
    requires Tallied(reg, All(reg), drv) && Key(Device, device) in reg.records
    requires key in KeysOf(reg, All(reg), Obj(Fence, NativeAt(reg, Key(Device, device)), 0, native))
    ensures StillAFence(reg, device, native)
  {
    assert DeviceIn(reg, All(reg), key) && key == Key(Fence, key.handle);
    OneTallied(reg, All(reg), drv, Key(Device, reg.records[key].parent), Key(Device, device));
    assert BelongsTo(reg, Key(Fence, key.handle), device);
  }

  lemma FenceIsNamedIff(reg: Registry, drv: Driver, device: Handle, native: Native)
    requires Tallied(reg, All(reg), drv) && Key(Device, device) in reg.records
    ensures Names(drv, NativeAt(reg, Key(Device, device)), Ref(Fence, native)) <==> StillAFence(reg, device, native)
  {
    var o := Obj(Fence, NativeAt(reg, Key(Device, device)), 0, native);
    if StillAFence(reg, device, native) {
      var h: Handle :| BelongsTo(reg, Key(Fence, h), device) && reg.records[Key(Fence, h)].native == native;
      assert Key(Fence, h) in KeysOf(reg, All(reg), o);
    } else if key :| key in KeysOf(reg, All(reg), o) {
      RecordOfFence(reg, drv, device, key, native);
    } else {
      assert KeysOf(reg, All(reg), o) == {};
    }
  }

  function WaitCall(s: System, t: ThreadId): Call
    requires t in s.pending && s.pending[t].Fencing?
  {
    Use(NativeAt(s.world.reg, Key(Device, s.pending[t].device)), FenceRefs(s.pending[t].natives))
  }

  /** The call is valid iff each native it passes is that of some fence the device still has. */
  lemma WaitIsValidIff(moves: seq<Move>, t: ThreadId)
    requires GoodMoves(moves)
    requires t in RunMoves(Interleaving.INITIAL, moves).pending
    requires RunMoves(Interleaving.INITIAL, moves).pending[t].Fencing?
    requires Key(Device, RunMoves(Interleaving.INITIAL, moves).pending[t].device) in
      RunMoves(Interleaving.INITIAL, moves).world.reg.records
    ensures var s := RunMoves(Interleaving.INITIAL, moves);
      var p := s.pending[t];
      Legal(Drive(s.world.trace), WaitCall(s, t)) <==>
      forall n :: n in p.natives ==> StillAFence(s.world.reg, p.device, n)
  {
    MovesKeepAccounts(moves);
    WaitIsValidIn(RunMoves(Interleaving.INITIAL, moves), t);
  }

  lemma WaitIsValidIn(s: System, t: ThreadId)
    requires SystemAccounted(s) && t in s.pending && s.pending[t].Fencing?
    requires Key(Device, s.pending[t].device) in s.world.reg.records
    ensures Legal(Drive(s.world.trace), WaitCall(s, t)) <==>
            forall n :: n in s.pending[t].natives ==> StillAFence(s.world.reg, s.pending[t].device, n)
  {
    var p := s.pending[t];
    var drv, under := Drive(s.world.trace), NativeAt(s.world.reg, Key(Device, p.device));
    TalliedIsLive(s.world.reg, All(s.world.reg), drv, Key(Device, p.device));
    hide SystemAccounted, StillAFence, Names;
    forall n | n in p.natives ensures Names(drv, under, Ref(Fence, n)) <==> StillAFence(s.world.reg, p.device, n) {
      TalliedSystem(s);
      FenceIsNamedIff(s.world.reg, drv, p.device, n);
    }
    RefsAreOfNatives(p.natives);
  }

  lemma TalliedSystem(s: System)
    requires SystemAccounted(s)
    ensures Tallied(s.world.reg, All(s.world.reg), Drive(s.world.trace))
  {
  }

  lemma RefsAreOfNatives(natives: seq<Native>)
    ensures forall n :: n in natives <==> Ref(Fence, n) in FenceRefs(natives)
    ensures forall r :: r in FenceRefs(natives) ==> r.kind == Fence && r.native in natives
  {
    forall n | n in natives ensures Ref(Fence, n) in FenceRefs(natives) {
      var j :| 0 <= j < |natives| && natives[j] == n;
      assert FenceRefs(natives)[j] == Ref(Fence, n);
    }
  }

  /** No other fence of the device has a native of the list. */
  ghost predicate NativesAreTheirs(reg: Registry, p: Pending)
    requires p.Fencing? && |p.natives| == |p.fences|
  {
    forall j, h: Handle ::
      0 <= j < |p.fences| && BelongsTo(reg, Key(Fence, h), p.device) &&
      reg.records[Key(Fence, h)].native == p.natives[j] ==>
        h == p.fences[j]
  }

  /** Where fences do not share native handles: valid iff every fence of the list still resolves. */
  lemma WaitIsValidIffFencesResolve(moves: seq<Move>, t: ThreadId)
    requires GoodMoves(moves)
    requires t in RunMoves(Interleaving.INITIAL, moves).pending
    requires RunMoves(Interleaving.INITIAL, moves).pending[t].Fencing?
    requires var s := RunMoves(Interleaving.INITIAL, moves);
      && Key(Device, s.pending[t].device) in s.world.reg.records
      && |s.pending[t].natives| == |s.pending[t].fences| && NativesAreTheirs(s.world.reg, s.pending[t])
    ensures var s := RunMoves(Interleaving.INITIAL, moves);
      var p := s.pending[t];
      Legal(Drive(s.world.trace), WaitCall(s, t)) <==>
      forall h :: h in p.fences ==> Key(Fence, h) in s.world.reg.records
  {
    var s := RunMoves(Interleaving.INITIAL, moves);
    var p := s.pending[t];
    InterleavingsHold(moves);
    WaitIsValidIff(moves, t);
    hide RunMoves, GoodMoves, Legal, WaitCall, ForestBelow, Counted, TopEdgesMinted;
    assert PendingHolds(s.world.reg, p);
    NativesStandForFences(s.world.reg, p);
  }

  lemma NativesStandForFences(reg: Registry, p: Pending)
    requires p.Fencing? && PendingHolds(reg, p) && NativesAreTheirs(reg, p)
    ensures (forall n :: n in p.natives ==> StillAFence(reg, p.device, n)) <==>
            (forall h :: h in p.fences ==> Key(Fence, h) in reg.records)
  {
    forall j | 0 <= j < |p.fences|
      ensures StillAFence(reg, p.device, p.natives[j]) <==> Key(Fence, p.fences[j]) in reg.records
    {
      assert FenceSeen(reg, p.fences[j], p.device, p.natives[j]);
      assert Key(Fence, p.fences[j]) in reg.records ==> BelongsTo(reg, Key(Fence, p.fences[j]), p.device);
    }
    if forall h :: h in p.fences ==> Key(Fence, h) in reg.records {
      forall n | n in p.natives ensures StillAFence(reg, p.device, n) {
        var j :| 0 <= j < |p.natives| && p.natives[j] == n;
        assert p.fences[j] in p.fences;
      }
    }
    if forall n :: n in p.natives ==> StillAFence(reg, p.device, n) {
      forall h | h in p.fences ensures Key(Fence, h) in reg.records {
        var j :| 0 <= j < |p.fences| && p.fences[j] == h;
        assert p.natives[j] in p.natives;
      }
    }
  }

  // ---- Steps that break it ------------------------------------------------------------------------

  lemma MovesSnoc(s: System, moves: seq<Move>, m: Move)
    ensures RunMoves(s, moves + [m]) == Advance(RunMoves(s, moves), m)
    ensures RunPossible(s, moves) && Possible(RunMoves(s, moves), m) ==> RunPossible(s, moves + [m])
    ensures RunOrdered(s, moves) && Ordered(RunMoves(s, moves), m) ==> RunOrdered(s, moves + [m])
  {
    hide Advance, Possible, Ordered;
    var longer := moves + [m];
    assert longer[..|moves|] == moves;
  }

  lemma DestructionConforms(trace: seq<Call>, call: Call)
    requires ConformingTrace(trace) && call.Destroy?
    ensures ConformingTrace(trace + [call])
  {
    var longer := trace + [call];
    assert longer[..|trace|] == trace;
  }

  /** No other fence of the device has this fence's native. */
  ghost predicate OnlyFence(reg: Registry, device: Handle, fence: Handle) {
    && BelongsTo(reg, Key(Fence, fence), device)
    && forall h: Handle ::
         BelongsTo(reg, Key(Fence, h), device) &&
         reg.records[Key(Fence, h)].native == reg.records[Key(Fence, fence)].native ==>
           h == fence
  }

  lemma DestroyedFenceIsNone(w: World, device: Handle, fence: Handle)
    requires Key(Device, device) in w.reg.records && OnlyFence(w.reg, device, fence)
    ensures var after := DestroyChild(w, Fence, device, fence).world;
      && after.trace == w.trace + [DestroyCall(w.reg, Key(Fence, fence))]
      && Key(Device, device) in after.reg.records
      && !StillAFence(after.reg, device, w.reg.records[Key(Fence, fence)].native)
  {
  }

  /** The two moves: a thread looks its fence up, and the fence is destroyed. */
  lemma DestroyAfterLookup(s: System, t: ThreadId, device: Handle, fence: Handle)
    requires t !in s.pending && Key(Device, device) in s.world.reg.records && OnlyFence(s.world.reg, device, fence)
    ensures
      var begun := Advance(s, BeginFences(t, device, [fence]));
      var after := Advance(begun, Whole(DoDestroyChild(Fence, device, fence)));
      && begun.world == s.world
      && after.world.trace == s.world.trace + [DestroyCall(s.world.reg, Key(Fence, fence))]
      && Key(Device, device) in after.world.reg.records
      && t in after.pending && after.pending[t].Fencing? && after.pending[t].device == device
      && exists n :: n in after.pending[t].natives && !StillAFence(after.world.reg, device, n)
  {
    var begun := Advance(s, BeginFences(t, device, [fence]));
    assert begun.pending[t].natives == [s.world.reg.records[Key(Fence, fence)].native];
    assert s.world.reg.records[Key(Fence, fence)].native in begun.pending[t].natives;
    hide OnlyFence, StillAFence;
    DestroyedFenceIsNone(s.world, device, fence);
  }

  lemma DestructionIsOrdered(s: System, begun: System, t: ThreadId, device: Handle, fence: Handle)
    requires t !in s.pending && InRange(s.world, DoDestroyChild(Fence, device, fence)) && begun.world == s.world
    ensures var begin, destroy := BeginFences(t, device, [fence]), Whole(DoDestroyChild(Fence, device, fence));
      Possible(s, begin) && Ordered(s, begin) && Possible(begun, destroy) && Ordered(begun, destroy)
  {
    hide InRange;
  }

  lemma GoodAfterDestroy(moves: seq<Move>, t: ThreadId, device: Handle, fence: Handle)
    requires GoodMoves(moves)
    requires var s := RunMoves(Interleaving.INITIAL, moves);
      && t !in s.pending && Key(Device, device) in s.world.reg.records && OnlyFence(s.world.reg, device, fence)
      && InRange(s.world, DoDestroyChild(Fence, device, fence))
    ensures
      var s := RunMoves(Interleaving.INITIAL, moves);
      var begun := Advance(s, BeginFences(t, device, [fence]));
      var longer := moves + [BeginFences(t, device, [fence])] + [Whole(DoDestroyChild(Fence, device, fence))];
      && GoodMoves(longer)
      && RunMoves(Interleaving.INITIAL, longer) == Advance(begun, Whole(DoDestroyChild(Fence, device, fence)))
  {
    var s := RunMoves(Interleaving.INITIAL, moves);
    var begin, destroy := BeginFences(t, device, [fence]), Whole(DoDestroyChild(Fence, device, fence));
    DestroyAfterLookup(s, t, device, fence);
    DestructionIsOrdered(s, Advance(s, begin), t, device, fence);
    hide StillAFence, OnlyFence, ConformingTrace, Advance, RunMoves, RunPossible, RunOrdered, InRange;
    hide Possible, Ordered;
    MovesSnoc(Interleaving.INITIAL, moves, begin);
    MovesSnoc(Interleaving.INITIAL, moves + [begin], destroy);
    DestructionConforms(s.world.trace, DestroyCall(s.world.reg, Key(Fence, fence)));
  }

  /** A fence destroyed between the two lookups of a wait makes the wait an invalid call. */
  lemma DestroyedFenceBreaksWait(moves: seq<Move>, t: ThreadId, device: Handle, fence: Handle)
    requires GoodMoves(moves)
    requires var s := RunMoves(Interleaving.INITIAL, moves);
      && t !in s.pending && Key(Device, device) in s.world.reg.records && OnlyFence(s.world.reg, device, fence)
      && InRange(s.world, DoDestroyChild(Fence, device, fence))
    ensures
      var longer := moves + [BeginFences(t, device, [fence])] + [Whole(DoDestroyChild(Fence, device, fence))];
      var s := RunMoves(Interleaving.INITIAL, longer);
      && GoodMoves(longer)
      && t in s.pending && s.pending[t].Fencing? && s.pending[t].device == device
      && Key(Device, device) in s.world.reg.records
      && !Legal(Drive(s.world.trace), WaitCall(s, t))
  {
    hide Legal, WaitCall, StillAFence, OnlyFence, GoodMoves, Advance, RunMoves, InRange, Drive;
    DestroyAfterLookup(RunMoves(Interleaving.INITIAL, moves), t, device, fence);
    GoodAfterDestroy(moves, t, device, fence);
    WaitIsValidIff(moves + [BeginFences(t, device, [fence])] + [Whole(DoDestroyChild(Fence, device, fence))], t);
  }
}
