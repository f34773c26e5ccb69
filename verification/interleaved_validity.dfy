/**
 * When the native calls of interleaved sections are valid: exactly when each move meets a
 * condition of its own, and always when no enumeration outlives its instance, no fence its
 * wait, and no freed list repeats a buffer.
 */
module InterleavedValidity {
  import opened Results
  import opened HandleTables
  import opened Registries
  import opened NativeDriver
  import opened Linking
  import opened Sweeps
  import opened Lifecycle
  import opened TableSafety
  import opened Frames
  import opened Tallies
  import opened Ownership
  import opened Validity
  import opened DriverSafety
  import opened Reports
  import opened Interleaving
  import opened InterleavedDriver

  // ---- One move ------------------------------------------------------------------------

  /** Each fence the thread found is still a fence of its device, if the device is there. */
  ghost predicate FencesStand(s: System, t: ThreadId) {
    t in s.pending && s.pending[t].Fencing? && Key(Device, s.pending[t].device) in s.world.reg.records ==>
      forall n :: n in s.pending[t].natives ==> StillAFence(s.world.reg, s.pending[t].device, n)
  }

  /** What the native calls of a move need beyond what the tables check. */
  ghost predicate MoveValid(s: System, m: Move) {
    match m
    case Whole(req) => ValidHere(s.world, req)
    case EndFences(t) => FencesStand(s, t)
    case _ => true
  }

  ghost predicate SweptMove(s: System, m: Move) {
    m.Whole? ==> Swept(s.world, m.req)
  }

  lemma BeginIsValid(s: System, m: Move)
    requires SystemAccounted(s) && !m.Whole? && !m.EndFences?
    ensures LegalTrace(Advance(s, m).world.trace) <==> LegalTrace(s.world.trace)
  {
    hide Holds, TalliedWorld, InstancesLive, OwnersKnown, InstancesCarried, AllPendingOwned, LegalTrace, Drive;
    hide Insert, InsertAll, Shown, Surplus, FenceNatives;
    match m
    case BeginCreateInstance(_, native) => LegalSnoc(s.world.trace, Create(Instance, 0, 0, [native]));
    case BeginEnumerate(_, i, _, found) =>
      if Key(Instance, i) in s.world.reg.records {
        SystemInstanceIsLive(s, i);
        LegalSnoc(s.world.trace, Retrieve(PhysicalDevice, NativeAt(s.world.reg, Key(Instance, i)), found));
      }
    case _ =>
  }

  lemma SystemInstanceIsLive(s: System, i: Handle)
    requires SystemAccounted(s) && Key(Instance, i) in s.world.reg.records
    ensures IsLive(Drive(s.world.trace), Instance, NativeAt(s.world.reg, Key(Instance, i)))
  {
    hide Holds, TalliedWorld, OwnersKnown, AllPendingOwned, Surplus, Drive;
    RecordedIsLive(s.world, i);
  }

  lemma EndFencesIsValidIff(s: System, t: ThreadId)
    requires SystemAccounted(s)
    ensures LegalTrace(Advance(s, EndFences(t)).world.trace) <==> LegalTrace(s.world.trace) && FencesStand(s, t)
  {
    hide SystemAccounted, LegalTrace, Legal, StillAFence, Drive, FenceRefs;
    if t in s.pending && s.pending[t].Fencing? && Key(Device, s.pending[t].device) in s.world.reg.records {
      WaitIsValidIn(s, t);
      LegalSnoc(s.world.trace, WaitCall(s, t));
    }
  }

  lemma MoveIsValidIff(s: System, m: Move)
    requires SystemAccounted(s) && Possible(s, m) && SweptMove(s, m)
    ensures LegalTrace(Advance(s, m).world.trace) <==> LegalTrace(s.world.trace) && MoveValid(s, m)
  {
    hide LegalTrace, Swept, ValidHere, FencesStand, InRange, Step, Holds, Accounted, InstancesCarried, AllPendingOwned;
    match m
    case Whole(req) => StepIsValidIff(s.world, req);
    case EndFences(t) => EndFencesIsValidIff(s, t);
    case _ => BeginIsValid(s, m);
  }

  // ---- Whole runs -----------------------------------------------------------------------

  ghost predicate RunSweptMoves(s: System, moves: seq<Move>) {
    moves != [] ==>
      RunSweptMoves(s, moves[..|moves| - 1]) && SweptMove(RunMoves(s, moves[..|moves| - 1]), moves[|moves| - 1])
  }

  /** Every move of the run met its condition. */
  ghost predicate RunValid(s: System, moves: seq<Move>) {
    moves != [] ==>
      RunValid(s, moves[..|moves| - 1]) && MoveValid(RunMoves(s, moves[..|moves| - 1]), moves[|moves| - 1])
  }

  /** Threads interleave at will, a conforming driver answers, and cascades meet the tables in some order. */
  ghost predicate AnyMoves(moves: seq<Move>) {
    && RunPossible(Interleaving.INITIAL, moves) && RunSweptMoves(Interleaving.INITIAL, moves)
    && ConformingTrace(RunMoves(Interleaving.INITIAL, moves).world.trace)
  }

  lemma ValidIsOrdered(s: System, m: Move)
    requires SweptMove(s, m) && MoveValid(s, m)
    ensures Ordered(s, m)
  {
    hide Swept, FreesOnce, Reported, OwnsNoOrphan;
    assert m.Whole? && !m.req.DoFreeCommandBuffers? ==> FreesOnce(s.world, m.req) by {
      OnlyFreesRepeat(s.world, m);
    }
  }

  lemma OnlyFreesRepeat(w: World, m: Move)
    ensures m.Whole? && !m.req.DoFreeCommandBuffers? ==> FreesOnce(w, m.req)
  {
  }

  lemma {:induction false} ValidRunIsOrdered(s: System, moves: seq<Move>)
    requires RunSweptMoves(s, moves) && RunValid(s, moves)
    ensures RunOrdered(s, moves)
    decreases |moves|
  {
    hide SweptMove, MoveValid, Ordered, RunMoves;
    if moves != [] {
      var n := |moves| - 1;
      ValidRunIsOrdered(s, moves[..n]);
      ValidIsOrdered(RunMoves(s, moves[..n]), moves[n]);
    }
  }

  lemma AnyPrefix(moves: seq<Move>)
    requires moves != [] && AnyMoves(moves)
    ensures var n := |moves| - 1;
      var before := RunMoves(Interleaving.INITIAL, moves[..n]);
      && AnyMoves(moves[..n]) && Possible(before, moves[n]) && SweptMove(before, moves[n])
      && RunMoves(Interleaving.INITIAL, moves) == Advance(before, moves[n])
      && ConformingTrace(Advance(before, moves[n]).world.trace)
  {
    hide Possible, SweptMove, ConformingTrace, Advance;
    MovesConform(RunMoves(Interleaving.INITIAL, moves[..|moves| - 1]), moves[|moves| - 1]);
  }

  /** A run whose moves so far were valid is accounted for. */
  lemma ValidRunIsAccounted(moves: seq<Move>)
    requires AnyMoves(moves) && RunValid(Interleaving.INITIAL, moves)
    ensures GoodMoves(moves) && SystemAccounted(RunMoves(Interleaving.INITIAL, moves))
  {
    hide RunPossible, RunSweptMoves, RunValid, RunOrdered, ConformingTrace, RunMoves, SystemAccounted;
    ValidRunIsOrdered(Interleaving.INITIAL, moves);
    MovesKeepAccounts(moves);
  }

  /** In every interleaving: all native calls are valid iff each move met its condition. */
  lemma {:induction false} EveryMoveIsValidIff(moves: seq<Move>)
    requires AnyMoves(moves)
    ensures LegalTrace(RunMoves(Interleaving.INITIAL, moves).world.trace) <==> RunValid(Interleaving.INITIAL, moves)
    decreases |moves|
  {
    hide Possible, SweptMove, Advance, MoveValid, SystemAccounted, Legal, AnyMoves, ConformingTrace;
    if moves != [] {
      var n := |moves| - 1;
      var before := RunMoves(Interleaving.INITIAL, moves[..n]);
      AnyPrefix(moves);
      EveryMoveIsValidIff(moves[..n]);
      MovesConform(before, moves[n]);
      if RunValid(Interleaving.INITIAL, moves[..n]) {
        ValidRunIsAccounted(moves[..n]);
        MoveIsValidIff(before, moves[n]);
      }
    }
  }

  // ---- When it suffices to guard the second sections -------------------------------------------

  /**
   * The second section of an enumeration finds its instance, or shows nothing; that of a
   * fence call finds its fences; and a list that is freed repeats no buffer.
   */
  ghost predicate Guarded(s: System, m: Move) {
    match m
    case Whole(req) => FreesOnce(s.world, req)
    case EndEnumerate(t) =>
      t in s.pending && s.pending[t].Enumerating? ==>
        Key(Instance, s.pending[t].instance) in s.world.reg.records || s.pending[t].shown == []
    case EndFences(t) => FencesStand(s, t)
    case _ => true
  }

  ghost predicate RunGuarded(s: System, moves: seq<Move>) {
    moves != [] ==>
      RunGuarded(s, moves[..|moves| - 1]) && Guarded(RunMoves(s, moves[..|moves| - 1]), moves[|moves| - 1])
  }

  lemma GuardedIsValid(s: System, m: Move)
    requires SystemAccounted(s) && TopEdges(s.world.reg) && Guarded(s, m)
    ensures MoveValid(s, m)
  {
    hide Holds, Accounted, InstancesCarried, AllPendingOwned, TopEdges, FreesOnce, FencesStand, ValidHere;
    if m.Whole? {
      TopIsValidHere(s.world, m.req);
    }
  }

  lemma GuardedKeepsTop(s: System, m: Move)
    requires Holds(s) && Possible(s, m) && TopEdges(s.world.reg) && Guarded(s, m)
    ensures TopEdges(Advance(s, m).world.reg)
  {
    match m
    case Whole(req) =>
      hide TopEdges, TopEdgesMinted, PendingHolds, InRange, FreesOnce, Step, Evolves;
      StepKeepsTables(s.world, req);
    case EndEnumerate(t) =>
      if t in s.pending && s.pending[t].Enumerating? {
        EnumerationDanglesIff(s, t);
      }
    case EndCreateInstance(t) =>
      if t in s.pending && s.pending[t].Creating? {
        EntryKeepsTop(s.world.reg, Record(s.pending[t].native, 0, 0, 0, 0));
      }
    case _ =>
  }

  lemma EntryKeepsTop(reg: Registry, record: Record)
    requires ForestBelow(reg) && Counted(reg) && TopEdges(reg) && Next(reg, Instance) + 1 < U64
    ensures TopEdges(Insert(reg, Instance, record))
  {
    hide ForestBelow, Counted, TopEdges, Insert;
    InsertKeepsForest(reg, Instance, record);
  }

  /** Then every native call of the interleaving is valid, and every parent edge stands. */
  lemma GuardedRunIsValid(moves: seq<Move>)
    requires AnyMoves(moves) && RunGuarded(Interleaving.INITIAL, moves)
    ensures LegalTrace(RunMoves(Interleaving.INITIAL, moves).world.trace)
    ensures Forest(RunMoves(Interleaving.INITIAL, moves).world.reg)
  {
    GuardedRun(moves);
    EveryMoveIsValidIff(moves);
    ValidRunIsAccounted(moves);
  }

  lemma {:induction false} GuardedRun(moves: seq<Move>)
    requires AnyMoves(moves) && RunGuarded(Interleaving.INITIAL, moves)
    ensures RunValid(Interleaving.INITIAL, moves) && TopEdges(RunMoves(Interleaving.INITIAL, moves).world.reg)
    decreases |moves|
  {
    hide Possible, SweptMove, Advance, MoveValid, Guarded, TopEdges, AnyMoves, Holds, Accounted;
    if moves == [] {
      NoTopAtFirst();
    } else {
      var n := |moves| - 1;
      AnyPrefix(moves);
      GuardedRun(moves[..n]);
      ValidRunIsAccounted(moves[..n]);
      GuardedIsValid(RunMoves(Interleaving.INITIAL, moves[..n]), moves[n]);
      GuardedKeepsTop(RunMoves(Interleaving.INITIAL, moves[..n]), moves[n]);
    }
  }

  lemma NoTopAtFirst()
    ensures TopEdges(Interleaving.INITIAL.world.reg)
  {
  }

  // ---- Calls on a physical device -----------------------------------------------------------------

  /** The two kinds of call on a physical device that a guest can ask for. */
  predicate CallOn(call: Call, physical: Native) {
    call == Query(physical) || (call.Create? && call.kind == Device && call.under == physical)
  }

  /** A call on a recorded physical device is valid iff some recorded instance still lists it. */
  lemma PhysicalCallIsValidIffListed(moves: seq<Move>, p: Handle, call: Call)
    requires GoodMoves(moves)
    requires Key(PhysicalDevice, p) in RunMoves(Interleaving.INITIAL, moves).world.reg.records
    requires CallOn(call, NativeAt(RunMoves(Interleaving.INITIAL, moves).world.reg, Key(PhysicalDevice, p)))
    ensures var w := RunMoves(Interleaving.INITIAL, moves).world;
      Legal(Drive(w.trace), call) <==>
      exists h: Handle :: Key(Instance, h) in w.reg.records
        && StillListed(w.trace, NativeAt(w.reg, Key(Instance, h)), NativeAt(w.reg, Key(PhysicalDevice, p)))
  {
    var w := RunMoves(Interleaving.INITIAL, moves).world;
    var native := NativeAt(w.reg, Key(PhysicalDevice, p));
    MovesKeepAccounts(moves);
    hide RunMoves, RunPossible, RunOrdered, ConformingTrace, Holds, TalliedWorld, InstancesCarried, AllPendingOwned;
    hide ReportersRecorded, OwnersHold, InstancesLive, StillListed, PhysicalDeviceIsLive, Drive;
    PhysicalIsLiveIff(w, native);
    forall h: Handle
      ensures ReportedBy(w, native, h) <==>
              Key(Instance, h) in w.reg.records && StillListed(w.trace, NativeAt(w.reg, Key(Instance, h)), native)
    {
      OwnerIsLister(w.trace, NativeAt(w.reg, Key(Instance, h)), native);
    }
  }

  /** It is valid as long as the instance it was recorded under resolves. */
  lemma PhysicalCallIsValid(moves: seq<Move>, p: Handle, call: Call)
    requires GoodMoves(moves)
    requires var reg := RunMoves(Interleaving.INITIAL, moves).world.reg;
      && Key(PhysicalDevice, p) in reg.records && Resolves(reg, Key(PhysicalDevice, p))
      && CallOn(call, NativeAt(reg, Key(PhysicalDevice, p)))
    ensures Legal(Drive(RunMoves(Interleaving.INITIAL, moves).world.trace), call)
  {
    var w := RunMoves(Interleaving.INITIAL, moves).world;
    MovesKeepAccounts(moves);
    hide RunMoves, RunPossible, RunOrdered, ConformingTrace, Holds, TalliedWorld, InstancesCarried, AllPendingOwned;
    hide ReportersRecorded, OwnersHold, InstancesLive, PhysicalDeviceIsLive, Reported, Drive;
    PhysicalIsReported(w, p);
    PhysicalIsLiveIff(w, NativeAt(w.reg, Key(PhysicalDevice, p)));
  }

  /** And where no other recorded instance still lists the same native, exactly as long. */
  lemma PhysicalCallIsValidIffInstanceResolves(moves: seq<Move>, p: Handle, call: Call)
    requires GoodMoves(moves)
    requires var w := RunMoves(Interleaving.INITIAL, moves).world;
      && Key(PhysicalDevice, p) in w.reg.records && CallOn(call, NativeAt(w.reg, Key(PhysicalDevice, p)))
      && forall h: Handle :: Key(Instance, h) in w.reg.records && h != w.reg.records[Key(PhysicalDevice, p)].parent ==>
           !StillListed(w.trace, NativeAt(w.reg, Key(Instance, h)), NativeAt(w.reg, Key(PhysicalDevice, p)))
    ensures var w := RunMoves(Interleaving.INITIAL, moves).world;
      Legal(Drive(w.trace), call) <==> Key(Instance, w.reg.records[Key(PhysicalDevice, p)].parent) in w.reg.records
  {
    var w := RunMoves(Interleaving.INITIAL, moves).world;
    PhysicalCallIsValidIffListed(moves, p, call);
    hide GoodMoves, RunMoves, StillListed, Legal;
    if Key(Instance, w.reg.records[Key(PhysicalDevice, p)].parent) in w.reg.records {
      PhysicalCallIsValid(moves, p, call);
    }
  }

  // ---- Destroying an instance ------------------------------------------------------------------------

  /**
   * In every interleaving the calls of an instance's cascade are valid, and its own is iff the
   * driver owns to it no device recorded under a physical device whose instance is gone.
   */
  lemma InstanceGoesIffNoOrphan(moves: seq<Move>, i: Handle, sweep: seq<Key>)
    requires GoodMoves(moves)
    requires var reg := RunMoves(Interleaving.INITIAL, moves).world.reg;
      Key(Instance, i) in reg.records && SweepOf(reg, DevicesOf(reg, i), sweep)
    ensures var w := RunMoves(Interleaving.INITIAL, moves).world;
      && (LegalTrace(w.trace + SweepCalls(w.reg, sweep)) <==> LegalTrace(w.trace))
      && (Legal(Drive(w.trace + SweepCalls(w.reg, sweep)), DestroyCall(w.reg, Key(Instance, i))) <==>
            OwnsNoOrphan(w, i))
  {
    MovesKeepAccounts(moves);
    var w := RunMoves(Interleaving.INITIAL, moves).world;
    hide RunMoves, RunPossible, RunOrdered, ConformingTrace, Holds, InstancesCarried, AllPendingOwned;
    hide InstancesLive, OwnersKnown, SweepOf, SweepCalls, LegalTrace, Legal, InTally, OwnsNoOrphan;
    InstanceCallIsLegalIff(w, i, sweep);
    TallySweeps(w.reg, DevicesOf(w.reg, i), sweep, w.trace);
  }
}
