/**
 * Entry points that take the lock twice, or call the driver outside it, run here as
 * two moves with anything in between.
 */
module Interleaving {
  import opened Results
  import opened HandleTables
  import opened Registries
  import opened NativeDriver
  import opened Linking
  import opened Lifecycle
  import opened TableSafety
  import opened Frames

  type ThreadId = nat

  /** What a thread carries from its first section to its second. */
  datatype Pending =
    | Creating(native: Native)
    | Enumerating(instance: Handle, shown: seq<Native>)
    | Fencing(device: Handle, deviceRecord: Record, fences: seq<Handle>, natives: seq<Native>)

  datatype System = System(world: World, pending: map<ThreadId, Pending>)

  const INITIAL := System(INITIAL_WORLD, map[])

  datatype Move =
    | Whole(req: Request)
    | BeginCreateInstance(thread: ThreadId, native: Native)
    | EndCreateInstance(thread: ThreadId)
    | BeginEnumerate(thread: ThreadId, instance: Handle, capacity: nat, found: seq<Native>)
    | EndEnumerate(thread: ThreadId)
    | BeginFences(thread: ThreadId, device: Handle, fences: seq<Handle>)
    | EndFences(thread: ThreadId)

  function FenceNatives(reg: Registry, fences: seq<Handle>): (ns: seq<Native>)
    ensures |ns| == |fences|
  {
    seq(|fences|, i requires 0 <= i < |fences| => NativeAt(reg, Key(Fence, fences[i])))
  }

  function FenceRefs(natives: seq<Native>): seq<Ref> {
    seq(|natives|, i requires 0 <= i < |natives| => Ref(Fence, natives[i]))
  }

  function Advance(s: System, m: Move): System {
    var reg := s.world.reg;
    match m
    case Whole(req) => s.(world := Step(s.world, req).world)
    case BeginCreateInstance(t, native) =>
      System(Calling(s.world, Create(Instance, 0, 0, [native])), s.pending[t := Creating(native)])
    case EndCreateInstance(t) =>
      if t in s.pending && s.pending[t].Creating? then
        System(s.world.(reg := Insert(reg, Instance, Record(s.pending[t].native, 0, 0, 0, 0))), s.pending - {t})
      else s
    case BeginEnumerate(t, i, capacity, found) =>
      if Key(Instance, i) in reg.records then
        System(Calling(s.world, Retrieve(PhysicalDevice, NativeAt(reg, Key(Instance, i)), found)),
               s.pending[t := Enumerating(i, Shown(capacity, found))])
      else s
    case EndEnumerate(t) =>
      if t in s.pending && s.pending[t].Enumerating? then
        var p := s.pending[t];
        System(s.world.(reg := InsertAll(reg, PhysicalDevice, PhysicalRecords(p.instance, p.shown))), s.pending - {t})
      else s
    case BeginFences(t, d, fences) =>
      if Key(Device, d) in reg.records && forall h :: h in fences ==> BelongsTo(reg, Key(Fence, h), d) then
        s.(pending := s.pending[t := Fencing(d, reg.records[Key(Device, d)], fences, FenceNatives(reg, fences))])
      else s
    case EndFences(t) =>
      if t in s.pending && s.pending[t].Fencing? then
        var p := s.pending[t];
        if Key(Device, p.device) in reg.records then
          System(Calling(s.world, Use(NativeAt(reg, Key(Device, p.device)), FenceRefs(p.natives))), s.pending - {t})
        else s.(pending := s.pending - {t})
      else s
  }

  function RunMoves(s: System, moves: seq<Move>): System {
    if moves == [] then s else Advance(RunMoves(s, moves[..|moves| - 1]), moves[|moves| - 1])
  }

  /** Counters stay below the wrap, the split entry points really are split, and a thread makes one call at a time. */
  ghost predicate Possible(s: System, m: Move) {
    match m
    case Whole(req) =>
      InRange(s.world, req) && !req.DoCreateInstance? && !req.DoEnumeratePhysicalDevices?
    case BeginCreateInstance(t, _) => t !in s.pending
    case BeginEnumerate(t, _, _, _) => t !in s.pending
    case BeginFences(t, _, _) => t !in s.pending
    case EndCreateInstance(_) => Next(s.world.reg, Instance) + 1 < U64
    case EndEnumerate(t) =>
      t in s.pending && s.pending[t].Enumerating? ==> Next(s.world.reg, PhysicalDevice) + |s.pending[t].shown| < U64
    case _ => true
  }

  ghost predicate RunPossible(s: System, moves: seq<Move>) {
    moves != [] ==>
      RunPossible(s, moves[..|moves| - 1]) && Possible(RunMoves(s, moves[..|moves| - 1]), moves[|moves| - 1])
  }

  /** The key was minted, and if it still resolves, to the native seen then. */
  ghost predicate SeenAs(reg: Registry, key: Key, native: Native) {
    key.handle < Next(reg, key.kind) && (key in reg.records ==> reg.records[key].native == native)
  }

  /** A fence seen under a device: if it still resolves, it is the same fence of that device. */
  ghost predicate FenceSeen(reg: Registry, fence: Handle, device: Handle, native: Native) {
    && SeenAs(reg, Key(Fence, fence), native)
    && (Key(Fence, fence) in reg.records ==> reg.records[Key(Fence, fence)].parent == device)
  }

  ghost predicate PendingHolds(reg: Registry, p: Pending) {
    match p
    case Creating(_) => true
    case Enumerating(i, _) => 1 <= i < Next(reg, Instance)
    case Fencing(d, record, fences, natives) =>
      && SeenAs(reg, Key(Device, d), record.native) && |natives| == |fences|
      && forall j :: 0 <= j < |fences| ==> FenceSeen(reg, fences[j], d, natives[j])
  }

  ghost predicate Holds(s: System) {
    && ForestBelow(s.world.reg) && Counted(s.world.reg) && TopEdgesMinted(s.world.reg)
    && forall t :: t in s.pending ==> PendingHolds(s.world.reg, s.pending[t])
  }

  lemma PendingSurvives(reg: Registry, after: Registry, p: Pending)
    requires Evolves(reg, after) && PendingHolds(reg, p)
    ensures PendingHolds(after, p)
  {
    match p
    case Creating(_) =>
    case Enumerating(i, _) => assert Counter(reg.next, Instance) <= Counter(after.next, Instance);
    case Fencing(d, record, fences, natives) =>
      SeenSurvives(reg, after, Key(Device, d), record.native);
      forall j | 0 <= j < |fences| ensures FenceSeen(after, fences[j], d, natives[j]) {
        assert FenceSeen(reg, fences[j], d, natives[j]);
        SeenSurvives(reg, after, Key(Fence, fences[j]), natives[j]);
      }
  }

  lemma SeenSurvives(reg: Registry, after: Registry, key: Key, native: Native)
    requires Evolves(reg, after) && SeenAs(reg, key, native)
    ensures SeenAs(after, key, native)
  {
    assert Counter(reg.next, key.kind) <= Counter(after.next, key.kind);
  }

  ghost predicate PhysicalFrom(reg: Registry, after: Registry) {
    forall key :: key in after.records && key.kind == PhysicalDevice ==>
      key in reg.records && reg.records[key] == after.records[key]
  }

  /** No entry point but enumeration adds a physical device. */
  lemma StepAddsNoPhysical(w: World, req: Request)
    requires InRange(w, req) && !req.DoEnumeratePhysicalDevices? && !req.DoCreateInstance?
    ensures PhysicalFrom(w.reg, Step(w, req).world.reg)
  {
    if req.DoDestroyInstance? {
      hide Doomed, InstanceKeys, DevicesOf;
    } else {
      NoInstanceTouched(w, req);
      hide Step, InRange;
      StepTouches(w, req, {PhysicalDevice});
    }
  }

  lemma WholeHolds(s: System, req: Request)
    requires Holds(s) && Possible(s, Whole(req))
    ensures Holds(Advance(s, Whole(req)))
  {
    var reg, after := s.world.reg, Step(s.world, req).world.reg;
    StepKeepsTables(s.world, req);
    assert Counter(reg.next, Instance) <= Counter(after.next, Instance);
    StepAddsNoPhysical(s.world, req);
    forall t | t in s.pending ensures PendingHolds(after, s.pending[t]) {
      PendingSurvives(reg, after, s.pending[t]);
    }
  }

  lemma EndsHold(s: System, m: Move)
    requires Holds(s) && Possible(s, m) && (m.EndCreateInstance? || m.EndEnumerate?)
    ensures Holds(Advance(s, m))
  {
    var reg, after := s.world.reg, Advance(s, m).world.reg;
    if after != reg {
      var p := s.pending[m.thread];
      var k := if m.EndCreateInstance? then Instance else PhysicalDevice;
      var records :=
        if m.EndCreateInstance? then [Record(p.native, 0, 0, 0, 0)] else PhysicalRecords(p.instance, p.shown);
      if m.EndCreateInstance? {
        InsertIsBatch(reg, k, records[0]);
      }
      BatchHolds(s, k, records);
      forall t | t in s.pending ensures PendingHolds(after, s.pending[t]) {
        PendingSurvives(reg, after, s.pending[t]);
      }
    }
  }

  lemma BatchHolds(s: System, k: Kind, records: seq<Record>)
    requires Holds(s) && (k == Instance || k == PhysicalDevice) && Next(s.world.reg, k) + |records| < U64
    requires k == PhysicalDevice ==> forall r :: r in records ==> 1 <= r.parent < Next(s.world.reg, Instance)
    ensures var after := InsertAll(s.world.reg, k, records);
      ForestBelow(after) && Counted(after) && TopEdgesMinted(after) && Evolves(s.world.reg, after)
  {
    var reg := s.world.reg;
    var after := InsertAll(reg, k, records);
    InsertAllAppends(reg, k, records);
    InsertAllKeepsForest(reg, k, records);
    AppendedEvolves(reg, k, records, after);
    forall key | key in after.records && key.kind == PhysicalDevice
      ensures 1 <= after.records[key].parent < Next(after, Instance)
    {
      if key !in reg.records {
        AppendedNew(reg, k, records, after, key);
        assert after.records[key] in records;
      }
    }
  }

  lemma BeginsHold(s: System, m: Move)
    requires Holds(s) && !m.Whole? && !m.EndCreateInstance? && !m.EndEnumerate?
    ensures Holds(Advance(s, m))
  {
    var after := Advance(s, m);
    if m.BeginFences? && after != s {
      var p := after.pending[m.thread];
      forall j | 0 <= j < |p.fences| ensures FenceSeen(s.world.reg, p.fences[j], m.device, p.natives[j]) {
        assert BelongsTo(s.world.reg, Key(Fence, p.fences[j]), m.device);
      }
    }
  }

  lemma MoveHolds(s: System, m: Move)
    requires Holds(s) && Possible(s, m)
    ensures Holds(Advance(s, m))
  {
    match m
    case Whole(req) => WholeHolds(s, req);
    case EndCreateInstance(_) => EndsHold(s, m);
    case EndEnumerate(_) => EndsHold(s, m);
    case _ => BeginsHold(s, m);
  }

  /** In every interleaving all edges stand but those of physical devices whose instance went. */
  lemma {:induction false} InterleavingsHold(moves: seq<Move>)
    requires RunPossible(INITIAL, moves)
    ensures Holds(RunMoves(INITIAL, moves))
    decreases |moves|
  {
    if moves != [] {
      var n := |moves| - 1;
      InterleavingsHold(moves[..n]);
      MoveHolds(RunMoves(INITIAL, moves[..n]), moves[n]);
    }
  }

  /** The fence calls' second lookup finds the first lookup's device, and fences still there are the same fences. */
  lemma SecondLookupAgrees(moves: seq<Move>, t: ThreadId)
    requires RunPossible(INITIAL, moves)
    requires t in RunMoves(INITIAL, moves).pending && RunMoves(INITIAL, moves).pending[t].Fencing?
    ensures var s := RunMoves(INITIAL, moves);
      var p := s.pending[t];
      && (Key(Device, p.device) in s.world.reg.records ==>
            s.world.reg.records[Key(Device, p.device)].native == p.deviceRecord.native)
      && ((forall h :: h in p.fences ==> Key(Fence, h) in s.world.reg.records) ==>
            p.natives == FenceNatives(s.world.reg, p.fences))
  {
    InterleavingsHold(moves);
    var s := RunMoves(INITIAL, moves);
    var p := s.pending[t];
    assert PendingHolds(s.world.reg, p);
    if forall h :: h in p.fences ==> Key(Fence, h) in s.world.reg.records {
      forall j | 0 <= j < |p.fences| ensures p.natives[j] == FenceNatives(s.world.reg, p.fences)[j] {
        assert FenceSeen(s.world.reg, p.fences[j], p.device, p.natives[j]) && p.fences[j] in p.fences;
      }
    }
  }

  /** A second enumeration section keeps the top edges iff the instance still resolves or nothing is shown. */
  lemma EnumerationDanglesIff(s: System, t: ThreadId)
    requires Holds(s) && TopEdges(s.world.reg) && Possible(s, EndEnumerate(t))
    requires t in s.pending && s.pending[t].Enumerating?
    ensures TopEdges(Advance(s, EndEnumerate(t)).world.reg) <==>
            Key(Instance, s.pending[t].instance) in s.world.reg.records || s.pending[t].shown == []
  {
    var p := s.pending[t];
    var reg := s.world.reg;
    var records := PhysicalRecords(p.instance, p.shown);
    var after := InsertAll(reg, PhysicalDevice, records);
    InsertAllAppends(reg, PhysicalDevice, records);
    hide ForestBelow, TopEdgesMinted, PendingHolds, InsertAll;
    forall key | key in after.records && key !in reg.records
      ensures key.kind == PhysicalDevice && after.records[key].parent == p.instance
    {
      AppendedNew(reg, PhysicalDevice, records, after, key);
    }
    assert p.shown != [] ==> Key(PhysicalDevice, Next(reg, PhysicalDevice)) in after.records;
    assert p.shown != [] ==> Key(PhysicalDevice, Next(reg, PhysicalDevice)) !in reg.records;
  }

  /** What an enumeration leaves when its instance goes between the sections. */
  lemma DanglingEnumeration(s: System, t: ThreadId, i: Handle, capacity: nat, found: seq<Native>, sweep: seq<Key>)
    requires t !in s.pending && Key(Instance, i) in s.world.reg.records
    ensures
      var begun := Advance(s, BeginEnumerate(t, i, capacity, found));
      var between := Advance(begun, Whole(DoDestroyInstance(i, sweep)));
      var native := NativeAt(s.world.reg, Key(Instance, i));
      && between.world.reg == RemoveInstance(s.world.reg, i)
      && between.world.trace ==
         s.world.trace + [Retrieve(PhysicalDevice, native, found)] + Sweeps.SweepCalls(s.world.reg, sweep)
         + [Destroy(Instance, 0, native)]
      && Advance(between, EndEnumerate(t)).world == World(
           InsertAll(between.world.reg, PhysicalDevice, PhysicalRecords(i, Shown(capacity, found))),
           between.world.trace)
  {
    hide RemoveInstance, InsertAll, Shown, PhysicalRecords;
  }

  lemma RemovalCounts(reg: Registry, i: Handle)
    requires Counted(reg)
    ensures Counted(RemoveInstance(reg, i)) && RemoveInstance(reg, i).next == reg.next
    ensures Key(Instance, i) !in RemoveInstance(reg, i).records
  {
  }

  lemma ShownDangle(reg: Registry, i: Handle, shown: seq<Native>)
    requires Counted(reg) && shown != [] && Next(reg, PhysicalDevice) + |shown| < U64
    requires Key(Instance, i) !in reg.records
    ensures !TopEdges(InsertAll(reg, PhysicalDevice, PhysicalRecords(i, shown)))
  {
    var records := PhysicalRecords(i, shown);
    var after := InsertAll(reg, PhysicalDevice, records);
    InsertAllAppends(reg, PhysicalDevice, records);
    hide InsertAll, Counted;
    assert after.records[Key(PhysicalDevice, Next(reg, PhysicalDevice))] == records[0];
    assert Key(Instance, i) !in after.records;
  }

  /** And it happens: destroying the instance between the two sections leaves a dangling edge. */
  lemma DestroyBetweenSectionsDangles(s: System, t: ThreadId, i: Handle, capacity: nat, found: seq<Native>,
          sweep: seq<Key>)
    requires Holds(s) && t !in s.pending && Key(Instance, i) in s.world.reg.records
    requires Shown(capacity, found) != [] && Next(s.world.reg, PhysicalDevice) + |found| < U64
    ensures var begun := Advance(s, BeginEnumerate(t, i, capacity, found));
      var between := Advance(begun, Whole(DoDestroyInstance(i, sweep)));
      !TopEdges(Advance(between, EndEnumerate(t)).world.reg)
  {
    hide Advance, RemoveInstance, ForestBelow, TopEdgesMinted, PendingHolds, Counted;
    DanglingEnumeration(s, t, i, capacity, found, sweep);
    RemovalCounts(s.world.reg, i);
    ShownDangle(RemoveInstance(s.world.reg, i), i, Shown(capacity, found));
  }
}
