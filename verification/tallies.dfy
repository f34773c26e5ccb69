/**
 * What counting alone gives, without owners and without the edge from physical device to
 * instance: every step undoes only live objects, and below the instances every live object
 * has exactly one record. This much survives when sections of different threads interleave.
 */
module Tallies {
  import opened Results
  import opened Sequences
  import opened HandleTables
  import opened Registries
  import opened NativeDriver
  import opened Linking
  import opened Batches
  import opened Sweeps
  import opened Lifecycle
  import opened TableSafety
  import opened Frames

  ghost predicate InTally(reg: Registry, keys: set<Key>, trace: seq<Call>) {
    BalancedTrace(trace) && Tallied(reg, keys, Drive(trace))
  }

  ghost predicate TalliedWorld(w: World) {
    ForestBelow(w.reg) && Counted(w.reg) && InTally(w.reg, All(w.reg), w.trace)
  }

  lemma TallySnoc(reg: Registry, keys: set<Key>, trace: seq<Call>, call: Call, longer: seq<Call>)
    requires BalancedTrace(trace) && longer == trace + [call]
    requires Balanced(Drive(trace), call) && Tallied(reg, keys, Apply(Drive(trace), call))
    ensures InTally(reg, keys, longer)
  {
    hide Balanced, Tallied, BalancedTrace;
    TraceSnoc(trace, call);
  }

  // ---- Pools and their buffers ------------------------------------------------------------

  lemma NewPoolIsEmpty(reg: Registry, record: Record)
    requires ForestBelow(reg) && Counted(reg) && Next(reg, CommandPool) + 1 < U64
    ensures var key := Key(CommandPool, Next(reg, CommandPool)); Dropped(Insert(reg, CommandPool, record), key) == {key}
  {
    var key := Key(CommandPool, Next(reg, CommandPool));
    InsertAdds(reg, CommandPool, record);
    forall b | b in reg.records && b.kind == CommandBuffer ensures reg.records[b].pool != key.handle {
      assert EdgeHolds(reg, b);
    }
  }

  ghost predicate PoolOfDevice(reg: Registry, device: Handle, pool: Handle) {
    Key(Device, device) in reg.records && BelongsTo(reg, Key(CommandPool, pool), device)
  }

  lemma MintedNatives(reg: Registry, device: Handle, pool: Handle, level: nat, made: seq<Native>, added: Registry)
    requires PoolOfDevice(reg, device, pool) && Next(reg, CommandBuffer) + |made| <= U64
    requires Appended(reg, CommandBuffer, RecordsFor(made, device, pool, level, 0), added)
    ensures var minted := Minted(Next(reg, CommandBuffer), |made|);
      && BuffersIn(added, device, pool, minted) && PoolOfDevice(added, device, pool)
      && FreeCall(added, device, pool, minted)
      == NativeDriver.FreeCommandBuffers(NativeAt(reg, Key(Device, device)), NativeAt(reg, Key(CommandPool, pool)),
                                         made)
  {
    var minted := Minted(Next(reg, CommandBuffer), |made|);
    assert BufferNatives(added, minted) == made;
  }

  // ---- Destroying ----------------------------------------------------------------------

  lemma TallySweepStep(reg: Registry, ds: set<Handle>, sweep: seq<Key>, i: nat, drv: Driver)
    requires ForestBelow(reg) && SweepOf(reg, ds, sweep) && i < |sweep|
    requires Tallied(reg, Left(reg, sweep[..i]), drv)
    ensures Legal(drv, DestroyCall(reg, sweep[i]))
    ensures Tallied(reg, Left(reg, sweep[..i + 1]), Apply(drv, DestroyCall(reg, sweep[i])))
  {
    var key := sweep[i];
    var keys := Left(reg, sweep[..i]);
    assert sweep[..i + 1] == sweep[..i] + [key];
    assert key in sweep;
    NextIsLeft(reg, ds, sweep, i);
    hide ForestBelow, SweepOf, Tallied, Left, Legal, Apply;
    if key.kind == Device {
      DeviceComesLast(reg, ds, sweep, i);
      TallyDestroyDevice(reg, keys, drv, key);
      LeftAfterDevice(reg, sweep[..i], key);
    } else {
      TallyDestroyCreatable(reg, keys, drv, key);
      LeftAfterCreatable(reg, sweep[..i], key);
    }
  }

  lemma NextIsLeft(reg: Registry, ds: set<Handle>, sweep: seq<Key>, i: nat)
    requires SweepOf(reg, ds, sweep) && i < |sweep|
    ensures sweep[i] in Left(reg, sweep[..i]) && (sweep[i].kind == Device || Creatable(sweep[i].kind))
  {
    assert sweep[i] in sweep && sweep[i] !in sweep[..i];
  }

  lemma TallySweepBegins(reg: Registry, sweep: seq<Key>, trace: seq<Call>)
    requires InTally(reg, All(reg), trace)
    ensures InTally(reg, Left(reg, sweep[..0]), trace + SweepCalls(reg, sweep[..0]))
    ensures trace + SweepCalls(reg, sweep[..0]) == trace
  {
    hide BalancedTrace, Tallied;
    assert Left(reg, sweep[..0]) == All(reg);
    assert trace + SweepCalls(reg, sweep[..0]) == trace;
  }

  lemma TallySweepExtends(reg: Registry, ds: set<Handle>, sweep: seq<Key>, i: nat, trace: seq<Call>)
    requires ForestBelow(reg) && SweepOf(reg, ds, sweep) && i < |sweep|
    requires InTally(reg, Left(reg, sweep[..i]), trace + SweepCalls(reg, sweep[..i]))
    ensures InTally(reg, Left(reg, sweep[..i + 1]), trace + SweepCalls(reg, sweep[..i + 1]))
    ensures LegalTrace(trace + SweepCalls(reg, sweep[..i + 1])) <==> LegalTrace(trace + SweepCalls(reg, sweep[..i]))
  {
    hide ForestBelow, SweepOf, BalancedTrace, Tallied, Legal, LegalTrace, Balanced, Left, SweepCalls;
    var before := trace + SweepCalls(reg, sweep[..i]);
    var call := DestroyCall(reg, sweep[i]);
    TallySweepStep(reg, ds, sweep, i, Drive(before));
    SweepCallsSnoc(reg, sweep, i, trace);
    LegalIsBalanced(Drive(before), call);
    LegalSnoc(before, call);
    TallySnoc(reg, Left(reg, sweep[..i + 1]), before, call, trace + SweepCalls(reg, sweep[..i + 1]));
  }

  /** Every prefix of a cascade makes valid calls and leaves what is left in step. */
  lemma {:induction false} TallySweepRuns(reg: Registry, ds: set<Handle>, sweep: seq<Key>, i: nat, trace: seq<Call>)
    requires ForestBelow(reg) && SweepOf(reg, ds, sweep) && i <= |sweep|
    requires InTally(reg, All(reg), trace)
    ensures InTally(reg, Left(reg, sweep[..i]), trace + SweepCalls(reg, sweep[..i]))
    ensures LegalTrace(trace + SweepCalls(reg, sweep[..i])) <==> LegalTrace(trace)
    decreases i
  {
    hide ForestBelow, SweepOf, InTally, Left, SweepCalls, LegalTrace;
    if i == 0 {
      TallySweepBegins(reg, sweep, trace);
    } else {
      TallySweepRuns(reg, ds, sweep, i - 1, trace);
      TallySweepExtends(reg, ds, sweep, i - 1, trace);
    }
  }

  lemma TallyMovesInTrace(a: Registry, b: Registry, trace: seq<Call>)
    requires Agree(a, b) && InTally(a, All(b), trace)
    ensures InTally(b, All(b), trace)
  {
    hide BalancedTrace, Tallied;
    TallyMoves(a, b, All(b), Drive(trace));
  }

  /** A whole cascade over devices. */
  lemma TallySweeps(reg: Registry, ds: set<Handle>, sweep: seq<Key>, trace: seq<Call>)
    requires ForestBelow(reg) && SweepOf(reg, ds, sweep) && InTally(reg, All(reg), trace)
    ensures var after := RemoveDevices(reg, ds); InTally(after, All(after), trace + SweepCalls(reg, sweep))
    ensures LegalTrace(trace + SweepCalls(reg, sweep)) <==> LegalTrace(trace)
  {
    hide ForestBelow, SweepOf, InTally, Left, SweepCalls, LegalTrace;
    TallySweepRuns(reg, ds, sweep, |sweep|, trace);
    assert sweep[..|sweep|] == sweep;
    SweepLeavesRest(reg, ds, sweep);
    TallyMovesInTrace(reg, RemoveDevices(reg, ds), trace + SweepCalls(reg, sweep));
  }

  lemma TallyDestroyChild(w: World, k: Kind, d: Handle, h: Handle)
    requires TalliedWorld(w) && Creatable(k)
    ensures var after := DestroyChild(w, k, d, h).world; InTally(after.reg, All(after.reg), after.trace)
  {
    var key := Key(k, h);
    if Key(Device, d) in w.reg.records && BelongsTo(w.reg, key, d) {
      TallyDropped(w.reg, w.trace, key);
    }
  }

  lemma TallyDropped(reg: Registry, trace: seq<Call>, key: Key)
    requires InTally(reg, All(reg), trace) && key in reg.records && Creatable(key.kind)
    ensures Legal(Drive(trace), DestroyCall(reg, key))
    ensures var after := Without(reg, Dropped(reg, key)); InTally(after, All(after), trace + [DestroyCall(reg, key)])
  {
    hide BalancedTrace, Balanced, Tallied, Legal, Dropped;
    var after := Without(reg, Dropped(reg, key));
    var call := DestroyCall(reg, key);
    TallyDestroyCreatable(reg, All(reg), Drive(trace), key);
    LegalIsBalanced(Drive(trace), call);
    TallySnoc(reg, All(reg) - Dropped(reg, key), trace, call, trace + [call]);
    assert All(after) == All(reg) - Dropped(reg, key);
    TallyMovesInTrace(reg, after, trace + [call]);
  }

  // ---- Creating and handing out ---------------------------------------------------------

  /** The records of a creating call count what it made. */
  lemma TallyCreates(reg: Registry, trace: seq<Call>, k: Kind, records: seq<Record>, under: Native, nativePool: Native)
    requires InTally(reg, All(reg), trace) && Batch(reg, k, records, under, nativePool)
    requires Conforms(Drive(trace), Create(k, under, nativePool, Natives(records)))
    ensures var after := InsertAll(reg, k, records);
      InTally(after, All(after), trace + [Create(k, under, nativePool, Natives(records))])
  {
    hide BalancedTrace, ForestBelow, Conforms, KeysOf, InsertAll;
    var after := InsertAll(reg, k, records);
    var call := Create(k, under, nativePool, Natives(records));
    BatchKeepsForest(reg, k, records, under, nativePool);
    ForestBelowIsClosedBelow(after);
    ConformingKeepsUnique(Drive(trace), call);
    forall o: Obj | o.kind != Instance ensures Apply(Drive(trace), call).live(o) == |KeysOf(after, All(after), o)| {
      InsertAllCounts(reg, k, records, under, nativePool, o);
      ApplyLive(Drive(trace), call, o);
    }
    TallySnoc(after, All(after), trace, call, trace + [call]);
  }

  predicate Neutral(call: Call) {
    call.Use? || call.Query? || call.Retrieve? || (call.Create? && call.made == [])
  }

  /** A call that creates and destroys nothing. */
  lemma TallyNeutral(reg: Registry, trace: seq<Call>, call: Call)
    requires InTally(reg, All(reg), trace) && Neutral(call)
    ensures InTally(reg, All(reg), trace + [call])
  {
    hide BalancedTrace, KeysOf, ClosedBelow;
    forall o: Obj ensures Apply(Drive(trace), call).live(o) == Drive(trace).live(o) {
      ApplyLive(Drive(trace), call, o);
    }
    TallySnoc(reg, All(reg), trace, call, trace + [call]);
  }

  /** Records of handed-out natives count as nothing. */
  lemma TallyRetrieved(reg: Registry, trace: seq<Call>, k: Kind, records: seq<Record>)
    requires ForestBelow(reg) && Counted(reg) && InTally(reg, All(reg), trace)
    requires !Owned(k) && Next(reg, k) + |records| < U64 && forall r :: r in records ==> ParentsPresent(reg, k, r)
    ensures var after := InsertAll(reg, k, records); InTally(after, All(after), trace)
  {
    hide BalancedTrace, KeysOf, InsertAll, Appended, EdgeHolds;
    var after := InsertAll(reg, k, records);
    InsertAllAppends(reg, k, records);
    InsertAllKeepsForest(reg, k, records);
    ForestBelowIsClosedBelow(after);
    forall o: Obj | o.kind != Instance ensures Drive(trace).live(o) == |KeysOf(after, All(after), o)| {
      RetrieveCounts(reg, k, records, after, o);
    }
  }

  lemma TallyCreateOne(reg: Registry, trace: seq<Call>, k: Kind, record: Record, under: Native)
    requires InTally(reg, All(reg), trace) && Batch(reg, k, [record], under, 0)
    requires ConformingTrace(trace + [Create(k, under, 0, [record.native])])
    ensures var after := Insert(reg, k, record);
      InTally(after, All(after), trace + [Create(k, under, 0, [record.native])])
  {
    hide InTally, Batch, ConformingTrace, Conforms, InsertAll;
    assert Natives([record]) == [record.native];
    TraceSnoc(trace, Create(k, under, 0, [record.native]));
    InsertIsBatch(reg, k, record);
    TallyCreates(reg, trace, k, [record], under, 0);
  }

  lemma TallyCreateDevice(w: World, p: Handle, env: Env)
    requires TalliedWorld(w) && Next(w.reg, Device) + 1 < U64
    requires ConformingTrace(CreateDevice(w, p, env).world.trace)
    ensures var after := CreateDevice(w, p, env).world; InTally(after.reg, All(after.reg), after.trace)
  {
    hide InTally, ForestBelow, Counted, ConformingTrace, Insert;
    if env.argsOk && env.decoded && Key(PhysicalDevice, p) in w.reg.records {
      var under := NativeAt(w.reg, Key(PhysicalDevice, p));
      if env.status == SUCCESS {
        TallyCreateOne(w.reg, w.trace, Device, Record(MadeOne(env)[0], p, 0, 0, 0), under);
      } else {
        TallyNeutral(w.reg, w.trace, Create(Device, under, 0, []));
      }
    }
  }

  lemma TallyPoolRollback(reg: Registry, trace: seq<Call>, record: Record, under: Native)
    requires ForestBelow(reg) && Counted(reg) && Next(reg, CommandPool) + 1 < U64
    requires Key(Device, record.parent) in reg.records && under == NativeAt(reg, Key(Device, record.parent))
    requires var added := Insert(reg, CommandPool, record); InTally(added, All(added), trace)
    ensures var after := Without(Insert(reg, CommandPool, record), {Key(CommandPool, Next(reg, CommandPool))});
      InTally(after, All(after), trace + [Destroy(CommandPool, under, record.native)])
  {
    hide InTally, ForestBelow, Dropped;
    var added := Insert(reg, CommandPool, record);
    var key := Key(CommandPool, Next(reg, CommandPool));
    InsertAdds(reg, CommandPool, record);
    NewPoolIsEmpty(reg, record);
    TallyDropped(added, trace, key);
    assert DestroyCall(added, key) == Destroy(CommandPool, under, record.native);
  }

  lemma TallyCreateChild(w: World, k: Kind, d: Handle, word0: nat, word1: nat, env: Env)
    requires TalliedWorld(w) && Creatable(k) && Next(w.reg, k) + 1 < U64
    requires ConformingTrace(CreateChild(w, k, d, word0, word1, env).world.trace)
    ensures var after := CreateChild(w, k, d, word0, word1, env).world; InTally(after.reg, All(after.reg), after.trace)
  {
    hide InTally, ForestBelow, Counted, ConformingTrace, Insert, Without;
    if env.argsOk && env.decoded && Key(Device, d) in w.reg.records {
      var under := NativeAt(w.reg, Key(Device, d));
      if env.status == SUCCESS {
        var record := Record(MadeOne(env)[0], d, 0, word0, word1);
        var trace := w.trace + [Create(k, under, 0, [record.native])];
        if k == CommandPool && !env.published {
          TraceSnoc(trace, Destroy(k, under, record.native));
          TallyCreateOne(w.reg, w.trace, k, record, under);
          TallyPoolRollback(w.reg, trace, record, under);
        } else {
          TallyCreateOne(w.reg, w.trace, k, record, under);
        }
      } else {
        TallyNeutral(w.reg, w.trace, Create(k, under, 0, []));
      }
    }
  }

  lemma TallyQueue(w: World, d: Handle, family: nat, index: nat, env: Env)
    requires TalliedWorld(w) && Next(w.reg, Queue) + 1 < U64
    ensures var after := GetDeviceQueue(w, d, family, index, env).world; InTally(after.reg, All(after.reg), after.trace)
  {
    hide InTally, ForestBelow, Counted, Insert, InsertAll;
    if env.argsOk && Key(Device, d) in w.reg.records {
      var call := Retrieve(Queue, NativeAt(w.reg, Key(Device, d)), MadeOne(env));
      TallyNeutral(w.reg, w.trace, call);
      if env.status == SUCCESS {
        var record := Record(MadeOne(env)[0], d, 0, family, index);
        InsertIsBatch(w.reg, Queue, record);
        TallyRetrieved(w.reg, w.trace + [call], Queue, [record]);
      }
    }
  }

  // ---- Command buffers ----------------------------------------------------------------------

  lemma TallyAfterFree(reg: Registry, device: Handle, pool: Handle, handles: seq<Handle>, drv: Driver, o: Obj)
    requires Tallied(reg, All(reg), drv) && NoDup(handles) && BuffersIn(reg, device, pool, handles)
    ensures var call := FreeCall(reg, device, pool, handles);
      && UndoneBy(call, o, drv.live(o)) <= drv.live(o)
      && (o.kind != Instance ==> Apply(drv, call).live(o) ==
                                  |KeysOf(reg, All(reg) - KeysOfKind(CommandBuffer, handles), o)|)
  {
    hide ObjOf, KeysOf, ClosedBelow, FreeCall;
    FreeCounts(reg, All(reg), device, pool, handles, o);
    FreeUndoes(reg, device, pool, handles, o, drv.live(o));
    ApplyLive(drv, FreeCall(reg, device, pool, handles), o);
  }

  lemma FreeUndoes(reg: Registry, device: Handle, pool: Handle, handles: seq<Handle>, o: Obj, live: nat)
    ensures var call := FreeCall(reg, device, pool, handles);
      && UndoneBy(call, o, live) == UndoneBy(call, o, 0) && MadeBy(call, o) == 0
      && (o.kind != CommandBuffer ==> UndoneBy(call, o, live) == 0)
  {
  }

  /** Freeing distinct buffers of a pool undoes what is erased. */
  lemma TallyFreed(reg: Registry, trace: seq<Call>, device: Handle, pool: Handle, handles: seq<Handle>)
    requires ForestBelow(reg) && InTally(reg, All(reg), trace) && NoDup(handles)
    requires BuffersIn(reg, device, pool, handles)
    ensures var after := Without(reg, KeysOfKind(CommandBuffer, handles));
      InTally(after, All(after), trace + [FreeCall(reg, device, pool, handles)])
  {
    hide BalancedTrace, KeysOf, FreeCall, BuffersIn, UndoneBy;
    var gone := KeysOfKind(CommandBuffer, handles);
    var after := Without(reg, gone);
    var call := FreeCall(reg, device, pool, handles);
    forall o: Obj
      ensures UndoneBy(call, o, Drive(trace).live(o)) <= Drive(trace).live(o)
      ensures o.kind != Instance ==> Apply(Drive(trace), call).live(o) == |KeysOf(reg, All(reg) - gone, o)|
    {
      TallyAfterFree(reg, device, pool, handles, Drive(trace), o);
    }
    FreeConforms(reg, device, pool, handles, Drive(trace));
    WithoutBuffersClosedBelow(reg, gone);
    TallySnoc(reg, All(reg) - gone, trace, call, trace + [call]);
    assert All(after) == All(reg) - gone;
    TallyMovesInTrace(reg, after, trace + [call]);
  }

  lemma FreeConforms(reg: Registry, device: Handle, pool: Handle, handles: seq<Handle>, drv: Driver)
    requires Unique(drv)
    ensures Unique(Apply(drv, FreeCall(reg, device, pool, handles)))
  {
    ConformingKeepsUnique(drv, FreeCall(reg, device, pool, handles));
  }

  lemma WithoutBuffersClosedBelow(reg: Registry, gone: set<Key>)
    requires ForestBelow(reg) && forall key :: key in gone ==> key.kind == CommandBuffer
    ensures ClosedBelow(reg, All(reg) - gone)
  {
    ForestBelowIsClosedBelow(reg);
    forall key | key in All(reg) - gone ensures DeviceIn(reg, All(reg) - gone, key) {
      assert DeviceIn(reg, All(reg), key);
    }
  }

  lemma TallyFree(w: World, d: Handle, pool: Handle, handles: seq<Handle>, env: Env)
    requires TalliedWorld(w) && WellOrdered(w, DoFreeCommandBuffers(d, pool, handles, env))
    ensures var after := Lifecycle.FreeCommandBuffers(w, d, pool, handles, env).world;
      InTally(after.reg, All(after.reg), after.trace)
  {
    hide InTally, ForestBelow, Counted, Without, FreeCall;
    if Lifecycle.FreeCommandBuffers(w, d, pool, handles, env).result == SUCCESS {
      TallyFreed(w.reg, w.trace, d, pool, handles);
    }
  }

  lemma TallyBuffersCreated(reg: Registry, trace: seq<Call>, d: Handle, pool: Handle, level: nat, made: seq<Native>)
    requires ForestBelow(reg) && Counted(reg) && InTally(reg, All(reg), trace)
    requires PoolOfDevice(reg, d, pool) && Next(reg, CommandBuffer) + |made| < U64
    requires Conforms(Drive(trace),
                      Create(CommandBuffer, NativeAt(reg, Key(Device, d)), NativeAt(reg, Key(CommandPool, pool)), made))
    ensures var added := InsertAll(reg, CommandBuffer, RecordsFor(made, d, pool, level, 0));
      InTally(added, All(added),
              trace
                + [Create(CommandBuffer, NativeAt(reg, Key(Device, d)), NativeAt(reg, Key(CommandPool, pool)), made)])
  {
    hide InTally, ForestBelow, Counted, Conforms, InsertAll;
    var records := RecordsFor(made, d, pool, level, 0);
    assert Natives(records) == made;
    TallyCreates(reg, trace, CommandBuffer, records, NativeAt(reg, Key(Device, d)),
                 NativeAt(reg, Key(CommandPool, pool)));
  }

  /** A batch that is undone at once leaves the tally as it was. */
  lemma TallyBuffersUndone(reg: Registry, trace: seq<Call>, d: Handle, pool: Handle, level: nat, made: seq<Native>)
    requires ForestBelow(reg) && Counted(reg) && InTally(reg, All(reg), trace)
    requires PoolOfDevice(reg, d, pool) && Next(reg, CommandBuffer) + |made| < U64
    requires Conforms(Drive(trace),
                      Create(CommandBuffer, NativeAt(reg, Key(Device, d)), NativeAt(reg, Key(CommandPool, pool)), made))
    ensures var under, nativePool := NativeAt(reg, Key(Device, d)), NativeAt(reg, Key(CommandPool, pool));
      InTally(reg, All(reg), trace + [Create(CommandBuffer, under, nativePool, made)]
                                   + [NativeDriver.FreeCommandBuffers(under, nativePool, made)])
  {
    hide InTally, ForestBelow, Conforms, InsertAll, Without, Appended;
    var under, nativePool := NativeAt(reg, Key(Device, d)), NativeAt(reg, Key(CommandPool, pool));
    var records := RecordsFor(made, d, pool, level, 0);
    var added := InsertAll(reg, CommandBuffer, records);
    var minted := Minted(Next(reg, CommandBuffer), |made|);
    var created := trace + [Create(CommandBuffer, under, nativePool, made)];
    TallyBuffersCreated(reg, trace, d, pool, level, made);
    InsertAllAppends(reg, CommandBuffer, records);
    InsertAllKeepsForest(reg, CommandBuffer, records);
    MintedNatives(reg, d, pool, level, made, added);
    TallyFreed(added, created, d, pool, minted);
    RollbackRestores(reg, CommandBuffer, records);
    var rolled := Without(added, KeysOfKind(CommandBuffer, minted));
    SameRecordsTally(rolled, reg, created + [FreeCall(added, d, pool, minted)]);
  }

  lemma SameRecordsTally(a: Registry, b: Registry, trace: seq<Call>)
    requires InTally(a, All(a), trace) && a.records == b.records
    ensures InTally(b, All(b), trace)
  {
    TallyMovesInTrace(a, b, trace);
  }

  lemma TallyAllocate(w: World, d: Handle, pool: Handle, level: nat, count: nat, env: Env)
    requires TalliedWorld(w) && Next(w.reg, CommandBuffer) + |env.natives| < U64
    requires ConformingTrace(AllocateCommandBuffers(w, d, pool, level, count, env).world.trace)
    ensures var after := AllocateCommandBuffers(w, d, pool, level, count, env).world;
      InTally(after.reg, All(after.reg), after.trace)
  {
    hide InTally, ForestBelow, ConformingTrace, Conforms, InsertAll;
    var outcome := AllocateCommandBuffers(w, d, pool, level, count, env);
    if PoolOfDevice(w.reg, d, pool) && outcome.world.trace != w.trace {
      var under, nativePool := NativeAt(w.reg, Key(Device, d)), NativeAt(w.reg, Key(CommandPool, pool));
      var create := Create(CommandBuffer, under, nativePool, MadeMany(env));
      if env.status != SUCCESS {
        TallyNeutral(w.reg, w.trace, create);
      } else if outcome.result == SUCCESS {
        TraceSnoc(w.trace, create);
        TallyBuffersCreated(w.reg, w.trace, d, pool, level, env.natives);
      } else {
        TraceSnoc(w.trace + [create], NativeDriver.FreeCommandBuffers(under, nativePool, env.natives));
        TraceSnoc(w.trace, create);
        TallyBuffersUndone(w.reg, w.trace, d, pool, level, env.natives);
        RollbackRestores(w.reg, CommandBuffer, RecordsFor(env.natives, d, pool, level, 0));
        SameRecordsTally(w.reg, outcome.world.reg, outcome.world.trace);
      }
    }
  }

  // ---- Instances --------------------------------------------------------------------------------

  /** Instances and physical devices count as nothing below. */
  lemma TallyTopGoes(reg: Registry, trace: seq<Call>, gone: set<Key>)
    requires InTally(reg, All(reg), trace)
    requires forall key :: key in gone ==> key.kind == Instance || key.kind == PhysicalDevice
    ensures var after := Without(reg, gone); InTally(after, All(after), trace)
  {
    hide BalancedTrace, ObjOf;
    var after := Without(reg, gone);
    forall key | key in All(after) ensures DeviceIn(reg, All(after), key) {
      assert DeviceIn(reg, All(reg), key);
    }
    forall o: Obj | o.kind != Instance ensures KeysOf(reg, All(after), o) == KeysOf(reg, All(reg), o) {
      TopKeysAreElsewhere(reg, gone, o);
    }
    TallyMovesInTrace(reg, after, trace);
  }

  lemma TopKeysAreElsewhere(reg: Registry, gone: set<Key>, o: Obj)
    requires o.kind != Instance
    requires forall key :: key in gone ==> key.kind == Instance || key.kind == PhysicalDevice
    ensures KeysOf(reg, All(reg) - gone, o) == KeysOf(reg, All(reg), o)
    ensures All(Without(reg, gone)) == All(reg) - gone
  {
  }

  lemma TallyDestroyTop(reg: Registry, trace: seq<Call>, native: Native)
    requires InTally(reg, All(reg), trace) && IsLive(Drive(trace), Instance, native)
    ensures InTally(reg, All(reg), trace + [Destroy(Instance, 0, native)])
  {
    hide BalancedTrace, KeysOf, ClosedBelow;
    var call := Destroy(Instance, 0, native);
    ConformingKeepsUnique(Drive(trace), call);
    forall o: Obj
      ensures UndoneBy(call, o, Drive(trace).live(o)) <= Drive(trace).live(o)
      ensures o.kind != Instance ==> Apply(Drive(trace), call).live(o) == Drive(trace).live(o)
    {
      ApplyLive(Drive(trace), call, o);
    }
    TallySnoc(reg, All(reg), trace, call, trace + [call]);
  }

  lemma InstanceKeysAreTop(reg: Registry, i: Handle)
    ensures forall key :: key in InstanceKeys(reg, i) ==> key.kind == Instance || key.kind == PhysicalDevice
  {
  }

  /** After the sweep of its devices, an instance and its records go. */
  lemma TallyInstanceGoes(reg: Registry, i: Handle, sweep: seq<Key>, trace: seq<Call>, native: Native)
    requires ForestBelow(reg) && InTally(reg, All(reg), trace) && IsLive(Drive(trace), Instance, native)
    requires SweepOf(reg, DevicesOf(reg, i), sweep)
    ensures var after := RemoveInstance(reg, i);
      InTally(after, All(after), trace + SweepCalls(reg, sweep) + [Destroy(Instance, 0, native)])
  {
    hide InTally, ForestBelow, SweepOf, SweepCalls, DevicesOf, RemoveDevices, Without, InstanceKeys;
    InstanceKeysAreTop(reg, i);
    var swept := trace + SweepCalls(reg, sweep);
    var rest := RemoveDevices(reg, DevicesOf(reg, i));
    SweepSpares(reg, DevicesOf(reg, i), sweep, trace);
    SparingCalls(trace, swept);
    TallySweeps(reg, DevicesOf(reg, i), sweep, trace);
    TallyDestroyTop(rest, swept, native);
    TallyTopGoes(rest, swept + [Destroy(Instance, 0, native)], InstanceKeys(reg, i));
  }

  lemma TallyDestroyInstance(w: World, i: Handle, sweep: seq<Key>)
    requires TalliedWorld(w) && InstancesLive(w)
    requires Swept(w, DoDestroyInstance(i, sweep))
    ensures var after := DestroyInstance(w, i, sweep).world; InTally(after.reg, All(after.reg), after.trace)
  {
    hide InTally, ForestBelow, Counted, SweepOf, SweepCalls, RemoveInstance, DevicesOf, Surplus;
    if Key(Instance, i) in w.reg.records {
      RecordedIsLive(w, i);
      TallyInstanceGoes(w.reg, i, sweep, w.trace, NativeAt(w.reg, Key(Instance, i)));
    }
  }

  // ---- Every step -----------------------------------------------------------------------------------

  lemma TallyDeviceSwept(w: World, d: Handle, sweep: seq<Key>)
    requires TalliedWorld(w) && Swept(w, DoDestroyDevice(d, sweep))
    ensures var after := DestroyDevice(w, d, sweep).world; InTally(after.reg, All(after.reg), after.trace)
  {
    hide InTally, ForestBelow, Counted, SweepOf, SweepCalls, RemoveDevices;
    if Key(Device, d) in w.reg.records {
      TallySweeps(w.reg, {d}, sweep, w.trace);
    }
  }

  lemma TallyUse(w: World, d: Handle, keys: seq<Key>, env: Env)
    requires TalliedWorld(w)
    ensures var after := UseObjects(w, d, keys, env).world; InTally(after.reg, All(after.reg), after.trace)
  {
    hide InTally, ForestBelow, Counted;
    TallyNeutral(w.reg, w.trace, Use(NativeAt(w.reg, Key(Device, d)), RefsOf(w.reg, keys)));
  }

  lemma TallyWait(w: World, q: Handle, status: int)
    requires TalliedWorld(w)
    ensures var after := QueueWaitIdle(w, q, status).world; InTally(after.reg, All(after.reg), after.trace)
  {
    hide InTally, ForestBelow, Counted;
    if Key(Queue, q) in w.reg.records {
      var device := Key(Device, w.reg.records[Key(Queue, q)].parent);
      TallyNeutral(w.reg, w.trace, Use(NativeAt(w.reg, device), [RefOf(w.reg, Key(Queue, q))]));
    }
  }

  lemma TallyQuery(w: World, p: Handle, query: PhysicalQuery, handing: Handing, env: Env)
    requires TalliedWorld(w)
    ensures var after := QueryPhysicalDevice(w, p, query, handing, env).world;
      InTally(after.reg, All(after.reg), after.trace)
  {
    hide InTally, ForestBelow, Counted;
    TallyNeutral(w.reg, w.trace, Query(NativeAt(w.reg, Key(PhysicalDevice, p))));
  }

  lemma StepTallies(w: World, req: Request)
    requires TalliedWorld(w) && InRange(w, req) && WellOrdered(w, req) && InstancesLive(w)
    requires ConformingTrace(Step(w, req).world.trace)
    requires !req.DoCreateInstance? && !req.DoEnumeratePhysicalDevices?
    ensures var after := Step(w, req).world; InTally(after.reg, All(after.reg), after.trace)
  {
    hide InTally, TalliedWorld, ConformingTrace, Swept, FreesOnce, InstancesLive;
    match req
    case DoDestroyInstance(i, sweep) => TallyDestroyInstance(w, i, sweep);
    case DoQueryPhysicalDevice(p, query, handing, env) => TallyQuery(w, p, query, handing, env);
    case DoCreateDevice(p, env) => TallyCreateDevice(w, p, env);
    case DoDestroyDevice(d, sweep) => TallyDeviceSwept(w, d, sweep);
    case DoGetDeviceQueue(d, family, index, env) => TallyQueue(w, d, family, index, env);
    case DoCreateChild(k, d, word0, word1, env) => TallyCreateChild(w, k, d, word0, word1, env);
    case DoDestroyChild(k, d, h) => TallyDestroyChild(w, k, d, h);
    case DoAllocateCommandBuffers(d, pool, level, count, env) => TallyAllocate(w, d, pool, level, count, env);
    case DoFreeCommandBuffers(d, pool, hs, env) => TallyFree(w, d, pool, hs, env);
    case DoUseObjects(d, keys, env) => TallyUse(w, d, keys, env);
    case DoQueueWaitIdle(q, status) => TallyWait(w, q, status);
  }

  /** Whatever the owners and the top edges are, a step keeps forest, counters and tally. */
  lemma StepKeepsTally(w: World, req: Request)
    requires TalliedWorld(w) && InRange(w, req) && WellOrdered(w, req) && InstancesLive(w)
    requires ConformingTrace(Step(w, req).world.trace)
    requires !req.DoCreateInstance? && !req.DoEnumeratePhysicalDevices?
    ensures TalliedWorld(Step(w, req).world)
  {
    hide InTally, ForestBelow, Counted, TopEdges, Evolves, ConformingTrace, WellOrdered, Step, InRange;
    StepKeepsTables(w, req);
    StepTallies(w, req);
  }
}
