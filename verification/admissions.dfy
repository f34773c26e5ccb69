/** What a request that makes or lists objects records of them: which native, under which parent, with what words. */
module Admissions {
  import opened Results
  import opened HandleTables
  import opened Registries
  import opened NativeDriver
  import opened Linking
  import opened Batches
  import opened Lifecycle
  import opened Answers
  import opened Interleaving

  /** n records are new under the next handles of k, every other record is as it was, and no other counter moved. */
  ghost predicate OnlyAdds(reg: Registry, k: Kind, n: nat, after: Registry) {
    && (forall key :: key in after.records <==> key in reg.records || IsNew(reg, k, n, key))
    && (forall key :: key in reg.records && key in after.records ==> after.records[key] == reg.records[key])
    && (forall j :: Counter(after.next, j) == Counter(reg.next, j) + if j == k then n else 0)
  }

  lemma AppendedOnlyAdds(reg: Registry, k: Kind, records: seq<Record>, after: Registry)
    requires Appended(reg, k, records, after)
    ensures OnlyAdds(reg, k, |records|, after)
    ensures forall j :: 0 <= j < |records| ==>
              Key(k, Next(reg, k) + j) in after.records && after.records[Key(k, Next(reg, k) + j)] == records[j]
  {
    forall j | 0 <= j < |records|
      ensures Key(k, Next(reg, k) + j) in after.records && after.records[Key(k, Next(reg, k) + j)] == records[j]
    {
      var h := Next(reg, k) + j;
      assert records[h - Next(reg, k)] == records[j];
    }
  }

  lemma InsertedOnlyAdds(reg: Registry, k: Kind, record: Record)
    requires Counted(reg) && Next(reg, k) + 1 < U64
    ensures OnlyAdds(reg, k, 1, Insert(reg, k, record))
    ensures var key := Key(k, Next(reg, k));
      key in Insert(reg, k, record).records && Insert(reg, k, record).records[key] == record
  {
    hide Insert, Counter, Counted;
    InsertAdds(reg, k, record);
  }

  // ---- One object -----------------------------------------------------------------------

  /** The requests that record one object at a time. */
  predicate Admits(req: Request) {
    req.DoCreateInstance? || req.DoCreateDevice? || req.DoGetDeviceQueue? || req.DoCreateChild?
  }

  function AdmittedKind(req: Request): Kind
    requires Admits(req)
  {
    match req
    case DoCreateInstance(_) => Instance
    case DoCreateDevice(_, _) => Device
    case DoGetDeviceQueue(_, _, _, _) => Queue
    case DoCreateChild(k, _, _, _, _) => k
  }

  /** The native is the driver's; the parent is the object named first; the words are those of the request. */
  predicate RecordsIt(req: Request, r: Record)
    requires Admits(req) && |req.env.natives| == 1
  {
    && r.native == req.env.natives[0] && r.pool == 0
    && r.parent == (if Named(req) == [] then 0 else Named(req)[0].handle)
    && (req.DoGetDeviceQueue? || req.DoCreateChild? ==> r.word0 == req.word0 && r.word1 == req.word1)
    && (req.DoCreateInstance? || req.DoCreateDevice? ==> r.word0 == 0 && r.word1 == 0)
  }

  /**
   * One object is recorded iff the driver made or gave it, and was not asked at once to undo
   * that: exactly one record, which says whose native it is and what it hangs under.
   */
  lemma AdmitsIff(w: World, req: Request)
    requires Counted(w.reg) && InRange(w, req) && Admits(req) && |req.env.natives| == 1
    ensures var after := Step(w, req).world.reg;
      var key := Key(AdmittedKind(req), Next(w.reg, AdmittedKind(req)));
      if Reaches(w, req) && Answer(req) == SUCCESS && !TakesBack(req) then
        && OnlyAdds(w.reg, AdmittedKind(req), 1, after)
        && key in after.records && RecordsIt(req, after.records[key])
      else after.records == w.reg.records
  {
    hide Counted, OnlyAdds, NamesStand;
    StandsIf(w, req);
    if Reaches(w, req) && Answer(req) == SUCCESS {
      var r := ItsRecord(req);
      InsertedOnlyAdds(w.reg, AdmittedKind(req), r);
      InsertAdds(w.reg, AdmittedKind(req), r);
      UndoRestoresIffFree(w.reg, AdmittedKind(req), r);
      hide Insert, Without;
    }
  }

  function ItsRecord(req: Request): Record
    requires Admits(req) && |req.env.natives| == 1
  {
    match req
    case DoCreateInstance(env) => Record(env.natives[0], 0, 0, 0, 0)
    case DoCreateDevice(p, env) => Record(env.natives[0], p, 0, 0, 0)
    case DoGetDeviceQueue(d, word0, word1, env) => Record(env.natives[0], d, 0, word0, word1)
    case DoCreateChild(_, d, word0, word1, env) => Record(env.natives[0], d, 0, word0, word1)
  }

  // ---- Several objects ----------------------------------------------------------------------

  /** The j-th new record, for each of the first n natives: its own native, and what all of them have in common. */
  ghost predicate OneEach(reg: Registry, k: Kind, natives: seq<Native>, n: nat, parent: Handle, pool: Handle,
          word0: nat, after: Registry)
    requires n <= |natives|
  {
    && OnlyAdds(reg, k, n, after)
    && forall j :: 0 <= j < n ==>
      var key := Key(k, Next(reg, k) + j);
      && key in after.records && after.records[key].native == natives[j]
      && after.records[key].parent == parent && after.records[key].pool == pool
      && after.records[key].word0 == word0 && after.records[key].word1 == 0
  }

  lemma OneOfEach(reg: Registry, k: Kind, natives: seq<Native>, n: nat, parent: Handle, pool: Handle,
          word0: nat, after: Registry, j: nat)
    requires j < n <= |natives| && OneEach(reg, k, natives, n, parent, pool, word0, after) && Counted(reg)
    ensures var key := Key(k, Next(reg, k) + j);
      && key !in reg.records && key in after.records && after.records[key].native == natives[j]
      && after.records[key].parent == parent && after.records[key].pool == pool
      && after.records[key].word0 == word0
  {
    hide OnlyAdds;
    var native := natives[j];
  }

  lemma BatchIsOneEach(reg: Registry, k: Kind, natives: seq<Native>, n: nat, parent: Handle, pool: Handle,
          word0: nat, records: seq<Record>)
    requires Counted(reg) && Next(reg, k) + |records| < U64 && |records| == n <= |natives|
    requires forall j :: 0 <= j < n ==>
               records[j].native == natives[j] && records[j].parent == parent && records[j].pool == pool
               && records[j].word0 == word0 && records[j].word1 == 0
    ensures OneEach(reg, k, natives, n, parent, pool, word0, InsertAll(reg, k, records))
  {
    hide InsertAll, Appended, OnlyAdds, Counted;
    InsertAllAppends(reg, k, records);
    AppendedOnlyAdds(reg, k, records, InsertAll(reg, k, records));
  }

  /** How many of the devices found have room: as many as the 32-bit count and the capacity allow. */
  function Room(capacity: nat, found: seq<Native>): (n: nat)
    ensures n <= |found|
  {
    if capacity < |found| % U32 then capacity else |found| % U32
  }

  /** Each device there is room for is recorded under the instance, with its own native; otherwise nothing is. */
  lemma EnumerationRecords(w: World, i: Handle, capacity: nat, env: Env)
    requires Counted(w.reg) && InRange(w, DoEnumeratePhysicalDevices(i, capacity, env))
    ensures var req := DoEnumeratePhysicalDevices(i, capacity, env);
      var after := Step(w, req).world.reg;
      if Reaches(w, req) && Answer(req) >= 0 then
        OneEach(w.reg, PhysicalDevice, env.natives, Room(capacity, env.natives), i, 0, 0, after)
      else after == w.reg
  {
    var req := DoEnumeratePhysicalDevices(i, capacity, env);
    hide Counted, OneEach, NamesStand, InsertAll;
    StandsIf(w, req);
    if Reaches(w, req) && Answer(req) >= 0 {
      BatchIsOneEach(w.reg, PhysicalDevice, env.natives, Room(capacity, env.natives), i, 0, 0,
                     PhysicalRecords(i, Shown(capacity, env.natives)));
    }
  }

  /** Where other threads come in between, the first section decides what the second records, in whatever state. */
  lemma EnumerationSectionsRecord(s: System, t: ThreadId, i: Handle, capacity: nat, found: seq<Native>, later: System)
    requires Key(Instance, i) in s.world.reg.records
    requires var begun := Advance(s, BeginEnumerate(t, i, capacity, found));
      t in later.pending && t in begun.pending && later.pending[t] == begun.pending[t]
    requires Counted(later.world.reg) && Possible(later, EndEnumerate(t))
    ensures OneEach(later.world.reg, PhysicalDevice, found, Room(capacity, found), i, 0, 0,
                    Advance(later, EndEnumerate(t)).world.reg)
    ensures Advance(later, EndEnumerate(t)).world.trace == later.world.trace
  {
    hide Counted, OneEach, InsertAll;
    BatchIsOneEach(later.world.reg, PhysicalDevice, found, Room(capacity, found), i, 0, 0,
                   PhysicalRecords(i, Shown(capacity, found)));
  }

  /** A successful allocation records each buffer under its device and pool, with its native and the level asked for. */
  lemma AllocationRecords(w: World, d: Handle, pool: Handle, level: nat, count: nat, env: Env)
    requires Counted(w.reg) && Next(w.reg, CommandBuffer) + |env.natives| < U64
    requires AllocateCommandBuffers(w, d, pool, level, count, env).result == SUCCESS
    ensures |env.natives| == count > 0
    ensures OneEach(w.reg, CommandBuffer, env.natives, count, d, pool, level,
                    AllocateCommandBuffers(w, d, pool, level, count, env).world.reg)
  {
    hide Counted, OneEach, InsertAll, Without;
    BatchIsOneEach(w.reg, CommandBuffer, env.natives, |env.natives|, d, pool, level,
                   RecordsFor(env.natives, d, pool, level, 0));
  }

  lemma AllocatedOnDevice(w: World, d: Handle, pool: Handle, level: nat, count: nat, env: Env)
    requires Counted(w.reg) && Next(w.reg, CommandBuffer) + |env.natives| < U64
    requires AllocateCommandBuffers(w, d, pool, level, count, env).result == SUCCESS
    ensures var after := AllocateCommandBuffers(w, d, pool, level, count, env).world.reg;
      && Key(Device, d) in w.reg.records && Key(Device, d) in after.records
      && after.records[Key(Device, d)] == w.reg.records[Key(Device, d)]
  {
    AllocationRecords(w, d, pool, level, count, env);
    assert Key(Device, d) in w.reg.records;
    hide InsertAll, Counted;
  }

  lemma BeginsIffPrimary(w: World, d: Handle, buffer: Handle, env: Env)
    requires env.argsOk && env.decoded
    requires Key(Device, d) in w.reg.records && BelongsTo(w.reg, Key(CommandBuffer, buffer), d)
    ensures var begun := BeginCommandBuffer(w, d, buffer, false, env);
      var r := w.reg.records[Key(CommandBuffer, buffer)];
      && (begun == Outcome(ERROR_UNSUPPORTED_OPERATION, w) <==> r.word0 != LEVEL_PRIMARY)
      && (r.word0 == LEVEL_PRIMARY ==>
            begun.world.trace == w.trace + [Use(NativeAt(w.reg, Key(Device, d)), [Ref(CommandBuffer, r.native)])])
  {
    var key := Key(CommandBuffer, buffer);
    assert [key][0] == key;
    assert RefsOf(w.reg, [key]) == [Ref(CommandBuffer, w.reg.records[key].native)];
    if w.reg.records[key].word0 == LEVEL_PRIMARY {
      assert |BeginCommandBuffer(w, d, buffer, false, env).world.trace| == |w.trace| + 1;
    }
  }

  /**
   * Beginning a buffer just allocated, with good arguments and outside a render pass, is refused
   * as unsupported iff the level asked for was not primary; else the driver begins it.
   */
  lemma FreshBufferBeginsIff(w: World, d: Handle, pool: Handle, level: nat, count: nat, env: Env, j: nat, again: Env)
    requires Counted(w.reg) && Next(w.reg, CommandBuffer) + |env.natives| < U64
    requires AllocateCommandBuffers(w, d, pool, level, count, env).result == SUCCESS && j < count
    requires again.argsOk && again.decoded
    ensures |env.natives| == count
    ensures var after := AllocateCommandBuffers(w, d, pool, level, count, env).world;
      var begun := BeginCommandBuffer(after, d, Next(w.reg, CommandBuffer) + j, false, again);
      && (begun == Outcome(ERROR_UNSUPPORTED_OPERATION, after) <==> level != LEVEL_PRIMARY)
      && (level == LEVEL_PRIMARY ==>
            begun.world.trace == after.trace + [Use(NativeAt(w.reg, Key(Device, d)),
                                                    [Ref(CommandBuffer, env.natives[j])])])
  {
    AllocationRecords(w, d, pool, level, count, env);
    var after := AllocateCommandBuffers(w, d, pool, level, count, env).world;
    AllocatedOnDevice(w, d, pool, level, count, env);
    hide Counted, AllocateCommandBuffers, BeginCommandBuffer, OneEach;
    OneOfEach(w.reg, CommandBuffer, env.natives, count, d, pool, level, after.reg, j);
    BeginsIffPrimary(after, d, Next(w.reg, CommandBuffer) + j, again);
  }
}
