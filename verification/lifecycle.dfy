/**
 * The lifecycle entry points as steps of one machine: the tables, and the trace of
 * native calls. A request carries what the step cannot compute: whether guest
 * memory could be read and written, what the driver answered, and the order in
 * which a cascade met the tables.
 */
module Lifecycle {
  import opened Results
  import opened Sequences
  import opened HandleTables
  import opened Registries
  import opened NativeDriver
  import opened Linking
  import opened Batches
  import opened Sweeps

  datatype World = World(reg: Registry, trace: seq<Call>)

  const INITIAL_WORLD := World(EMPTY, [])

  /**
   * argsOk: no required address or count is null; decoded: guest input was readable;
   * status and natives: the driver's answer; published: guest output was writable.
   */
  datatype Env = Env(argsOk: bool, decoded: bool, status: int, natives: seq<Native>, published: bool)

  datatype Outcome = Outcome(result: int, world: World)

  function Calling(w: World, call: Call): World {
    w.(trace := w.trace + [call])
  }

  /** The one handle a successful creating call left in its out-variable. */
  function MadeOne(env: Env): seq<Native> {
    if env.status != SUCCESS then []
    else if env.natives == [] then [0] else [env.natives[0]]
  }

  function MadeMany(env: Env): seq<Native> {
    if env.status != SUCCESS then [] else env.natives
  }

  function Published(env: Env): int {
    if env.published then SUCCESS else ERROR_GUEST_MEMORY
  }

  function CreateInstance(w: World, env: Env): Outcome {
    if !env.argsOk then Outcome(ERROR_INVALID_ARGUMENT, w)
    else if !env.decoded then Outcome(ERROR_GUEST_MEMORY, w)
    else
      var called := Calling(w, Create(Instance, 0, 0, MadeOne(env)));
      if env.status != SUCCESS then Outcome(env.status, called)
      else Outcome(Published(env), called.(reg := Insert(w.reg, Instance, Record(MadeOne(env)[0], 0, 0, 0, 0))))
  }

  function DestroyInstance(w: World, instance: Handle, sweep: seq<Key>): Outcome {
    if Key(Instance, instance) !in w.reg.records then Outcome(ERROR_INVALID_HANDLE, w)
    else Outcome(SUCCESS, World(RemoveInstance(w.reg, instance),
                                w.trace + SweepCalls(w.reg, sweep) + [DestroyCall(w.reg, Key(Instance, instance))]))
  }

  /** The devices a buffer of this capacity can show; the size is taken as a 32-bit count. */
  function Shown(capacity: nat, found: seq<Native>): (shown: seq<Native>)
    ensures shown <= found && |shown| <= capacity && |shown| <= |found| % U32
    ensures |shown| == capacity || |shown| == |found| % U32
  {
    var total := |found| % U32;
    found[..if capacity < total then capacity else total]
  }

  function PhysicalRecords(instance: Handle, natives: seq<Native>): (rs: seq<Record>)
    ensures |rs| == |natives|
  {
    seq(|natives|, i requires 0 <= i < |natives| => Record(natives[i], instance, 0, 0, 0))
  }

  function EnumeratePhysicalDevices(w: World, instance: Handle, capacity: nat, env: Env): Outcome {
    if !env.argsOk then Outcome(ERROR_INVALID_ARGUMENT, w)
    else if Key(Instance, instance) !in w.reg.records then Outcome(ERROR_INVALID_HANDLE, w)
    else
      var found := if env.status < 0 then [] else env.natives;
      var called := Calling(w, Retrieve(PhysicalDevice, NativeAt(w.reg, Key(Instance, instance)), found));
      if env.status < 0 then Outcome(env.status, called)
      else Outcome(Published(env),
                   called.(reg := InsertAll(w.reg, PhysicalDevice, PhysicalRecords(instance, Shown(capacity, found)))))
  }

  /** What a guest asks of a physical device: a structure of its properties, its queue families, or its extensions. */
  datatype PhysicalQuery = Properties | QueueFamilies | Extensions

  /** How an answer reached guest memory: whole, as far as there was room, or not at all. */
  datatype Handing = HandedWhole | HandedPart | HandedNothing

  function HandingResult(handing: Handing): int {
    match handing
    case HandedWhole => SUCCESS
    case HandedPart => INCOMPLETE
    case HandedNothing => ERROR_GUEST_MEMORY
  }

  /** The statuses that end a query: any but success, and for extensions the negative ones only. */
  predicate QueryFails(query: PhysicalQuery, status: int) {
    if query.Extensions? then status < 0 else status != SUCCESS
  }

  function QueryPhysicalDevice(w: World, physical: Handle, query: PhysicalQuery, handing: Handing, env: Env): Outcome {
    if !env.argsOk then Outcome(ERROR_INVALID_ARGUMENT, w)
    else if !env.decoded then Outcome(ERROR_GUEST_MEMORY, w)
    else if Key(PhysicalDevice, physical) !in w.reg.records then Outcome(ERROR_INVALID_HANDLE, w)
    else Outcome(if QueryFails(query, env.status) then env.status else HandingResult(handing),
                 Calling(w, Query(NativeAt(w.reg, Key(PhysicalDevice, physical)))))
  }

  function CreateDevice(w: World, physical: Handle, env: Env): Outcome {
    if !env.argsOk then Outcome(ERROR_INVALID_ARGUMENT, w)
    else if !env.decoded then Outcome(ERROR_GUEST_MEMORY, w)
    else if Key(PhysicalDevice, physical) !in w.reg.records then Outcome(ERROR_INVALID_HANDLE, w)
    else
      var called := Calling(w, Create(Device, NativeAt(w.reg, Key(PhysicalDevice, physical)), 0, MadeOne(env)));
      if env.status != SUCCESS then Outcome(env.status, called)
      else Outcome(Published(env), called.(reg := Insert(w.reg, Device, Record(MadeOne(env)[0], physical, 0, 0, 0))))
  }

  function DestroyDevice(w: World, device: Handle, sweep: seq<Key>): Outcome {
    if Key(Device, device) !in w.reg.records then Outcome(ERROR_INVALID_HANDLE, w)
    else Outcome(SUCCESS, World(RemoveDevices(w.reg, {device}), w.trace + SweepCalls(w.reg, sweep)))
  }

  function GetDeviceQueue(w: World, device: Handle, family: nat, index: nat, env: Env): Outcome {
    if !env.argsOk then Outcome(ERROR_INVALID_ARGUMENT, w)
    else if Key(Device, device) !in w.reg.records then Outcome(ERROR_INVALID_HANDLE, w)
    else
      var called := Calling(w, Retrieve(Queue, NativeAt(w.reg, Key(Device, device)), MadeOne(env)));
      if env.status != SUCCESS then Outcome(env.status, called)
      else Outcome(Published(env),
                   called.(reg := Insert(w.reg, Queue, Record(MadeOne(env)[0], device, 0, family, index))))
  }

  /** CreateCommandPool, CreateBuffer and the other five creators; only the pool's rolls back. */
  function CreateChild(w: World, k: Kind, device: Handle, word0: nat, word1: nat, env: Env): Outcome {
    if !env.argsOk then Outcome(ERROR_INVALID_ARGUMENT, w)
    else if !env.decoded then Outcome(ERROR_GUEST_MEMORY, w)
    else if Key(Device, device) !in w.reg.records then Outcome(ERROR_INVALID_HANDLE, w)
    else
      var under := NativeAt(w.reg, Key(Device, device));
      var called := Calling(w, Create(k, under, 0, MadeOne(env)));
      if env.status != SUCCESS then Outcome(env.status, called)
      else
        var added := Insert(w.reg, k, Record(MadeOne(env)[0], device, 0, word0, word1));
        if k == CommandPool && !env.published then
          Outcome(ERROR_GUEST_MEMORY,
                  Calling(called, Destroy(k, under, MadeOne(env)[0])).(reg := Without(added, {Key(k, Next(w.reg, k))})))
        else Outcome(Published(env), called.(reg := added))
  }

  function DestroyChild(w: World, k: Kind, device: Handle, handle: Handle): Outcome {
    var key := Key(k, handle);
    if Key(Device, device) !in w.reg.records || !BelongsTo(w.reg, key, device) then Outcome(ERROR_INVALID_HANDLE, w)
    else Outcome(SUCCESS, Calling(w, DestroyCall(w.reg, key)).(reg := Without(w.reg, Dropped(w.reg, key))))
  }

  function AllocateCommandBuffers(w: World, device: Handle, pool: Handle, level: nat, count: nat, env: Env): Outcome {
    if !env.argsOk then Outcome(ERROR_INVALID_ARGUMENT, w)
    else if !env.decoded then Outcome(ERROR_GUEST_MEMORY, w)
    else if pool == 0 || count == 0 then Outcome(ERROR_INVALID_ARGUMENT, w)
    else if Key(Device, device) !in w.reg.records || !BelongsTo(w.reg, Key(CommandPool, pool), device) then
      Outcome(ERROR_INVALID_HANDLE, w)
    else
      var under := NativeAt(w.reg, Key(Device, device));
      var nativePool := NativeAt(w.reg, Key(CommandPool, pool));
      var called := Calling(w, Create(CommandBuffer, under, nativePool, MadeMany(env)));
      var undone := Calling(called, NativeDriver.FreeCommandBuffers(under, nativePool, MadeMany(env)));
      if env.status != SUCCESS then Outcome(env.status, called)
      else if |env.natives| != count then Outcome(ERROR_UNKNOWN, undone)
      else
        var added := InsertAll(w.reg, CommandBuffer, RecordsFor(env.natives, device, pool, level, 0));
        if !env.published then
          Outcome(ERROR_GUEST_MEMORY,
                  undone.(reg := Without(added, KeysOfKind(CommandBuffer, Minted(Next(w.reg, CommandBuffer), count)))))
        else Outcome(SUCCESS, called.(reg := added))
  }

  predicate InPool(reg: Registry, device: Handle, pool: Handle, handle: Handle) {
    BelongsTo(reg, Key(CommandBuffer, handle), device) && reg.records[Key(CommandBuffer, handle)].pool == pool
  }

  function FreeCommandBuffers(w: World, device: Handle, pool: Handle, handles: seq<Handle>, env: Env): Outcome {
    if !env.argsOk then Outcome(ERROR_INVALID_ARGUMENT, w)
    else if !env.decoded then Outcome(ERROR_GUEST_MEMORY, w)
    else if Key(Device, device) !in w.reg.records || !BelongsTo(w.reg, Key(CommandPool, pool), device) then
      Outcome(ERROR_INVALID_HANDLE, w)
    else if exists h :: h in handles && !InPool(w.reg, device, pool, h) then Outcome(ERROR_INVALID_HANDLE, w)
    else Outcome(SUCCESS, Calling(w, FreeCall(w.reg, device, pool, handles))
                          .(reg := Without(w.reg, KeysOfKind(CommandBuffer, handles))))
  }

  function RefOf(reg: Registry, key: Key): Ref {
    Ref(key.kind, NativeAt(reg, key))
  }

  function RefsOf(reg: Registry, keys: seq<Key>): seq<Ref> {
    seq(|keys|, i requires 0 <= i < |keys| => RefOf(reg, keys[i]))
  }

  /** Every call that only passes objects of one device on: idle waits, resets, binds, status, fence lists, copies. */
  function UseObjects(w: World, device: Handle, keys: seq<Key>, env: Env): Outcome {
    if !env.argsOk then Outcome(ERROR_INVALID_ARGUMENT, w)
    else if !env.decoded then Outcome(ERROR_GUEST_MEMORY, w)
    else if Key(Device, device) !in w.reg.records then Outcome(ERROR_INVALID_HANDLE, w)
    else if exists key :: key in keys && !BelongsTo(w.reg, key, device) then Outcome(ERROR_INVALID_HANDLE, w)
    else Outcome(if env.status != SUCCESS then env.status else Published(env),
                 Calling(w, Use(NativeAt(w.reg, Key(Device, device)), RefsOf(w.reg, keys))))
  }

  const LEVEL_PRIMARY: nat := 0

  /** Recording begins on primary buffers only, and never as part of a render pass. */
  function BeginCommandBuffer(w: World, device: Handle, buffer: Handle, continues: bool, env: Env): Outcome {
    var key := Key(CommandBuffer, buffer);
    if !env.argsOk then Outcome(ERROR_INVALID_ARGUMENT, w)
    else if !env.decoded then Outcome(ERROR_GUEST_MEMORY, w)
    else if continues then Outcome(ERROR_UNSUPPORTED_OPERATION, w)
    else if Key(Device, device) !in w.reg.records || !BelongsTo(w.reg, key, device) then
      Outcome(ERROR_INVALID_HANDLE, w)
    else if w.reg.records[key].word0 != LEVEL_PRIMARY then Outcome(ERROR_UNSUPPORTED_OPERATION, w)
    else UseObjects(w, device, [key], env)
  }

  /** The device comes from the queue's record. */
  function QueueWaitIdle(w: World, queue: Handle, status: int): Outcome {
    if Key(Queue, queue) !in w.reg.records then Outcome(ERROR_INVALID_HANDLE, w)
    else
      var device := Key(Device, w.reg.records[Key(Queue, queue)].parent);
      if device !in w.reg.records then Outcome(ERROR_INVALID_HANDLE, w)
      else Outcome(status, Calling(w, Use(NativeAt(w.reg, device), [RefOf(w.reg, Key(Queue, queue))])))
  }

  datatype Request =
    | DoCreateInstance(env: Env)
    | DoDestroyInstance(handle: Handle, sweep: seq<Key>)
    | DoEnumeratePhysicalDevices(handle: Handle, capacity: nat, env: Env)
    | DoQueryPhysicalDevice(handle: Handle, query: PhysicalQuery, handing: Handing, env: Env)
    | DoCreateDevice(handle: Handle, env: Env)
    | DoDestroyDevice(handle: Handle, sweep: seq<Key>)
    | DoGetDeviceQueue(handle: Handle, word0: nat, word1: nat, env: Env)
    | DoCreateChild(kind: Kind, handle: Handle, word0: nat, word1: nat, env: Env)
    | DoDestroyChild(kind: Kind, handle: Handle, child: Handle)
    | DoAllocateCommandBuffers(handle: Handle, pool: Handle, level: nat, count: nat, env: Env)
    | DoFreeCommandBuffers(handle: Handle, pool: Handle, handles: seq<Handle>, env: Env)
    | DoUseObjects(handle: Handle, keys: seq<Key>, env: Env)
    | DoQueueWaitIdle(handle: Handle, status: int)

  function Step(w: World, req: Request): Outcome {
    match req
    case DoCreateInstance(env) => CreateInstance(w, env)
    case DoDestroyInstance(i, sweep) => DestroyInstance(w, i, sweep)
    case DoEnumeratePhysicalDevices(i, capacity, env) => EnumeratePhysicalDevices(w, i, capacity, env)
    case DoQueryPhysicalDevice(p, query, handing, env) => QueryPhysicalDevice(w, p, query, handing, env)
    case DoCreateDevice(p, env) => CreateDevice(w, p, env)
    case DoDestroyDevice(d, sweep) => DestroyDevice(w, d, sweep)
    case DoGetDeviceQueue(d, family, index, env) => GetDeviceQueue(w, d, family, index, env)
    case DoCreateChild(k, d, word0, word1, env) => CreateChild(w, k, d, word0, word1, env)
    case DoDestroyChild(k, d, h) => DestroyChild(w, k, d, h)
    case DoAllocateCommandBuffers(d, pool, level, count, env) => AllocateCommandBuffers(w, d, pool, level, count, env)
    case DoFreeCommandBuffers(d, pool, hs, env) => FreeCommandBuffers(w, d, pool, hs, env)
    case DoUseObjects(d, keys, env) => UseObjects(w, d, keys, env)
    case DoQueueWaitIdle(q, status) => QueueWaitIdle(w, q, status)
  }

  function Run(w: World, reqs: seq<Request>): World {
    if reqs == [] then w else Step(Run(w, reqs[..|reqs| - 1]), reqs[|reqs| - 1]).world
  }

  /** The most handles a request can mint. */
  function Mints(req: Request): nat {
    match req
    case DoCreateInstance(_) => 1
    case DoCreateDevice(_, _) => 1
    case DoGetDeviceQueue(_, _, _, _) => 1
    case DoCreateChild(_, _, _, _, _) => 1
    case DoEnumeratePhysicalDevices(_, _, env) => |env.natives|
    case DoAllocateCommandBuffers(_, _, _, _, env) => |env.natives|
    case _ => 0
  }

  /** No counter passes 2^64 in this step, and the request is one an entry point makes. */
  ghost predicate InRange(w: World, req: Request) {
    && (forall k :: Counter(w.reg.next, k) + Mints(req) < U64)
    && (req.DoCreateChild? || req.DoDestroyChild? ==> Creatable(req.kind))
    && (req.DoUseObjects? ==> forall key :: key in req.keys ==> DeviceScoped(key.kind))
  }

  /** A cascade meets the tables in their order, each table's records in any order. */
  ghost predicate Swept(w: World, req: Request) {
    match req
    case DoDestroyInstance(i, sweep) =>
      Key(Instance, i) in w.reg.records ==> SweepOf(w.reg, DevicesOf(w.reg, i), sweep)
    case DoDestroyDevice(d, sweep) =>
      Key(Device, d) in w.reg.records ==> SweepOf(w.reg, {d}, sweep)
    case _ => true
  }

  /** A list that is freed names no buffer twice. */
  ghost predicate FreesOnce(w: World, req: Request) {
    req.DoFreeCommandBuffers? && Step(w, req).result == SUCCESS ==> NoDup(req.handles)
  }

  ghost predicate WellOrdered(w: World, req: Request) {
    Swept(w, req) && FreesOnce(w, req)
  }

  lemma CreateChildGrows(w: World, k: Kind, d: Handle, word0: nat, word1: nat, env: Env)
    ensures w.trace <= CreateChild(w, k, d, word0, word1, env).world.trace
  {
    hide Insert, Without;
  }

  lemma AllocateGrows(w: World, d: Handle, pool: Handle, level: nat, count: nat, env: Env)
    ensures w.trace <= AllocateCommandBuffers(w, d, pool, level, count, env).world.trace
  {
    hide InsertAll, Without;
  }

  lemma TraceGrows(w: World, req: Request)
    ensures w.trace <= Step(w, req).world.trace
  {
    hide CreateChild, AllocateCommandBuffers;
    hide SweepCalls, DestroyCall, InsertAll, Insert, Without, RemoveInstance, RemoveDevices, RefsOf, RefOf, FreeCall;
    match req
    case DoCreateChild(k, d, word0, word1, env) => CreateChildGrows(w, k, d, word0, word1, env);
    case DoAllocateCommandBuffers(d, pool, level, count, env) => AllocateGrows(w, d, pool, level, count, env);
    case _ =>
  }
}
