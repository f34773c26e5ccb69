/**
 * What the guest is answered, and what the driver is passed, by rules that are the same for
 * every request: over the objects a request names, not over what each entry point does.
 */
module Answers {
  import opened Results
  import opened HandleTables
  import opened Registries
  import opened NativeDriver
  import opened Linking
  import opened Batches
  import opened Sweeps
  import opened Lifecycle

  // ---- What a request says ----------------------------------------------------------------

  function EnvOf(req: Request): Option<Env> {
    match req
    case DoCreateInstance(env) => Some(env)
    case DoEnumeratePhysicalDevices(_, _, env) => Some(env)
    case DoQueryPhysicalDevice(_, _, _, env) => Some(env)
    case DoCreateDevice(_, env) => Some(env)
    case DoGetDeviceQueue(_, _, _, env) => Some(env)
    case DoCreateChild(_, _, _, _, env) => Some(env)
    case DoAllocateCommandBuffers(_, _, _, _, env) => Some(env)
    case DoFreeCommandBuffers(_, _, _, env) => Some(env)
    case DoUseObjects(_, _, env) => Some(env)
    case _ => None
  }

  /** No address or count that is needed is null; an allocation asks for buffers of some pool. */
  predicate ArgumentsGood(req: Request) {
    && (EnvOf(req).Some? ==> EnvOf(req).value.argsOk)
    && (req.DoAllocateCommandBuffers? && req.env.decoded ==> req.pool != 0 && req.count != 0)
  }

  /** What the request takes from guest memory could be read; enumerating and getting a queue take nothing. */
  predicate InputRead(req: Request) {
    EnvOf(req).Some? && !req.DoEnumeratePhysicalDevices? && !req.DoGetDeviceQueue? ==> EnvOf(req).value.decoded
  }

  function BufferKeys(handles: seq<Handle>): (keys: seq<Key>)
    ensures |keys| == |handles|
  {
    seq(|handles|, j requires 0 <= j < |handles| => Key(CommandBuffer, handles[j]))
  }

  /** The objects a request names, in order. */
  function Named(req: Request): seq<Key> {
    match req
    case DoCreateInstance(_) => []
    case DoDestroyInstance(i, _) => [Key(Instance, i)]
    case DoEnumeratePhysicalDevices(i, _, _) => [Key(Instance, i)]
    case DoQueryPhysicalDevice(p, _, _, _) => [Key(PhysicalDevice, p)]
    case DoCreateDevice(p, _) => [Key(PhysicalDevice, p)]
    case DoDestroyDevice(d, _) => [Key(Device, d)]
    case DoGetDeviceQueue(d, _, _, _) => [Key(Device, d)]
    case DoCreateChild(_, d, _, _, _) => [Key(Device, d)]
    case DoDestroyChild(k, d, h) => [Key(Device, d), Key(k, h)]
    case DoAllocateCommandBuffers(d, pool, _, _, _) => [Key(Device, d), Key(CommandPool, pool)]
    case DoFreeCommandBuffers(d, pool, hs, _) => [Key(Device, d), Key(CommandPool, pool)] + BufferKeys(hs)
    case DoUseObjects(d, keys, _) => [Key(Device, d)] + keys
    case DoQueueWaitIdle(q, _) => [Key(Queue, q)]
  }

  /**
   * The j-th object named resolves. All but the first belong to the first, which is their
   * device; a buffer to be freed is of the pool; a queue to be waited for has its device.
   */
  predicate Stands(reg: Registry, req: Request, j: nat)
    requires j < |Named(req)|
  {
    var key := Named(req)[j];
    && key in reg.records
    && (j > 0 ==> reg.records[key].parent == Named(req)[0].handle)
    && (j > 1 && req.DoFreeCommandBuffers? ==> reg.records[key].pool == Named(req)[1].handle)
    && (req.DoQueueWaitIdle? ==> Key(Device, reg.records[key].parent) in reg.records)
  }

  predicate NamesStand(reg: Registry, req: Request) {
    forall j :: 0 <= j < |Named(req)| ==> Stands(reg, req, j)
  }

  /** Nothing keeps the request from the driver. */
  predicate Reaches(w: World, req: Request) {
    ArgumentsGood(req) && InputRead(req) && NamesStand(w.reg, req)
  }

  /** The driver's own answer, where it has one. */
  function Answer(req: Request): int {
    match req
    case DoQueueWaitIdle(_, status) => status
    case DoFreeCommandBuffers(_, _, _, _) => SUCCESS
    case _ => if EnvOf(req).Some? then EnvOf(req).value.status else SUCCESS
  }

  /** Listing devices or extensions goes on after a positive answer; nothing else does. */
  predicate Ends(req: Request) {
    if req.DoEnumeratePhysicalDevices? || (req.DoQueryPhysicalDevice? && req.query.Extensions?) then Answer(req) < 0
    else Answer(req) != SUCCESS
  }

  /** What is left to say once the driver has done its part. */
  function Completion(req: Request): int {
    match req
    case DoQueryPhysicalDevice(_, _, handing, _) =>
      if handing.HandedNothing? then ERROR_GUEST_MEMORY else if handing.HandedPart? then INCOMPLETE else SUCCESS
    case DoAllocateCommandBuffers(_, _, _, count, env) =>
      if |env.natives| != count then ERROR_UNKNOWN else if env.published then SUCCESS else ERROR_GUEST_MEMORY
    case DoFreeCommandBuffers(_, _, _, _) => SUCCESS
    case _ => if EnvOf(req).Some? && !EnvOf(req).value.published then ERROR_GUEST_MEMORY else SUCCESS
  }

  // ---- Named objects, by entry point --------------------------------------------------------

  lemma FirstStands(reg: Registry, req: Request)
    requires |Named(req)| == 1
    ensures NamesStand(reg, req) <==> Stands(reg, req, 0)
  {
  }

  lemma PairStands(reg: Registry, req: Request)
    requires |Named(req)| == 2
    ensures NamesStand(reg, req) <==> Stands(reg, req, 0) && Stands(reg, req, 1)
  {
  }

  lemma ObjectsStand(w: World, d: Handle, keys: seq<Key>, env: Env)
    ensures NamesStand(w.reg, DoUseObjects(d, keys, env)) <==>
            Key(Device, d) in w.reg.records && forall key :: key in keys ==> BelongsTo(w.reg, key, d)
  {
    var req := DoUseObjects(d, keys, env);
    if NamesStand(w.reg, req) {
      assert Stands(w.reg, req, 0);
      forall key | key in keys ensures BelongsTo(w.reg, key, d) {
        var j :| 0 <= j < |keys| && keys[j] == key;
        assert Named(req)[j + 1] == key && Stands(w.reg, req, j + 1);
      }
    } else {
      var j :| 0 <= j < |Named(req)| && !Stands(w.reg, req, j);
      assert j > 0 ==> Named(req)[j] in keys;
    }
  }

  lemma BuffersStand(w: World, d: Handle, pool: Handle, handles: seq<Handle>, env: Env)
    ensures NamesStand(w.reg, DoFreeCommandBuffers(d, pool, handles, env)) <==>
            && Key(Device, d) in w.reg.records && BelongsTo(w.reg, Key(CommandPool, pool), d)
            && forall h :: h in handles ==> InPool(w.reg, d, pool, h)
  {
    var req := DoFreeCommandBuffers(d, pool, handles, env);
    if NamesStand(w.reg, req) {
      assert Stands(w.reg, req, 0) && Stands(w.reg, req, 1);
      forall h | h in handles ensures InPool(w.reg, d, pool, h) {
        var j :| 0 <= j < |handles| && handles[j] == h;
        assert Named(req)[j + 2] == Key(CommandBuffer, h) && Stands(w.reg, req, j + 2);
      }
    } else {
      var j :| 0 <= j < |Named(req)| && !Stands(w.reg, req, j);
      assert j > 1 ==> Named(req)[j] == Key(CommandBuffer, handles[j - 2]) && handles[j - 2] in handles;
    }
  }

  // ---- Refusals -------------------------------------------------------------------------------

  lemma StandsIf(w: World, req: Request)
    ensures NamesStand(w.reg, req) <==>
            match req
            case DoUseObjects(d, keys, _) =>
              Key(Device, d) in w.reg.records && forall key :: key in keys ==> BelongsTo(w.reg, key, d)
            case DoFreeCommandBuffers(d, pool, handles, _) =>
              && Key(Device, d) in w.reg.records && BelongsTo(w.reg, Key(CommandPool, pool), d)
              && forall h :: h in handles ==> InPool(w.reg, d, pool, h)
            case DoDestroyChild(_, _, _) => Stands(w.reg, req, 0) && Stands(w.reg, req, 1)
            case DoAllocateCommandBuffers(_, _, _, _, _) => Stands(w.reg, req, 0) && Stands(w.reg, req, 1)
            case DoCreateInstance(_) => true
            case _ => Stands(w.reg, req, 0)
  {
    hide Stands;
    match req
    case DoUseObjects(d, keys, env) => ObjectsStand(w, d, keys, env);
    case DoFreeCommandBuffers(d, pool, hs, env) => BuffersStand(w, d, pool, hs, env);
    case DoDestroyChild(_, _, _) => PairStands(w.reg, req);
    case DoAllocateCommandBuffers(_, _, _, _, _) => PairStands(w.reg, req);
    case DoCreateInstance(_) =>
    case _ => FirstStands(w.reg, req);
  }

  /** A request that does not reach the driver changes nothing, and says why. */
  lemma Refuses(w: World, req: Request)
    ensures !ArgumentsGood(req) ==> Step(w, req) == Outcome(ERROR_INVALID_ARGUMENT, w)
    ensures ArgumentsGood(req) && !InputRead(req) ==> Step(w, req) == Outcome(ERROR_GUEST_MEMORY, w)
    ensures ArgumentsGood(req) && InputRead(req) && !NamesStand(w.reg, req) ==>
              Step(w, req) == Outcome(ERROR_INVALID_HANDLE, w)
  {
    hide Insert, InsertAll, Without, RemoveInstance, RemoveDevices, SweepCalls, RefsOf, FreeCall, DestroyCall;
    hide NamesStand, InPool;
    StandsIf(w, req);
  }

  /** One that does gets the driver's answer where that ends it, positive or not, and else what is left to say. */
  lemma AnswersReachGuest(w: World, req: Request)
    requires Reaches(w, req)
    ensures Step(w, req).result == if Ends(req) then Answer(req) else Completion(req)
    ensures EnvOf(req).Some? || req.DoQueueWaitIdle? ==> w.trace < Step(w, req).world.trace
  {
    hide Insert, InsertAll, Without, RemoveInstance, RemoveDevices, SweepCalls, RefsOf, FreeCall, DestroyCall;
    hide NamesStand, InPool;
    StandsIf(w, req);
  }

  /**
   * A request is refused with its reason, and then nothing happens, iff the reason is there:
   * arguments before input, input before handles.
   */
  lemma RefusedIff(w: World, req: Request)
    ensures Step(w, req) == Outcome(ERROR_INVALID_ARGUMENT, w) <==> !ArgumentsGood(req)
    ensures Step(w, req) == Outcome(ERROR_GUEST_MEMORY, w) <==> ArgumentsGood(req) && !InputRead(req)
    ensures Step(w, req) == Outcome(ERROR_INVALID_HANDLE, w) <==>
            ArgumentsGood(req) && InputRead(req) && !NamesStand(w.reg, req)
  {
    hide Step, ArgumentsGood, InputRead, NamesStand;
    Refuses(w, req);
    if Reaches(w, req) {
      AnswersReachGuest(w, req);
    }
  }

  /** A bad argument or handle is reported before anything happens. */
  lemma RefusalChangesNothing(w: World, req: Request)
    requires Step(w, req).result in {ERROR_INVALID_ARGUMENT, ERROR_INVALID_HANDLE} && Answer(req) != Step(w, req).result
    ensures Step(w, req).world == w
  {
    hide Step, ArgumentsGood, InputRead, NamesStand;
    Refuses(w, req);
    if Reaches(w, req) {
      AnswersReachGuest(w, req);
    }
  }

  /** Beginning a command buffer has two refusals more: of a render pass before handles, of a level after them. */
  lemma BeginRefusedIff(w: World, d: Handle, buffer: Handle, continues: bool, env: Env)
    ensures var begun := BeginCommandBuffer(w, d, buffer, continues, env);
      var key := Key(CommandBuffer, buffer);
      var stands := Key(Device, d) in w.reg.records && key in w.reg.records && w.reg.records[key].parent == d;
      && (begun == Outcome(ERROR_INVALID_ARGUMENT, w) <==> !env.argsOk)
      && (begun == Outcome(ERROR_GUEST_MEMORY, w) <==> env.argsOk && !env.decoded)
      && (begun == Outcome(ERROR_INVALID_HANDLE, w) <==> env.argsOk && env.decoded && !continues && !stands)
      && (begun == Outcome(ERROR_UNSUPPORTED_OPERATION, w) <==>
            env.argsOk && env.decoded && (continues || (stands && w.reg.records[key].word0 != LEVEL_PRIMARY)))
  {
    var key := Key(CommandBuffer, buffer);
    assert [key][0] == key;
    if env.argsOk && env.decoded && !continues && Key(Device, d) in w.reg.records && BelongsTo(w.reg, key, d)
      && w.reg.records[key].word0 == LEVEL_PRIMARY {
      assert |BeginCommandBuffer(w, d, buffer, continues, env).world.trace| == |w.trace| + 1;
    }
    hide RefsOf;
  }

  // ---- What the driver is passed ------------------------------------------------------------------

  function NativesOf(refs: seq<Ref>): (ns: seq<Native>)
    ensures |ns| == |refs|
  {
    seq(|refs|, j requires 0 <= j < |refs| => refs[j].native)
  }

  /** The native handles a call passes, in order. */
  function Passed(call: Call): seq<Native> {
    match call
    case Create(k, under, pool, _) =>
      if k == Instance then [] else if k == CommandBuffer then [under, pool] else [under]
    case Retrieve(_, under, _) => [under]
    case Destroy(k, under, native) => if k == Instance || k == Device then [native] else [under, native]
    case FreeCommandBuffers(under, pool, freed) => [under, pool] + freed
    case Use(device, objects) => [device] + NativesOf(objects)
    case Query(physical) => [physical]
  }

  /** The call is of the sort the request is for. */
  predicate Serves(call: Call, req: Request) {
    match req
    case DoCreateInstance(_) => call.Create? && call.kind == Instance
    case DoEnumeratePhysicalDevices(_, _, _) => call.Retrieve? && call.kind == PhysicalDevice
    case DoQueryPhysicalDevice(_, _, _, _) => call.Query?
    case DoCreateDevice(_, _) => call.Create? && call.kind == Device
    case DoGetDeviceQueue(_, _, _, _) => call.Retrieve? && call.kind == Queue
    case DoCreateChild(k, _, _, _, _) => call.Create? && call.kind == k
    case DoDestroyChild(k, _, _) => call.Destroy? && call.kind == k
    case DoAllocateCommandBuffers(_, _, _, _, _) => call.Create? && call.kind == CommandBuffer
    case DoFreeCommandBuffers(_, _, _, _) => call.FreeCommandBuffers?
    case DoUseObjects(_, keys, _) =>
      call.Use? && |call.objects| == |keys| && forall j :: 0 <= j < |keys| ==> call.objects[j].kind == keys[j].kind
    case DoQueueWaitIdle(_, _) => call.Use? && |call.objects| == 1 && call.objects[0].kind == Queue
    case _ => true
  }

  function Given(env: Env): seq<Native> {
    if env.status == SUCCESS then env.natives else []
  }

  /** What the driver made or listed is in the trace as the driver gave it. */
  predicate Carries(call: Call, req: Request) {
    match req
    case DoEnumeratePhysicalDevices(_, _, env) =>
      call.Retrieve? && call.found == if env.status < 0 then [] else env.natives
    case DoGetDeviceQueue(_, _, _, env) => call.Retrieve? && (|env.natives| == 1 ==> call.found == Given(env))
    case DoAllocateCommandBuffers(_, _, _, _, env) => call.Create? && call.made == Given(env)
    case _ =>
      call.Create? ==> EnvOf(req).Some? && (|EnvOf(req).value.natives| == 1 ==> call.made == Given(EnvOf(req).value))
  }

  /** The call passes the recorded natives of these keys, in this order. */
  ghost predicate PassesOn(reg: Registry, call: Call, keys: seq<Key>) {
    && |Passed(call)| == |keys|
    && forall j :: 0 <= j < |keys| ==> keys[j] in reg.records && Passed(call)[j] == reg.records[keys[j]].native
  }

  /** The keys whose natives a request's call passes: those it names; for a queue, its device and the queue. */
  function PassedKeys(reg: Registry, req: Request): seq<Key> {
    if req.DoQueueWaitIdle? && Key(Queue, req.handle) in reg.records then
      [Key(Device, reg.records[Key(Queue, req.handle)].parent), Key(Queue, req.handle)]
    else Named(req)
  }

  lemma UsePasses(w: World, d: Handle, keys: seq<Key>, env: Env)
    requires Reaches(w, DoUseObjects(d, keys, env))
    ensures PassesOn(w.reg, Use(NativeAt(w.reg, Key(Device, d)), RefsOf(w.reg, keys)), [Key(Device, d)] + keys)
  {
    forall j | 0 <= j < |keys| ensures keys[j] in w.reg.records {
      assert Stands(w.reg, DoUseObjects(d, keys, env), j + 1);
    }
    assert Stands(w.reg, DoUseObjects(d, keys, env), 0);
  }

  lemma FreePasses(w: World, d: Handle, pool: Handle, handles: seq<Handle>, env: Env)
    requires Reaches(w, DoFreeCommandBuffers(d, pool, handles, env))
    ensures PassesOn(w.reg, FreeCall(w.reg, d, pool, handles), Named(DoFreeCommandBuffers(d, pool, handles, env)))
  {
    var req := DoFreeCommandBuffers(d, pool, handles, env);
    forall j | 0 <= j < |Named(req)| ensures Named(req)[j] in w.reg.records {
      assert Stands(w.reg, req, j);
    }
  }

  /** Destroying a device or an instance makes many calls; what they are is a matter of cascades. */
  predicate Cascades(req: Request) {
    req.DoDestroyInstance? || req.DoDestroyDevice?
  }

  /** There are creators and destroyers of seven kinds. */
  predicate OfItsKind(req: Request) {
    req.DoCreateChild? || req.DoDestroyChild? ==> Creatable(req.kind)
  }

  /** Only a command pool and an allocation are undone by a second call, when they cannot be handed over. */
  predicate TakesBack(req: Request) {
    || (req.DoCreateChild? && req.kind == CommandPool && Answer(req) == SUCCESS && Completion(req) != SUCCESS)
    || (req.DoAllocateCommandBuffers? && Answer(req) == SUCCESS && Completion(req) != SUCCESS)
  }

  lemma GivenAlone(env: Env)
    ensures |env.natives| == 1 ==> MadeOne(env) == Given(env)
    ensures MadeMany(env) == Given(env)
  {
  }

  lemma MakesCalls(w: World, req: Request)
    requires Reaches(w, req) && !Cascades(req)
    ensures |Step(w, req).world.trace| == |w.trace| + if TakesBack(req) then 2 else 1
    ensures Serves(Step(w, req).world.trace[|w.trace|], req)
  {
    hide Insert, InsertAll, Without, NamesStand, MadeOne, MadeMany;
    StandsIf(w, req);
  }

  lemma CallCarries(w: World, req: Request)
    requires Reaches(w, req) && !Cascades(req) && |w.trace| < |Step(w, req).world.trace|
    ensures Carries(Step(w, req).world.trace[|w.trace|], req)
  {
    hide Insert, InsertAll, Without, NamesStand, MadeOne, MadeMany;
    StandsIf(w, req);
    if EnvOf(req).Some? {
      GivenAlone(EnvOf(req).value);
    }
  }

  lemma FewPassed(reg: Registry, call: Call, keys: seq<Key>)
    requires |keys| <= 2 && |Passed(call)| == |keys|
    requires |keys| > 0 ==> keys[0] in reg.records && Passed(call)[0] == reg.records[keys[0]].native
    requires |keys| > 1 ==> keys[1] in reg.records && Passed(call)[1] == reg.records[keys[1]].native
    ensures PassesOn(reg, call, keys)
  {
  }

  lemma QueuePasses(w: World, q: Handle, status: int)
    requires Reaches(w, DoQueueWaitIdle(q, status))
    requires |w.trace| < |Step(w, DoQueueWaitIdle(q, status)).world.trace|
    ensures PassesOn(w.reg, Step(w, DoQueueWaitIdle(q, status)).world.trace[|w.trace|],
                     PassedKeys(w.reg, DoQueueWaitIdle(q, status)))
  {
    assert Stands(w.reg, DoQueueWaitIdle(q, status), 0);
  }

  lemma UnlistedPasses(w: World, req: Request)
    requires Reaches(w, req) && !Cascades(req) && OfItsKind(req)
    requires !req.DoUseObjects? && !req.DoFreeCommandBuffers? && !req.DoQueueWaitIdle?
    requires |w.trace| < |Step(w, req).world.trace|
    ensures PassesOn(w.reg, Step(w, req).world.trace[|w.trace|], PassedKeys(w.reg, req))
  {
    hide Insert, InsertAll, Without, NamesStand, MadeOne, MadeMany, PassesOn, NativesOf;
    StandsIf(w, req);
    FewPassed(w.reg, Step(w, req).world.trace[|w.trace|], PassedKeys(w.reg, req));
  }

  lemma ListPasses(w: World, req: Request)
    requires Reaches(w, req) && (req.DoUseObjects? || req.DoFreeCommandBuffers?)
    requires |w.trace| < |Step(w, req).world.trace|
    ensures PassesOn(w.reg, Step(w, req).world.trace[|w.trace|], PassedKeys(w.reg, req))
  {
    hide Without, NamesStand, PassesOn, FreeCall, RefsOf;
    StandsIf(w, req);
    if req.DoUseObjects? {
      UsePasses(w, req.handle, req.keys, req.env);
    } else {
      FreePasses(w, req.handle, req.pool, req.handles, req.env);
    }
  }

  /**
   * A request that reaches the driver makes one call of its sort, which passes exactly the
   * natives of the objects named, in order, and leaves what the driver gave in the trace.
   */
  lemma CallPassesNamed(w: World, req: Request)
    requires Reaches(w, req) && !Cascades(req) && OfItsKind(req)
    ensures |Step(w, req).world.trace| == |w.trace| + if TakesBack(req) then 2 else 1
    ensures var call := Step(w, req).world.trace[|w.trace|];
      Serves(call, req) && Carries(call, req) && PassesOn(w.reg, call, PassedKeys(w.reg, req))
  {
    hide Step, Reaches, Serves, Carries, PassesOn, PassedKeys;
    MakesCalls(w, req);
    CallCarries(w, req);
    if req.DoUseObjects? || req.DoFreeCommandBuffers? {
      ListPasses(w, req);
    } else if req.DoQueueWaitIdle? {
      QueuePasses(w, req.handle, req.status);
    } else {
      UnlistedPasses(w, req);
    }
  }
}
