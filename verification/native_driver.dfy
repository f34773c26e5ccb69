/**
 * The Vulkan driver as seen through the calls made on it: a trace of calls, the
 * object state a trace leaves, which calls are valid usage in a state, and which
 * replies a driver may give.
 */
module NativeDriver {
  import opened Registries

  /** A created object: its scope (device 0 for instances and devices), and its native handle. */
  datatype Obj = Obj(kind: Kind, device: Native, pool: Native, native: Native)

  datatype Ref = Ref(kind: Kind, native: Native)

  datatype Call =
    | Create(kind: Kind, under: Native, pool: Native, made: seq<Native>)   // made is empty when the call failed
    | Retrieve(kind: Kind, under: Native, found: seq<Native>)   // physical devices of an instance, a queue of a device
    | Destroy(kind: Kind, under: Native, native: Native)
    | FreeCommandBuffers(under: Native, pool: Native, freed: seq<Native>)
    | Use(device: Native, objects: seq<Ref>)
    | Query(physicalDevice: Native)

  /**
   * live counts each object's creations not yet undone, since a driver may give
   * equal non-dispatchable handles; owner is the instance of a device or physical
   * device and the device of a queue.
   */
  datatype Driver = Driver(live: Obj -> nat, owner: map<Ref, Native>)

  const INITIAL := Driver(o => 0, map[])

  function ScopedObj(k: Kind, under: Native, pool: Native, native: Native): Obj {
    if k == Instance || k == Device then Obj(k, 0, 0, native)
    else if k == CommandBuffer then Obj(k, under, pool, native)
    else Obj(k, under, 0, native)
  }

  function Minus(a: nat, b: nat): nat {
    if b <= a then a - b else 0
  }

  function MadeBy(call: Call, o: Obj): nat {
    match call
    case Create(k, under, pool, made) =>
      if o == ScopedObj(k, under, pool, o.native) then multiset(made)[o.native] else 0
    case _ => 0
  }

  predicate FreedWithPool(call: Call, o: Obj) {
    call.Destroy? && call.kind == CommandPool && o.kind == CommandBuffer
    && o.device == call.under && o.pool == call.native
  }

  /** How many copies of o a call undoes when live copies exist, a pool's buffers going with it. */
  function UndoneBy(call: Call, o: Obj, live: nat): nat {
    match call
    case Destroy(k, under, native) =>
      if FreedWithPool(call, o) then live
      else if o == ScopedObj(k, under, 0, native) && k != CommandBuffer then 1 else 0
    case FreeCommandBuffers(under, pool, freed) =>
      if o == Obj(CommandBuffer, under, pool, o.native) then multiset(freed)[o.native] else 0
    case _ => 0
  }

  function OwnerAfter(owner: map<Ref, Native>, call: Call): map<Ref, Native> {
    match call
    case Create(k, under, _, made) =>
      if k == Device && Ref(PhysicalDevice, under) in owner then
        owner + map n | n in made :: Ref(Device, n) := owner[Ref(PhysicalDevice, under)]
      else owner
    case Retrieve(k, under, found) => owner + map n | n in found :: Ref(k, n) := under
    case Destroy(k, _, native) =>
      if k == Device then
        map r | r in owner && r != Ref(Device, native) && !(r.kind == Queue && owner[r] == native) :: owner[r]
      else if k == Instance then
        map r | r in owner && !(r.kind == PhysicalDevice && owner[r] == native) :: owner[r]
      else owner
    case _ => owner
  }

  function Apply(drv: Driver, call: Call): Driver {
    Driver(o => Minus(drv.live(o) + MadeBy(call, o), UndoneBy(call, o, drv.live(o))), OwnerAfter(drv.owner, call))
  }

  lemma ApplyLive(drv: Driver, call: Call, o: Obj)
    ensures Apply(drv, call).live(o) == Minus(drv.live(o) + MadeBy(call, o), UndoneBy(call, o, drv.live(o)))
  {
  }

  function Drive(trace: seq<Call>): Driver {
    if trace == [] then INITIAL else Apply(Drive(trace[..|trace| - 1]), trace[|trace| - 1])
  }

  // ---- Valid usage -----------------------------------------------------------

  ghost predicate IsLive(drv: Driver, k: Kind, native: Native) {
    drv.live(Obj(k, 0, 0, native)) > 0
  }

  /** Something the driver knows under this device: one of its queues, or a live object. */
  ghost predicate Names(drv: Driver, device: Native, r: Ref) {
    if r.kind == Queue then r in drv.owner && drv.owner[r] == device
    else if r.kind == CommandBuffer then exists pool :: drv.live(Obj(CommandBuffer, device, pool, r.native)) > 0
    else drv.live(Obj(r.kind, device, 0, r.native)) > 0
  }

  ghost predicate PhysicalDeviceIsLive(drv: Driver, physical: Native) {
    Ref(PhysicalDevice, physical) in drv.owner && IsLive(drv, Instance, drv.owner[Ref(PhysicalDevice, physical)])
  }

  ghost predicate NothingUnder(drv: Driver, device: Native) {
    forall o: Obj :: DeviceScoped(o.kind) && o.device == device ==> drv.live(o) == 0
  }

  /**
   * No live device is the instance's. On a trace of valid calls every live device is some
   * instance's (LiveDeviceIsOwned).
   */
  ghost predicate NoDeviceOf(drv: Driver, instance: Native) {
    forall d :: IsLive(drv, Device, d) && Ref(Device, d) in drv.owner ==> drv.owner[Ref(Device, d)] != instance
  }

  /**
   * Valid usage of a call: every handle it names is alive and of the named device,
   * children go before their device, devices before their instance.
   */
  ghost predicate Legal(drv: Driver, call: Call) {
    match call
    case Create(k, under, pool, _) =>
      (match k
       case Instance => true
       case Device => PhysicalDeviceIsLive(drv, under)
       case CommandBuffer => IsLive(drv, Device, under) && drv.live(Obj(CommandPool, under, 0, pool)) > 0
       case _ => Creatable(k) && IsLive(drv, Device, under))
    case Retrieve(k, under, _) =>
      if k == PhysicalDevice then IsLive(drv, Instance, under) else k == Queue && IsLive(drv, Device, under)
    case Destroy(k, under, native) =>
      (match k
       case Instance => IsLive(drv, Instance, native) && NoDeviceOf(drv, native)
       case Device => IsLive(drv, Device, native) && NothingUnder(drv, native)
       case _ => Creatable(k) && IsLive(drv, Device, under) && drv.live(Obj(k, under, 0, native)) > 0)
    case FreeCommandBuffers(under, pool, freed) =>
      && IsLive(drv, Device, under) && drv.live(Obj(CommandPool, under, 0, pool)) > 0
      && forall n :: n in freed ==> multiset(freed)[n] <= drv.live(Obj(CommandBuffer, under, pool, n))
    case Use(device, objects) =>
      IsLive(drv, Device, device) && forall r :: r in objects ==> Names(drv, device, r)
    case Query(p) => PhysicalDeviceIsLive(drv, p)
  }

  /** Every call was valid usage when it was made. */
  ghost predicate LegalTrace(trace: seq<Call>) {
    trace != [] ==>
      LegalTrace(trace[..|trace| - 1]) && Legal(Drive(trace[..|trace| - 1]), trace[|trace| - 1])
  }

  // ---- What the driver is trusted with ---------------------------------------

  /**
   * A driver hands out dispatchable handles that no live object has, and reports a
   * physical device or queue under one owner at a time. Other handles may repeat, all
   * but those of one device's command pools: buffers are named through their pool, so
   * two live pools with one handle could not be told apart when one of them goes
   * (SharedPoolLosesBuffers).
   */
  ghost predicate Conforms(drv: Driver, call: Call) {
    match call
    case Create(k, under, pool, made) =>
      if k == CommandBuffer then
        forall n :: n in made ==> multiset(made)[n] == 1 && drv.live(Obj(k, under, pool, n)) == 0
      else
        |made| <= 1 && (k in {Instance, Device, CommandPool} ==>
          forall n :: n in made ==> drv.live(ScopedObj(k, under, 0, n)) == 0)
    case Retrieve(k, under, found) =>
      forall n :: n in found && Ref(k, n) in drv.owner ==> drv.owner[Ref(k, n)] == under
    case _ => true
  }

  /** Of two live pools with one handle, destroying one takes the buffers of both. */
  lemma SharedPoolLosesBuffers(drv: Driver, under: Native, pool: Native, buffer: Native)
    requires drv.live(Obj(CommandPool, under, 0, pool)) == 2 && drv.live(Obj(CommandBuffer, under, pool, buffer)) > 0
    ensures var after := Apply(drv, Destroy(CommandPool, under, pool));
      after.live(Obj(CommandPool, under, 0, pool)) == 1 && after.live(Obj(CommandBuffer, under, pool, buffer)) == 0
  {
    ApplyLive(drv, Destroy(CommandPool, under, pool), Obj(CommandPool, under, 0, pool));
    ApplyLive(drv, Destroy(CommandPool, under, pool), Obj(CommandBuffer, under, pool, buffer));
  }

  ghost predicate ConformingTrace(trace: seq<Call>) {
    trace != [] ==>
      ConformingTrace(trace[..|trace| - 1]) && Conforms(Drive(trace[..|trace| - 1]), trace[|trace| - 1])
  }

  // ---- Conservation ------------------------------------------------------------

  function Created(trace: seq<Call>, o: Obj): nat {
    if trace == [] then 0 else Created(trace[..|trace| - 1], o) + MadeBy(trace[|trace| - 1], o)
  }

  function Destroyed(trace: seq<Call>, o: Obj): nat {
    if trace == [] then 0
    else
      var before := trace[..|trace| - 1];
      Destroyed(before, o) + UndoneBy(trace[|trace| - 1], o, Drive(before).live(o))
  }

  /** The call undoes only live copies: what valid usage asks of it as far as counting goes. */
  ghost predicate Balanced(drv: Driver, call: Call) {
    forall o: Obj :: UndoneBy(call, o, drv.live(o)) <= drv.live(o)
  }

  ghost predicate BalancedTrace(trace: seq<Call>) {
    trace != [] ==>
      BalancedTrace(trace[..|trace| - 1]) && Balanced(Drive(trace[..|trace| - 1]), trace[|trace| - 1])
  }

  lemma LegalIsBalanced(drv: Driver, call: Call)
    requires Legal(drv, call)
    ensures Balanced(drv, call)
  {
    forall o: Obj ensures UndoneBy(call, o, drv.live(o)) <= drv.live(o) {
      if call.FreeCommandBuffers? && o == Obj(CommandBuffer, call.under, call.pool, o.native) {
        assert o.native in call.freed ==> multiset(call.freed)[o.native] <= drv.live(o);
      }
    }
  }

  lemma {:induction false} LegalTraceIsBalanced(trace: seq<Call>)
    requires LegalTrace(trace)
    ensures BalancedTrace(trace)
  {
    hide Legal, Balanced;
    if trace != [] {
      LegalTraceIsBalanced(trace[..|trace| - 1]);
      LegalIsBalanced(Drive(trace[..|trace| - 1]), trace[|trace| - 1]);
    }
  }

  lemma {:induction false} LegalPrefix(trace: seq<Call>, n: nat)
    requires n <= |trace|
    ensures LegalTrace(trace) ==> LegalTrace(trace[..n])
    ensures ConformingTrace(trace) ==> ConformingTrace(trace[..n])
    decreases |trace|
  {
    if n < |trace| {
      LegalPrefix(trace[..|trace| - 1], n);
      assert trace[..|trace| - 1][..n] == trace[..n];
    } else {
      assert trace[..n] == trace;
    }
  }

  /** The call at i met the driver that the calls before it left. */
  lemma CallAt(trace: seq<Call>, i: nat)
    requires i < |trace|
    ensures LegalTrace(trace) ==> LegalTrace(trace[..i]) && Legal(Drive(trace[..i]), trace[i])
    ensures ConformingTrace(trace) ==> ConformingTrace(trace[..i]) && Conforms(Drive(trace[..i]), trace[i])
  {
    LegalPrefix(trace, i + 1);
    assert trace[..i + 1][..i] == trace[..i];
  }

  /** In a trace whose calls undo only live copies, what was created is what was destroyed plus what is live. */
  lemma {:induction false} CreatedIsDestroyedPlusLive(trace: seq<Call>, o: Obj)
    requires BalancedTrace(trace)
    ensures Created(trace, o) == Destroyed(trace, o) + Drive(trace).live(o)
  {
    if trace != [] {
      var before := trace[..|trace| - 1];
      CreatedIsDestroyedPlusLive(before, o);
      hide MadeBy, UndoneBy;
      assert UndoneBy(trace[|trace| - 1], o, Drive(before).live(o)) <= Drive(before).live(o);
      ApplyLive(Drive(before), trace[|trace| - 1], o);
    }
  }

  lemma LegalSnoc(trace: seq<Call>, call: Call)
    ensures LegalTrace(trace + [call]) <==> LegalTrace(trace) && Legal(Drive(trace), call)
  {
    hide Legal;
    var longer := trace + [call];
    assert longer[..|trace|] == trace;
  }

  lemma TraceSnoc(trace: seq<Call>, call: Call)
    ensures Drive(trace + [call]) == Apply(Drive(trace), call)
    ensures LegalTrace(trace) && Legal(Drive(trace), call) ==> LegalTrace(trace + [call])
    ensures BalancedTrace(trace) && Balanced(Drive(trace), call) ==> BalancedTrace(trace + [call])
    ensures ConformingTrace(trace + [call]) ==> ConformingTrace(trace) && Conforms(Drive(trace), call)
  {
    var longer := trace + [call];
    assert longer[..|trace|] == trace;
  }
}
