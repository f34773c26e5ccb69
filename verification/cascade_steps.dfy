/** The cascades one table at a time: what has been destroyed so far, and what has been erased so far. */
module CascadeSteps {
  import opened Sequences
  import opened HandleTables
  import opened Registries
  import opened NativeDriver
  import opened Linking
  import opened Sweeps

  // ---- Destroying -----------------------------------------------------------------------

  /** What a cascade has destroyed once the tables below a rank are done. */
  ghost predicate PartialSweep(reg: Registry, ds: set<Handle>, rank: nat, sweep: seq<Key>) {
    && NoDup(sweep) && Sorted(sweep)
    && forall key :: key in sweep <==> InSweep(reg, ds, key) && Rank(key.kind) < rank
  }

  /** The same, in the middle of the table of k, whose handles in done have been visited. */
  ghost predicate SweptSoFar(reg: Registry, ds: set<Handle>, k: Kind, done: seq<Handle>, sweep: seq<Key>) {
    && NoDup(sweep) && Sorted(sweep)
    && forall key :: key in sweep <==>
         InSweep(reg, ds, key) && (Rank(key.kind) < Rank(k) || (key.kind == k && key.handle in done))
  }

  lemma VisitExtends(reg: Registry, ds: set<Handle>, k: Kind, done: seq<Handle>, h: Handle, sweep: seq<Key>)
    requires SweptSoFar(reg, ds, k, done, sweep) && h !in done
    ensures var longer := if InSweep(reg, ds, Key(k, h)) then sweep + [Key(k, h)] else sweep;
      SweptSoFar(reg, ds, k, done + [h], longer)
  {
    var key := Key(k, h);
    assert key !in sweep;
    var longer := if InSweep(reg, ds, key) then sweep + [key] else sweep;
    forall i | 0 <= i < |sweep| ensures Rank(sweep[i].kind) <= Rank(k) {
      assert sweep[i] in sweep;
    }
    forall b ensures b in longer <==>
      InSweep(reg, ds, b) && (Rank(b.kind) < Rank(k) || (b.kind == k && b.handle in done + [h])) {
      assert b.kind == k && b.handle == h ==> b == key;
    }
  }

  lemma TableSwept(reg: Registry, ds: set<Handle>, k: Kind, done: seq<Handle>, sweep: seq<Key>)
    requires SweptSoFar(reg, ds, k, done, sweep) && (Creatable(k) || k == Device)
    requires forall h: Handle :: Key(k, h) in reg.records ==> h in done
    ensures PartialSweep(reg, ds, Rank(k) + 1, sweep)
  {
    forall key | InSweep(reg, ds, key) && Rank(key.kind) == Rank(k) ensures key.kind == k && key.handle in done {
      assert key == Key(k, key.handle);
    }
  }

  lemma CallsGrow(reg: Registry, base: seq<Call>, sweep: seq<Key>, key: Key)
    ensures base + SweepCalls(reg, sweep + [key]) == base + SweepCalls(reg, sweep) + [DestroyCall(reg, key)]
  {
    MapConcat(Destroys(reg), sweep, [key]);
  }

  ghost predicate AllPresent(reg: Registry, ds: set<Handle>) {
    forall d :: d in ds ==> Key(Device, d) in reg.records
  }

  /** A cascade between two tables: everything below the rank is destroyed, by calls that follow base. */
  ghost predicate SweepStage(reg: Registry, ds: set<Handle>, rank: nat,
                             base: seq<Call>, trace: seq<Call>, sweep: seq<Key>) {
    AllPresent(reg, ds) && PartialSweep(reg, ds, rank, sweep) && trace == base + SweepCalls(reg, sweep)
  }

  /** A cascade inside the table of k, whose handles in done have been visited. */
  ghost predicate VisitStage(reg: Registry, ds: set<Handle>, k: Kind, done: seq<Handle>,
                             base: seq<Call>, trace: seq<Call>, sweep: seq<Key>) {
    AllPresent(reg, ds) && SweptSoFar(reg, ds, k, done, sweep) && trace == base + SweepCalls(reg, sweep)
  }

  lemma SweepStarts(reg: Registry, ds: set<Handle>, trace: seq<Call>)
    requires AllPresent(reg, ds)
    ensures SweepStage(reg, ds, Rank(Buffer), trace, trace, [])
  {
    assert trace + [] == trace;
    assert PartialSweep(reg, ds, Rank(Buffer), []);
  }

  lemma VisitBegins(reg: Registry, ds: set<Handle>, k: Kind, base: seq<Call>, trace: seq<Call>, sweep: seq<Key>)
    requires SweepStage(reg, ds, Rank(k), base, trace, sweep)
    ensures VisitStage(reg, ds, k, [], base, trace, sweep)
  {
    assert SweptSoFar(reg, ds, k, [], sweep);
  }

  /** A visit destroys the object iff it goes with the devices, whose records are all there. */
  lemma VisitStep(reg: Registry, ds: set<Handle>, k: Kind, done: seq<Handle>, h: Handle,
                  base: seq<Call>, trace: seq<Call>, sweep: seq<Key>)
    requires VisitStage(reg, ds, k, done, base, trace, sweep) && h !in done
    ensures AllPresent(reg, ds)
    ensures InSweep(reg, ds, Key(k, h)) ==>
            VisitStage(reg, ds, k, done + [h], base, trace + [DestroyCall(reg, Key(k, h))], sweep + [Key(k, h)])
    ensures !InSweep(reg, ds, Key(k, h)) ==> VisitStage(reg, ds, k, done + [h], base, trace, sweep)
  {
    VisitExtends(reg, ds, k, done, h, sweep);
    CallsGrow(reg, base, sweep, Key(k, h));
  }

  lemma VisitEnds(reg: Registry, ds: set<Handle>, k: Kind, done: seq<Handle>, base: seq<Call>, trace: seq<Call>,
          sweep: seq<Key>)
    requires VisitStage(reg, ds, k, done, base, trace, sweep) && (Creatable(k) || k == Device)
    requires forall h: Handle :: Key(k, h) in reg.records ==> h in done
    ensures SweepStage(reg, ds, Rank(k) + 1, base, trace, sweep)
  {
    TableSwept(reg, ds, k, done, sweep);
  }

  lemma SweepEnds(reg: Registry, ds: set<Handle>, base: seq<Call>, trace: seq<Call>, sweep: seq<Key>)
    requires SweepStage(reg, ds, Rank(Device) + 1, base, trace, sweep)
    ensures SweepOf(reg, ds, sweep) && trace == base + SweepCalls(reg, sweep)
  {
  }

  lemma DeviceIsLast(reg: Registry, d: Handle, sweep: seq<Key>)
    requires PartialSweep(reg, {d}, Rank(Device), sweep) && Key(Device, d) in reg.records
    ensures SweepOf(reg, {d}, sweep + [Key(Device, d)])
  {
    var last := Key(Device, d);
    var longer := sweep + [last];
    assert last !in sweep;
    forall i | 0 <= i < |sweep| ensures Rank(sweep[i].kind) <= Rank(Device) {
      assert sweep[i] in sweep;
    }
    forall key ensures key in longer <==> InSweep(reg, {d}, key) {
      assert key.kind == Device && key.handle == d ==> key == last;
      RankBelowDevice(reg, {d}, key);
    }
  }

  lemma RankBelowDevice(reg: Registry, ds: set<Handle>, key: Key)
    ensures InSweep(reg, ds, key) ==> (if key.kind == Device then key.handle in ds else Rank(key.kind) < Rank(Device))
  {
  }

  /** A single device closes its own sweep. */
  lemma DeviceEnds(reg: Registry, d: Handle, base: seq<Call>, trace: seq<Call>, sweep: seq<Key>)
    requires SweepStage(reg, {d}, Rank(Device), base, trace, sweep) && Key(Device, d) in reg.records
    ensures SweepOf(reg, {d}, sweep + [Key(Device, d)])
    ensures trace + [DestroyCall(reg, Key(Device, d))] == base + SweepCalls(reg, sweep + [Key(Device, d)])
  {
    hide PartialSweep, SweepOf, SweepCalls, DestroyCall;
    DeviceIsLast(reg, d, sweep);
    CallsGrow(reg, base, sweep, Key(Device, d));
  }

  // ---- Erasing ------------------------------------------------------------------------------

  lemma WithoutTwice(reg: Registry, a: set<Key>, b: set<Key>)
    ensures Without(Without(reg, a), b) == Without(reg, a + b)
  {
    assert (reg.records - a) - b == reg.records - (a + b);
  }

  /** The keys of one table whose record is doomed. */
  ghost function DoomedKeys(reg: Registry, k: Kind, doomed: Record -> bool): set<Key> {
    set key | key in reg.records && key.kind == k && doomed(reg.records[key])
  }

  /** The doomed keys of some tables. */
  ghost function DoomedIn(reg: Registry, ds: set<Handle>, kinds: seq<Kind>): set<Key> {
    set key | key in Doomed(reg, ds) && key.kind in kinds
  }

  lemma ErasedMore(reg: Registry, ds: set<Handle>, done: seq<Kind>, k: Kind)
    requires HasDeviceParent(k)
    ensures var now := Without(reg, DoomedIn(reg, ds, done));
      Without(now, DoomedKeys(now, k, (r: Record) => r.parent in ds)) == Without(reg, DoomedIn(reg, ds, done + [k]))
  {
    var now := Without(reg, DoomedIn(reg, ds, done));
    var more := DoomedKeys(now, k, (r: Record) => r.parent in ds);
    assert DoomedIn(reg, ds, done) + more == DoomedIn(reg, ds, done + [k]);
    WithoutTwice(reg, DoomedIn(reg, ds, done), more);
  }

  const CHILD_KINDS := [Queue, CommandBuffer, CommandPool, ShaderModule, Buffer, Image, Semaphore, Fence, Memory]

  lemma NothingErased(reg: Registry, ds: set<Handle>)
    ensures Without(reg, DoomedIn(reg, ds, CHILD_KINDS[..0])) == reg
  {
    assert DoomedIn(reg, ds, CHILD_KINDS[..0]) == {};
    assert reg.records - {} == reg.records;
  }

  lemma ChildKindsAreAll(k: Kind)
    ensures k in CHILD_KINDS <==> HasDeviceParent(k)
  {
    assert CHILD_KINDS == [Queue, CommandBuffer, CommandPool, ShaderModule, Buffer, Image, Semaphore, Fence, Memory];
  }

  lemma ChildrenDoomed(reg: Registry, ds: set<Handle>, key: Key)
    ensures key in DoomedIn(reg, ds, CHILD_KINDS) <==> key in Doomed(reg, ds) && HasDeviceParent(key.kind)
  {
    ChildKindsAreAll(key.kind);
  }

  lemma ChildrenAndDevice(reg: Registry, d: Handle)
    requires Key(Device, d) in reg.records
    ensures Without(Without(reg, DoomedIn(reg, {d}, CHILD_KINDS)), {Key(Device, d)}) == RemoveDevices(reg, {d})
  {
    hide Without, DoomedIn;
    WithoutTwice(reg, DoomedIn(reg, {d}, CHILD_KINDS), {Key(Device, d)});
    forall key ensures key in DoomedIn(reg, {d}, CHILD_KINDS) + {Key(Device, d)} <==> key in Doomed(reg, {d}) {
      ChildrenDoomed(reg, {d}, key);
      assert key.kind == Device && key.handle == d <==> key == Key(Device, d);
    }
    assert DoomedIn(reg, {d}, CHILD_KINDS) + {Key(Device, d)} == Doomed(reg, {d});
  }

  /** The instance's devices are those whose record the last erasure of devices dooms. */
  lemma DevicesAreDoomed(reg: Registry, instance: Handle, key: Key)
    ensures var rest := Without(reg, DoomedIn(reg, DevicesOf(reg, instance), CHILD_KINDS));
      key in DoomedKeys(rest, Device, (r: Record) => r.parent in PhysicalDevicesOf(reg, instance))
      <==> key in reg.records && key.kind == Device && key.handle in DevicesOf(reg, instance)
  {
    ChildrenDoomed(reg, DevicesOf(reg, instance), key);
    hide DoomedIn, PhysicalDevicesOf;
    assert key.kind == Device ==> key == Key(Device, key.handle);
  }

  lemma ChildrenAndDevices(reg: Registry, instance: Handle)
    ensures var ds := DevicesOf(reg, instance);
      var rest := Without(reg, DoomedIn(reg, ds, CHILD_KINDS));
      Without(rest, DoomedKeys(rest, Device, (r: Record) => r.parent in PhysicalDevicesOf(reg, instance))) ==
        RemoveDevices(reg, ds)
  {
    hide Without, DoomedIn, DoomedKeys, DevicesOf, PhysicalDevicesOf;
    var ds := DevicesOf(reg, instance);
    var rest := Without(reg, DoomedIn(reg, ds, CHILD_KINDS));
    var devices := DoomedKeys(rest, Device, (r: Record) => r.parent in PhysicalDevicesOf(reg, instance));
    WithoutTwice(reg, DoomedIn(reg, ds, CHILD_KINDS), devices);
    forall key ensures key in DoomedIn(reg, ds, CHILD_KINDS) + devices <==> key in Doomed(reg, ds) {
      ChildrenDoomed(reg, ds, key);
      DevicesAreDoomed(reg, instance, key);
    }
    assert DoomedIn(reg, ds, CHILD_KINDS) + devices == Doomed(reg, ds);
  }

  lemma PhysicalsAreDoomed(reg: Registry, instance: Handle, key: Key)
    ensures var rest := RemoveDevices(reg, DevicesOf(reg, instance));
      key in DoomedKeys(rest, PhysicalDevice, (r: Record) => r.parent == instance)
      <==> key.kind == PhysicalDevice && key.handle in PhysicalDevicesOf(reg, instance)
  {
    hide DevicesOf;
    assert key.kind == PhysicalDevice ==> key == Key(PhysicalDevice, key.handle);
  }

  lemma PhysicalsAndInstance(reg: Registry, instance: Handle)
    ensures var rest := RemoveDevices(reg, DevicesOf(reg, instance));
      var physicals := DoomedKeys(rest, PhysicalDevice, (r: Record) => r.parent == instance);
      Without(Without(rest, physicals), {Key(Instance, instance)}) == RemoveInstance(reg, instance)
  {
    hide Without, RemoveDevices, DevicesOf, DoomedKeys, PhysicalDevicesOf;
    var rest := RemoveDevices(reg, DevicesOf(reg, instance));
    var physicals := DoomedKeys(rest, PhysicalDevice, (r: Record) => r.parent == instance);
    WithoutTwice(rest, physicals, {Key(Instance, instance)});
    forall key ensures key in physicals + {Key(Instance, instance)} <==> key in InstanceKeys(reg, instance) {
      PhysicalsAreDoomed(reg, instance, key);
      assert key.kind == PhysicalDevice ==> key == Key(PhysicalDevice, key.handle);
    }
    assert physicals + {Key(Instance, instance)} == InstanceKeys(reg, instance);
  }
}
