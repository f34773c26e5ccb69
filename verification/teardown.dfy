/**
 * The two cascades agree: destroying an instance does what destroying its devices
 * one by one, in any order, and then dropping the instance does.
 */
module Teardown {
  import opened Sequences
  import opened HandleTables
  import opened Registries
  import opened Linking
  import opened Sweeps
  import opened Lifecycle

  /** DestroyDevice on each device in turn, each with its own sweep. */
  function DestroyEach(w: World, devices: seq<Handle>, sweeps: seq<seq<Key>>): World
    requires |devices| == |sweeps|
  {
    if devices == [] then w
    else
      var n := |devices| - 1;
      DestroyDevice(DestroyEach(w, devices[..n], sweeps[..n]), devices[n], sweeps[n]).world
  }

  /** Every device is there when its turn comes, and is swept as its tables then are. */
  ghost predicate SweptInTurn(w: World, devices: seq<Handle>, sweeps: seq<seq<Key>>) {
    && |devices| == |sweeps| && NoDup(devices)
    && (forall d :: d in devices ==> Key(Device, d) in w.reg.records)
    && forall i :: 0 <= i < |devices| ==>
      SweepOf(DestroyEach(w, devices[..i], sweeps[..i]).reg, {devices[i]}, sweeps[i])
  }

  function Joined(sweeps: seq<seq<Key>>): seq<Key> {
    if sweeps == [] then [] else Joined(sweeps[..|sweeps| - 1]) + sweeps[|sweeps| - 1]
  }

  lemma SweptPrefix(w: World, devices: seq<Handle>, sweeps: seq<seq<Key>>, n: nat)
    requires SweptInTurn(w, devices, sweeps) && n <= |devices|
    ensures SweptInTurn(w, devices[..n], sweeps[..n])
  {
    forall i | 0 <= i < n ensures devices[..n][..i] == devices[..i] && sweeps[..n][..i] == sweeps[..i] {}
  }

  /** Removing device sets one after the other is removing their union. */
  lemma RemovalsCombine(reg: Registry, a: set<Handle>, b: set<Handle>)
    ensures RemoveDevices(RemoveDevices(reg, a), b) == RemoveDevices(reg, a + b)
  {
    var first := RemoveDevices(reg, a);
    forall key | key in reg.records
      ensures key in RemoveDevices(first, b).records <==> key in RemoveDevices(reg, a + b).records
    {
      assert key in Doomed(reg, a + b) <==> key in Doomed(reg, a) || DoomedBy(reg, b, key);
      if key !in Doomed(reg, a) {
        assert key in Doomed(first, b) <==> DoomedBy(reg, b, key);
      }
    }
    assert RemoveDevices(first, b).records.Keys == RemoveDevices(reg, a + b).records.Keys;
  }

  lemma {:induction false} EachRemovesAll(w: World, devices: seq<Handle>, sweeps: seq<seq<Key>>)
    requires SweptInTurn(w, devices, sweeps)
    ensures DestroyEach(w, devices, sweeps).reg == RemoveDevices(w.reg, Elements(devices))
    decreases |devices|
  {
    if devices == [] {
      assert Doomed(w.reg, {}) == {};
    } else {
      var n := |devices| - 1;
      SweptPrefix(w, devices, sweeps, n);
      EachRemovesAll(w, devices[..n], sweeps[..n]);
      StillThere(w.reg, devices, n);
      RemovalsCombine(w.reg, Elements(devices[..n]), {devices[n]});
      ElementsSnoc(devices);
    }
  }

  lemma StillThere(reg: Registry, devices: seq<Handle>, n: nat)
    requires NoDup(devices) && n < |devices| && Key(Device, devices[n]) in reg.records
    ensures Key(Device, devices[n]) in RemoveDevices(reg, Elements(devices[..n])).records
  {
    assert devices[n] !in devices[..n];
  }

  /** What is swept for d after other devices went is what would be swept for d at first. */
  lemma SweptAsAtFirst(reg: Registry, gone: set<Handle>, d: Handle, key: Key)
    requires d !in gone
    ensures InSweep(RemoveDevices(reg, gone), {d}, key) <==> InSweep(reg, {d}, key)
    ensures InSweep(reg, {d}, key) && Key(Device, d) in reg.records ==>
            DestroyCall(RemoveDevices(reg, gone), key) == DestroyCall(reg, key)
    ensures InSweep(reg, {d}, key) ==> !InSweep(reg, gone, key)
  {
    assert key in reg.records ==> (key in Doomed(reg, gone) <==> DoomedBy(reg, gone, key));
    assert Key(Device, d) in reg.records ==> !DoomedBy(reg, gone, Key(Device, d));
  }

  lemma NoDupConcat<T>(a: seq<T>, b: seq<T>)
    requires NoDup(a) && NoDup(b) && forall x :: x in a ==> x !in b
    ensures NoDup(a + b)
  {
    var c := a + b;
    forall i, j | 0 <= i < j < |c| ensures c[i] != c[j] {
      if i < |a| <= j {
        assert c[i] in a && c[j] in b;
      }
    }
  }

  /** The sweeps together list, once, everything one sweep over all the devices would. */
  lemma {:induction false} JoinedListsAll(w: World, devices: seq<Handle>, sweeps: seq<seq<Key>>)
    requires SweptInTurn(w, devices, sweeps)
    ensures NoDup(Joined(sweeps))
    ensures forall key :: key in Joined(sweeps) <==> InSweep(w.reg, Elements(devices), key)
    decreases |devices|
  {
    if devices != [] {
      var n := |devices| - 1;
      SweptPrefix(w, devices, sweeps, n);
      JoinedListsAll(w, devices[..n], sweeps[..n]);
      EachRemovesAll(w, devices[..n], sweeps[..n]);
      var gone := Elements(devices[..n]);
      ElementsSnoc(devices);
      forall key
        ensures key in sweeps[n] <==> InSweep(w.reg, {devices[n]}, key)
        ensures key in sweeps[n] ==> key !in Joined(sweeps[..n])
      {
        SweptAsAtFirst(w.reg, gone, devices[n], key);
      }
      NoDupConcat(Joined(sweeps[..n]), sweeps[n]);
    }
  }

  lemma {:induction false} SameOnElements<S, T>(f: S -> T, g: S -> T, s: seq<S>)
    requires forall x :: x in s ==> f(x) == g(x)
    ensures MapSeq(f, s) == MapSeq(g, s)
  {
    if s != [] {
      SameOnElements(f, g, s[..|s| - 1]);
    }
  }

  lemma SameCalls(reg: Registry, devices: seq<Handle>, n: nat, sweep: seq<Key>)
    requires NoDup(devices) && n < |devices| && Key(Device, devices[n]) in reg.records
    requires SweepOf(RemoveDevices(reg, Elements(devices[..n])), {devices[n]}, sweep)
    ensures SweepCalls(RemoveDevices(reg, Elements(devices[..n])), sweep) == SweepCalls(reg, sweep)
  {
    var gone := Elements(devices[..n]);
    var before := RemoveDevices(reg, gone);
    forall key | key in sweep ensures DestroyCall(before, key) == DestroyCall(reg, key) {
      SweptAsAtFirst(reg, gone, devices[n], key);
    }
    SameOnElements(Destroys(before), Destroys(reg), sweep);
  }

  lemma OneMoreCascade(w: World, before: World, devices: seq<Handle>, n: nat, swept: seq<Key>, sweep: seq<Key>)
    requires NoDup(devices) && n < |devices| && Key(Device, devices[n]) in w.reg.records
    requires before.reg == RemoveDevices(w.reg, Elements(devices[..n])) && SweepOf(before.reg, {devices[n]}, sweep)
    requires before.trace == w.trace + SweepCalls(w.reg, swept)
    ensures DestroyDevice(before, devices[n], sweep).world.trace == w.trace + SweepCalls(w.reg, swept + sweep)
  {
    hide SweepOf, RemoveDevices, MapSeq, Destroys, Elements;
    StillThere(w.reg, devices, n);
    SameCalls(w.reg, devices, n, sweep);
    MapConcat(Destroys(w.reg), swept, sweep);
  }

  /** The calls of the cascades one by one are those the first tables give for the joined sweep. */
  lemma {:induction false} EachCalls(w: World, devices: seq<Handle>, sweeps: seq<seq<Key>>)
    requires SweptInTurn(w, devices, sweeps)
    ensures DestroyEach(w, devices, sweeps).trace == w.trace + SweepCalls(w.reg, Joined(sweeps))
    decreases |devices|
  {
    if devices != [] {
      var n := |devices| - 1;
      SweptPrefix(w, devices, sweeps, n);
      EachCalls(w, devices[..n], sweeps[..n]);
      EachRemovesAll(w, devices[..n], sweeps[..n]);
      OneMoreCascade(w, DestroyEach(w, devices[..n], sweeps[..n]), devices, n, Joined(sweeps[..n]), sweeps[n]);
    }
  }

  /** The order of the devices does not matter: same tables, same calls. */
  lemma DestroyDevicesCommute(w: World, a: seq<Handle>, sweepsA: seq<seq<Key>>, b: seq<Handle>, sweepsB: seq<seq<Key>>)
    requires SweptInTurn(w, a, sweepsA) && SweptInTurn(w, b, sweepsB) && Elements(a) == Elements(b)
    ensures DestroyEach(w, a, sweepsA).reg == DestroyEach(w, b, sweepsB).reg
    ensures multiset(DestroyEach(w, a, sweepsA).trace) == multiset(DestroyEach(w, b, sweepsB).trace)
  {
    EachRemovesAll(w, a, sweepsA);
    EachRemovesAll(w, b, sweepsB);
    JoinedListsAll(w, a, sweepsA);
    JoinedListsAll(w, b, sweepsB);
    EachCalls(w, a, sweepsA);
    EachCalls(w, b, sweepsB);
    NoDupSameSet(Joined(sweepsA), Joined(sweepsB));
    MapPermutes(Destroys(w.reg), Joined(sweepsA), Joined(sweepsB));
  }

  /** DestroyInstance against DestroyDevice on each of its devices and then dropping the instance. */
  lemma CascadesAgree(w: World, i: Handle, sweep: seq<Key>, devices: seq<Handle>, sweeps: seq<seq<Key>>)
    requires Key(Instance, i) in w.reg.records && SweepOf(w.reg, DevicesOf(w.reg, i), sweep)
    requires SweptInTurn(w, devices, sweeps) && Elements(devices) == DevicesOf(w.reg, i)
    ensures var whole := DestroyInstance(w, i, sweep).world;
      var parts := DestroyEach(w, devices, sweeps);
      && whole.reg == Without(parts.reg, InstanceKeys(w.reg, i))
      && multiset(whole.trace) == multiset(parts.trace + [DestroyCall(w.reg, Key(Instance, i))])
  {
    EachRemovesAll(w, devices, sweeps);
    JoinedListsAll(w, devices, sweeps);
    EachCalls(w, devices, sweeps);
    NoDupSameSet(sweep, Joined(sweeps));
    MapPermutes(Destroys(w.reg), sweep, Joined(sweeps));
  }

  // ---- Cascades and descent ------------------------------------------------------------------

  /** key leads to top in at most n steps, each to the parent or, for a command buffer, to its pool. */
  ghost predicate Descends(reg: Registry, key: Key, top: Key, n: nat)
    decreases n
  {
    || key == top
    || (n > 0 && key in reg.records && key.kind != Instance
        && (|| Descends(reg, Key(ParentKind(key.kind), reg.records[key].parent), top, n - 1)
            || (key.kind == CommandBuffer && Descends(reg, Key(CommandPool, reg.records[key].pool), top, n - 1))))
  }

  ghost predicate Below(reg: Registry, key: Key, top: Key) {
    exists n :: Descends(reg, key, top, n)
  }

  lemma {:induction false} DescentEndsAtDevice(reg: Registry, key: Key, d: Handle, n: nat)
    requires ForestBelow(reg) && key in reg.records && Descends(reg, key, Key(Device, d), n)
    ensures DoomedBy(reg, {d}, key)
    decreases n
  {
    assert EdgeHolds(reg, key);
    if key != Key(Device, d) && key.kind != PhysicalDevice {
      var parent := Key(ParentKind(key.kind), reg.records[key].parent);
      if Descends(reg, parent, Key(Device, d), n - 1) {
        DescentEndsAtDevice(reg, parent, d, n - 1);
      } else {
        DescentEndsAtDevice(reg, Key(CommandPool, reg.records[key].pool), d, n - 1);
      }
    }
  }

  lemma DoomedIsBelow(reg: Registry, d: Handle, key: Key)
    requires ForestBelow(reg) && key in reg.records
    ensures DoomedBy(reg, {d}, key) <==> Below(reg, key, Key(Device, d))
  {
    if DoomedBy(reg, {d}, key) {
      assert Descends(reg, Key(Device, d), Key(Device, d), 0);
      assert Descends(reg, key, Key(Device, d), 1);
    }
    if n :| Descends(reg, key, Key(Device, d), n) {
      DescentEndsAtDevice(reg, key, d, n);
    }
  }

  /** The nine erasures of a device cascade remove exactly what lies below the device, at any depth. */
  lemma DeviceCascadeIsExact(w: World, d: Handle, sweep: seq<Key>, key: Key)
    requires ForestBelow(w.reg) && Key(Device, d) in w.reg.records && key in w.reg.records
    ensures var after := DestroyDevice(w, d, sweep).world.reg;
      && after.next == w.reg.next
      && (key in after.records <==> !Below(w.reg, key, Key(Device, d)))
      && (key in after.records ==> after.records[key] == w.reg.records[key])
  {
    hide ForestBelow, Below, DoomedBy;
    DoomedIsBelow(w.reg, d, key);
    assert key in Doomed(w.reg, {d}) <==> DoomedBy(w.reg, {d}, key);
  }

  /** What an instance cascade removes. */
  predicate GoesWithInstance(reg: Registry, i: Handle, key: Key)
    requires key in reg.records
  {
    || key == Key(Instance, i)
    || (key.kind == PhysicalDevice && reg.records[key].parent == i)
    || DoomedBy(reg, DevicesOf(reg, i), key)
  }

  lemma GoneWithInstance(reg: Registry, i: Handle, key: Key)
    requires key in reg.records
    ensures key in RemoveInstance(reg, i).records <==> !GoesWithInstance(reg, i, key)
    ensures key in RemoveInstance(reg, i).records ==> RemoveInstance(reg, i).records[key] == reg.records[key]
  {
    hide DevicesOf;
    assert key in Doomed(reg, DevicesOf(reg, i)) <==> DoomedBy(reg, DevicesOf(reg, i), key);
    assert key.kind == PhysicalDevice && reg.records[key].parent == i ==> key.handle in PhysicalDevicesOf(reg, i);
  }

  lemma DeviceOfInstance(reg: Registry, i: Handle, d: Handle)
    requires ForestBelow(reg) && Key(Device, d) in reg.records
    ensures var physical := Key(PhysicalDevice, reg.records[Key(Device, d)].parent);
      physical in reg.records && (d in DevicesOf(reg, i) <==> GoesWithInstance(reg, i, physical))
  {
    assert EdgeHolds(reg, Key(Device, d));
    var physical := Key(PhysicalDevice, reg.records[Key(Device, d)].parent);
    assert physical.handle in PhysicalDevicesOf(reg, i) <==> reg.records[physical].parent == i;
  }

  lemma {:induction false} DescentEndsAtInstance(reg: Registry, key: Key, i: Handle, n: nat)
    requires ForestBelow(reg) && key in reg.records && Descends(reg, key, Key(Instance, i), n)
    ensures GoesWithInstance(reg, i, key)
    decreases n
  {
    hide DevicesOf;
    assert EdgeHolds(reg, key);
    if key.kind != Instance && key.kind != PhysicalDevice {
      var parent := Key(ParentKind(key.kind), reg.records[key].parent);
      if key.kind == Device {
        DeviceOfInstance(reg, i, key.handle);
      }
      if Descends(reg, parent, Key(Instance, i), n - 1) {
        DescentEndsAtInstance(reg, parent, i, n - 1);
      } else {
        DescentEndsAtInstance(reg, Key(CommandPool, reg.records[key].pool), i, n - 1);
      }
    }
  }

  lemma DescendsUp(reg: Registry, key: Key, top: Key, n: nat)
    requires key in reg.records && key.kind != Instance
    requires Descends(reg, Key(ParentKind(key.kind), reg.records[key].parent), top, n)
    ensures Descends(reg, key, top, n + 1)
  {
  }

  lemma GoingIsBelow(reg: Registry, i: Handle, key: Key)
    requires ForestBelow(reg) && key in reg.records && GoesWithInstance(reg, i, key)
    ensures Below(reg, key, Key(Instance, i))
  {
    var top := Key(Instance, i);
    if key == top {
      assert Descends(reg, key, top, 0);
    } else if key.kind == PhysicalDevice {
      DescendsUp(reg, key, top, 0);
    } else {
      assert EdgeHolds(reg, key);
      var d := if key.kind == Device then key.handle else reg.records[key].parent;
      var device := Key(Device, d);
      DeviceOfInstance(reg, i, d);
      DescendsUp(reg, Key(PhysicalDevice, reg.records[device].parent), top, 0);
      DescendsUp(reg, device, top, 1);
      if key != device {
        DescendsUp(reg, key, top, 2);
      }
    }
  }

  /** An instance cascade removes exactly what lies below the instance, at any depth. */
  lemma InstanceCascadeIsExact(w: World, i: Handle, sweep: seq<Key>, key: Key)
    requires ForestBelow(w.reg) && Key(Instance, i) in w.reg.records && key in w.reg.records
    ensures var after := DestroyInstance(w, i, sweep).world.reg;
      && after.next == w.reg.next
      && (key in after.records <==> !Below(w.reg, key, Key(Instance, i)))
      && (key in after.records ==> after.records[key] == w.reg.records[key])
  {
    hide ForestBelow, GoesWithInstance;
    GoneWithInstance(w.reg, i, key);
    if n :| Descends(w.reg, key, Key(Instance, i), n) {
      DescentEndsAtInstance(w.reg, key, i, n);
    }
    if GoesWithInstance(w.reg, i, key) {
      GoingIsBelow(w.reg, i, key);
    }
  }

  /** And so does the destruction of one object of a device: a pool's buffers go, and nothing else is below any. */
  lemma ChildCascadeIsExact(reg: Registry, child: Key, key: Key)
    requires ForestBelow(reg) && Creatable(child.kind) && key in reg.records
    ensures key in Dropped(reg, child) <==> Below(reg, key, child)
  {
    if key == child {
      assert Descends(reg, key, child, 0);
    } else if key in Dropped(reg, child) {
      assert Descends(reg, child, child, 0);
      assert Descends(reg, key, child, 1);
    }
    if n :| Descends(reg, key, child, n) {
      DescentEndsAtChild(reg, key, child, n);
    }
  }

  lemma {:induction false} DescentEndsAtChild(reg: Registry, key: Key, child: Key, n: nat)
    requires ForestBelow(reg) && Creatable(child.kind) && key in reg.records && Descends(reg, key, child, n)
    ensures key in Dropped(reg, child)
    decreases n
  {
    assert EdgeHolds(reg, key);
    if key != child && key.kind != PhysicalDevice {
      var parent := Key(ParentKind(key.kind), reg.records[key].parent);
      if Descends(reg, parent, child, n - 1) {
        DescentEndsAtChild(reg, parent, child, n - 1);
      } else {
        DescentEndsAtChild(reg, Key(CommandPool, reg.records[key].pool), child, n - 1);
      }
    }
  }

  /** Erasing buffers by device, as the cascade does, is erasing them pool by pool. */
  lemma BuffersByDeviceAreBuffersByPool(reg: Registry, d: Handle, key: Key)
    requires ForestBelow(reg) && key in reg.records && key.kind == CommandBuffer
    ensures reg.records[key].parent == d <==>
            exists pool :: BelongsTo(reg, Key(CommandPool, pool), d) && key in BuffersOfPool(reg, pool)
  {
    assert EdgeHolds(reg, key);
    assert key in BuffersOfPool(reg, reg.records[key].pool);
  }

  /** In every cascade buffers and images go before the memory they may be bound to, and a device after all it made. */
  lemma MemoryOutlivesItsUsers(reg: Registry, ds: set<Handle>, sweep: seq<Key>, i: nat, j: nat)
    requires SweepOf(reg, ds, sweep) && i < |sweep| && j < |sweep|
    ensures sweep[i].kind == Memory && (sweep[j].kind == Buffer || sweep[j].kind == Image) ==> j < i
    ensures sweep[i].kind == Device && Creatable(sweep[j].kind) ==> j < i
  {
    if j >= i {
      assert i != j ==> Rank(sweep[i].kind) <= Rank(sweep[j].kind);
    }
  }
}
