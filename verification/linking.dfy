/**
 * How the guest's tables and the driver's objects correspond: every live native
 * object is counted by exactly the records that name it.
 */
module Linking {
  import opened HandleTables
  import opened Registries
  import opened NativeDriver

  function NativeAt(reg: Registry, key: Key): Native {
    if key in reg.records then reg.records[key].native else 0
  }

  function DeviceNative(reg: Registry, key: Key): Native {
    if HasDeviceParent(key.kind) && key in reg.records then NativeAt(reg, Key(Device, reg.records[key].parent)) else 0
  }

  /** The driver's object behind a record. */
  function ObjOf(reg: Registry, key: Key): Obj
    requires key in reg.records
  {
    ScopedObj(key.kind, DeviceNative(reg, key), NativeAt(reg, Key(CommandPool, reg.records[key].pool)),
              reg.records[key].native)
  }

  /** The instance above a device or physical device, or the device of a queue. */
  function OwnerOf(reg: Registry, key: Key): Native
    requires key in reg.records
  {
    var parent := reg.records[key].parent;
    match key.kind
    case PhysicalDevice => NativeAt(reg, Key(Instance, parent))
    case Device =>
      if Key(PhysicalDevice, parent) in reg.records then
        NativeAt(reg, Key(Instance, reg.records[Key(PhysicalDevice, parent)].parent))
      else 0
    case _ => NativeAt(reg, Key(Device, parent))
  }

  ghost function KeysOf(reg: Registry, keys: set<Key>, o: Obj): set<Key>
    requires keys <= reg.records.Keys
  {
    set key | key in keys && Owned(key.kind) && ObjOf(reg, key) == o
  }

  predicate Retrieved(k: Kind) {
    k == PhysicalDevice || k == Device || k == Queue
  }

  predicate OwnerIs(owner: map<Ref, Native>, r: Ref, native: Native) {
    r in owner && owner[r] == native
  }

  /** No parent edge from a device's objects leads out of keys. */
  ghost predicate ClosedBelow(reg: Registry, keys: set<Key>) {
    && keys <= reg.records.Keys
    && forall key {:trigger DeviceIn(reg, keys, key)} :: key in keys ==> DeviceIn(reg, keys, key)
  }

  ghost predicate DeviceIn(reg: Registry, keys: set<Key>, key: Key)
    requires keys <= reg.records.Keys && key in keys
  {
    && (HasDeviceParent(key.kind) ==> Key(Device, reg.records[key].parent) in keys)
    && (key.kind == CommandBuffer ==>
          var pool := Key(CommandPool, reg.records[key].pool);
          pool in keys && reg.records[pool].parent == reg.records[key].parent)
  }

  lemma ForestBelowIsClosedBelow(reg: Registry)
    requires ForestBelow(reg)
    ensures ClosedBelow(reg, reg.records.Keys)
  {
    forall key | key in reg.records ensures DeviceIn(reg, reg.records.Keys, key) {
      assert EdgeHolds(reg, key);
    }
  }

  /** Handles no two live objects of these kinds share. */
  ghost predicate Unique(drv: Driver) {
    forall o: Obj :: o.kind in {Instance, Device, CommandPool, CommandBuffer} ==> drv.live(o) <= 1
  }

  lemma CreatedOnce(drv: Driver, call: Call, o: Obj)
    requires Conforms(drv, call) && o.kind in {Instance, Device, CommandPool, CommandBuffer} && drv.live(o) <= 1
    ensures drv.live(o) + MadeBy(call, o) <= 1
  {
    if call.Create? && o == ScopedObj(call.kind, call.under, call.pool, o.native) && o.native in call.made {
      assert multiset(call.made)[o.native] == 1;
      assert drv.live(o) == 0;
    }
  }

  lemma ConformingKeepsUnique(drv: Driver, call: Call)
    requires Unique(drv) && Conforms(drv, call)
    ensures Unique(Apply(drv, call))
  {
    hide Conforms, MadeBy, UndoneBy;
    forall o: Obj | o.kind in {Instance, Device, CommandPool, CommandBuffer} ensures Apply(drv, call).live(o) <= 1 {
      CreatedOnce(drv, call, o);
      ApplyLive(drv, call, o);
    }
  }

  function DestroyCall(reg: Registry, key: Key): Call {
    Destroy(key.kind, DeviceNative(reg, key), NativeAt(reg, key))
  }

  lemma SubsetSize<T>(a: set<T>, b: set<T>)
    requires a <= b
    ensures |a| <= |b|
  {
    assert b == a + (b - a);
  }

  /** An object that at most one record names is named by one. */
  lemma OneKey(reg: Registry, keys: set<Key>, a: Key, b: Key)
    requires keys <= reg.records.Keys && a in keys && b in keys && Owned(a.kind) && Owned(b.kind)
    requires ObjOf(reg, a) == ObjOf(reg, b) && |KeysOf(reg, keys, ObjOf(reg, a))| <= 1
    ensures a == b
  {
    var same := KeysOf(reg, keys, ObjOf(reg, a));
    assert {a, b} <= same;
    if a != b {
      assert |{a, b}| == 2;
      SubsetSize({a, b}, same);
    }
  }

  // ---- Tallies: counts below the instances, whatever the owners are ----------------

  ghost predicate CountsBelow(reg: Registry, keys: set<Key>, live: Obj -> nat)
    requires keys <= reg.records.Keys
  {
    forall o: Obj :: o.kind != Instance ==> live(o) == |KeysOf(reg, keys, o)|
  }

  ghost predicate Tallied(reg: Registry, keys: set<Key>, drv: Driver) {
    ClosedBelow(reg, keys) && CountsBelow(reg, keys, drv.live) && Unique(drv)
  }

  lemma TalliedIsLive(reg: Registry, keys: set<Key>, drv: Driver, key: Key)
    requires Tallied(reg, keys, drv) && key in keys && Owned(key.kind) && key.kind != Instance
    ensures drv.live(ObjOf(reg, key)) > 0
  {
    assert key in KeysOf(reg, keys, ObjOf(reg, key));
  }

  lemma OneTallied(reg: Registry, keys: set<Key>, drv: Driver, a: Key, b: Key)
    requires Tallied(reg, keys, drv)
    requires a in keys && b in keys && a.kind == b.kind && a.kind in {Device, CommandPool, CommandBuffer}
    requires ObjOf(reg, a) == ObjOf(reg, b)
    ensures a == b
  {
    OneKey(reg, keys, a, b);
  }

  /** Two records under native devices of equal handle are under one device record. */
  lemma OneDevice(reg: Registry, keys: set<Key>, drv: Driver, a: Key, b: Key)
    requires Tallied(reg, keys, drv)
    requires a in keys && b in keys && HasDeviceParent(a.kind) && HasDeviceParent(b.kind)
    requires DeviceNative(reg, a) == DeviceNative(reg, b)
    ensures reg.records[a].parent == reg.records[b].parent
  {
    assert DeviceIn(reg, keys, a) && DeviceIn(reg, keys, b);
    OneTallied(reg, keys, drv, Key(Device, reg.records[a].parent), Key(Device, reg.records[b].parent));
  }

  lemma DeviceIsLive(reg: Registry, keys: set<Key>, drv: Driver, key: Key)
    requires Tallied(reg, keys, drv) && key in keys && HasDeviceParent(key.kind)
    ensures IsLive(drv, Device, DeviceNative(reg, key))
  {
    assert DeviceIn(reg, keys, key);
    TalliedIsLive(reg, keys, drv, Key(Device, reg.records[key].parent));
  }

  // ---- Destroying one object --------------------------------------------------

  /** gone: the destroyed key, plus keys the call frees with it or that own no native object. */
  ghost predicate GoneWith(reg: Registry, keys: set<Key>, key: Key, gone: set<Key>) {
    && keys <= reg.records.Keys && key in keys && key in gone && Owned(key.kind) && key.kind != CommandBuffer
    && forall b :: b in keys && Owned(b.kind) && b != key ==>
      (b in gone <==> FreedWithPool(DestroyCall(reg, key), ObjOf(reg, b)))
  }

  lemma KeysAfterDestroy(reg: Registry, keys: set<Key>, key: Key, gone: set<Key>, o: Obj)
    requires GoneWith(reg, keys, key, gone)
    ensures KeysOf(reg, keys - gone, o)
         == if FreedWithPool(DestroyCall(reg, key), o) then {} else KeysOf(reg, keys, o) - {key}
  {
  }

  lemma CountAfterDestroy(reg: Registry, keys: set<Key>, live: nat, key: Key, gone: set<Key>, o: Obj)
    requires GoneWith(reg, keys, key, gone) && live == |KeysOf(reg, keys, o)|
    ensures |KeysOf(reg, keys - gone, o)| == Minus(live, UndoneBy(DestroyCall(reg, key), o, live))
  {
    KeysAfterDestroy(reg, keys, key, gone, o);
    KeyOfItsObject(reg, keys, key, o);
    hide GoneWith, KeysOf, ObjOf, FreedWithPool;
    OneFewer(KeysOf(reg, keys, o), key);
    UndoneByDestroy(reg, key, o, live);
  }

  lemma KeyOfItsObject(reg: Registry, keys: set<Key>, key: Key, o: Obj)
    requires keys <= reg.records.Keys && key in keys && Owned(key.kind)
    ensures key in KeysOf(reg, keys, o) <==> ObjOf(reg, key) == o
  {
  }

  lemma OneFewer<T>(s: set<T>, x: T)
    ensures |s - {x}| == if x in s then |s| - 1 else |s|
  {
    assert x !in s ==> s - {x} == s;
  }

  lemma UndoneByDestroy(reg: Registry, key: Key, o: Obj, live: nat)
    requires key in reg.records && Owned(key.kind) && key.kind != CommandBuffer
    ensures UndoneBy(DestroyCall(reg, key), o, live)
         == if FreedWithPool(DestroyCall(reg, key), o) then live else if ObjOf(reg, key) == o then 1 else 0
  {
  }

  lemma TallyAfterDestroy(reg: Registry, keys: set<Key>, drv: Driver, key: Key, gone: set<Key>)
    requires GoneWith(reg, keys, key, gone) && Tallied(reg, keys, drv) && ClosedBelow(reg, keys - gone)
    ensures Tallied(reg, keys - gone, Apply(drv, DestroyCall(reg, key)))
  {
    hide GoneWith, DeviceIn, KeysOf, ObjOf;
    ConformingKeepsUnique(drv, DestroyCall(reg, key));
    forall o: Obj | o.kind != Instance
      ensures Apply(drv, DestroyCall(reg, key)).live(o) == |KeysOf(reg, keys - gone, o)|
    {
      CountAfterDestroy(reg, keys, drv.live(o), key, gone, o);
      ApplyLive(drv, DestroyCall(reg, key), o);
    }
  }

  /** Of the objects recorded in keys, a destroying call frees those that go with its record. */
  lemma DroppedGoesWith(reg: Registry, keys: set<Key>, drv: Driver, key: Key)
    requires Tallied(reg, keys, drv) && key in keys && Creatable(key.kind)
    ensures GoneWith(reg, keys, key, Dropped(reg, key))
  {
    var call := DestroyCall(reg, key);
    forall b | b in keys && Owned(b.kind) && b != key
      ensures b in Dropped(reg, key) <==> FreedWithPool(call, ObjOf(reg, b))
    {
      assert DeviceIn(reg, keys, b);
      if FreedWithPool(call, ObjOf(reg, b)) {
        OneDevice(reg, keys, drv, b, key);
        OneTallied(reg, keys, drv, Key(CommandPool, reg.records[b].pool), key);
      }
    }
  }

  lemma DropKeepsClosedBelow(reg: Registry, keys: set<Key>, key: Key)
    requires ClosedBelow(reg, keys) && key in keys && Creatable(key.kind)
    ensures ClosedBelow(reg, keys - Dropped(reg, key))
  {
    forall b | b in keys - Dropped(reg, key) ensures DeviceIn(reg, keys - Dropped(reg, key), b) {
      assert DeviceIn(reg, keys, b);
    }
  }

  /** Destroying an object of a device: valid, and a pool takes its buffers along. */
  lemma TallyDestroyCreatable(reg: Registry, keys: set<Key>, drv: Driver, key: Key)
    requires Tallied(reg, keys, drv) && key in keys && Creatable(key.kind)
    ensures Legal(drv, DestroyCall(reg, key))
    ensures Tallied(reg, keys - Dropped(reg, key), Apply(drv, DestroyCall(reg, key)))
  {
    TalliedIsLive(reg, keys, drv, key);
    DeviceIsLive(reg, keys, drv, key);
    hide Tallied, GoneWith, Dropped, Apply;
    DroppedGoesWith(reg, keys, drv, key);
    assert ClosedBelow(reg, keys - Dropped(reg, key)) by {
      TalliedIsClosedBelow(reg, keys, drv);
      DropKeepsClosedBelow(reg, keys, key);
    }
    TallyAfterDestroy(reg, keys, drv, key, Dropped(reg, key));
  }

  lemma TalliedIsClosedBelow(reg: Registry, keys: set<Key>, drv: Driver)
    requires Tallied(reg, keys, drv)
    ensures ClosedBelow(reg, keys)
  {
  }

  ghost predicate Childless(reg: Registry, keys: set<Key>, device: Handle)
    requires keys <= reg.records.Keys
  {
    forall key :: key in keys && DeviceScoped(key.kind) ==> reg.records[key].parent != device
  }

  /** A device and the queues it handed out. */
  function DeviceAndQueues(reg: Registry, device: Handle): set<Key> {
    {Key(Device, device)} + set key | key in reg.records && key.kind == Queue && reg.records[key].parent == device
  }

  lemma ChildlessHasNothingUnder(reg: Registry, keys: set<Key>, drv: Driver, key: Key)
    requires Tallied(reg, keys, drv)
    requires key in keys && key.kind == Device && Childless(reg, keys, key.handle)
    ensures NothingUnder(drv, reg.records[key].native)
  {
    forall o: Obj | DeviceScoped(o.kind) && o.device == reg.records[key].native ensures drv.live(o) == 0 {
      if b :| b in KeysOf(reg, keys, o) {
        assert DeviceIn(reg, keys, b);
        OneTallied(reg, keys, drv, Key(Device, reg.records[b].parent), key);
        assert false;
      }
      assert KeysOf(reg, keys, o) == {};
    }
  }

  lemma DeviceGoesWithQueues(reg: Registry, keys: set<Key>, drv: Driver, key: Key)
    requires Tallied(reg, keys, drv) && key in keys && key.kind == Device && Childless(reg, keys, key.handle)
    ensures GoneWith(reg, keys, key, DeviceAndQueues(reg, key.handle))
    ensures ClosedBelow(reg, keys - DeviceAndQueues(reg, key.handle))
  {
    var left := keys - DeviceAndQueues(reg, key.handle);
    forall b | b in left ensures DeviceIn(reg, left, b) {
      assert DeviceIn(reg, keys, b);
    }
  }

  /** Destroying a device with nothing left under it: valid, and its queues go with it. */
  lemma TallyDestroyDevice(reg: Registry, keys: set<Key>, drv: Driver, key: Key)
    requires Tallied(reg, keys, drv) && key in keys && key.kind == Device && Childless(reg, keys, key.handle)
    ensures Legal(drv, DestroyCall(reg, key))
    ensures Tallied(reg, keys - DeviceAndQueues(reg, key.handle), Apply(drv, DestroyCall(reg, key)))
  {
    TalliedIsLive(reg, keys, drv, key);
    ChildlessHasNothingUnder(reg, keys, drv, key);
    hide Tallied, NothingUnder, GoneWith, ClosedBelow, Apply, DeviceAndQueues;
    DeviceGoesWithQueues(reg, keys, drv, key);
    TallyAfterDestroy(reg, keys, drv, key, DeviceAndQueues(reg, key.handle));
  }

  // ---- Moving between registries -------------------------------------------------

  /** Records both registries have are equal. */
  ghost predicate Agree(a: Registry, b: Registry) {
    forall key :: key in a.records && key in b.records ==> a.records[key] == b.records[key]
  }

  lemma SameObjects(a: Registry, b: Registry, keys: set<Key>)
    requires Agree(a, b) && ClosedBelow(a, keys) && keys <= b.records.Keys
    ensures ClosedBelow(b, keys)
    ensures forall key :: key in keys ==> (Owned(key.kind) ==> ObjOf(a, key) == ObjOf(b, key))
  {
    forall key | key in keys
      ensures DeviceIn(b, keys, key)
      ensures Owned(key.kind) ==> ObjOf(a, key) == ObjOf(b, key)
    {
      assert DeviceIn(a, keys, key);
    }
  }

  lemma SameKeys(a: Registry, b: Registry, keys: set<Key>, o: Obj)
    requires Agree(a, b) && ClosedBelow(a, keys) && keys <= b.records.Keys
    ensures KeysOf(a, keys, o) == KeysOf(b, keys, o)
  {
    SameObjects(a, b, keys);
  }

  lemma TallyMoves(a: Registry, b: Registry, keys: set<Key>, drv: Driver)
    requires Agree(a, b) && Tallied(a, keys, drv) && keys <= b.records.Keys
    ensures Tallied(b, keys, drv)
  {
    hide KeysOf, ObjOf;
    SameObjects(a, b, keys);
    forall o: Obj | o.kind != Instance ensures drv.live(o) == |KeysOf(b, keys, o)| {
      SameKeys(a, b, keys, o);
    }
  }
}
