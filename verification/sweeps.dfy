/**
 * The cascades that tear devices down: the order of their native calls, whatever order each
 * table is visited in, and what of the tables is left after each.
 */
module Sweeps {
  import opened Sequences
  import opened HandleTables
  import opened Registries
  import opened NativeDriver
  import opened Linking
  import opened Batches

  /** The tables in the order a cascade visits them. */
  function Rank(k: Kind): nat {
    match k
    case Buffer => 0
    case Image => 1
    case Semaphore => 2
    case Fence => 3
    case CommandPool => 4
    case ShaderModule => 5
    case Memory => 6
    case Device => 7
    case _ => 8
  }

  /** What a cascade over the devices ds destroys by a call of its own. */
  predicate InSweep(reg: Registry, ds: set<Handle>, key: Key) {
    && key in reg.records
    && ((Creatable(key.kind) && reg.records[key].parent in ds) || (key.kind == Device && key.handle in ds))
  }

  ghost predicate Sorted(sweep: seq<Key>) {
    forall i, j :: 0 <= i < j < |sweep| ==> Rank(sweep[i].kind) <= Rank(sweep[j].kind)
  }

  /** Everything to destroy, once, table by table; any order inside one table. */
  ghost predicate SweepOf(reg: Registry, ds: set<Handle>, sweep: seq<Key>) {
    && NoDup(sweep) && Sorted(sweep)
    && forall key :: key in sweep <==> InSweep(reg, ds, key)
  }

  function Destroys(reg: Registry): Key -> Call {
    key => DestroyCall(reg, key)
  }

  function SweepCalls(reg: Registry, sweep: seq<Key>): seq<Call> {
    MapSeq(Destroys(reg), sweep)
  }

  /** Keys that no longer name anything after the calls for done. */
  function GoneAfter(reg: Registry, done: seq<Key>): set<Key> {
    set key | key in reg.records &&
      (key in done
       || (key.kind == CommandBuffer && Key(CommandPool, reg.records[key].pool) in done)
       || (key.kind == Queue && Key(Device, reg.records[key].parent) in done))
  }

  function Left(reg: Registry, done: seq<Key>): set<Key> {
    reg.records.Keys - GoneAfter(reg, done)
  }

  lemma EarlierRank(reg: Registry, ds: set<Handle>, sweep: seq<Key>, i: nat, key: Key)
    requires SweepOf(reg, ds, sweep) && i < |sweep|
    requires InSweep(reg, ds, key) && Rank(key.kind) < Rank(sweep[i].kind)
    ensures key in sweep[..i]
  {
    assert key in sweep;
    var j :| 0 <= j < |sweep| && sweep[j] == key;
    assert j < i;
  }

  /** When its turn comes, nothing created under a device is left. */
  lemma DeviceComesLast(reg: Registry, ds: set<Handle>, sweep: seq<Key>, i: nat)
    requires ForestBelow(reg) && SweepOf(reg, ds, sweep) && i < |sweep| && sweep[i].kind == Device
    ensures Childless(reg, Left(reg, sweep[..i]), sweep[i].handle)
  {
    assert sweep[i] in sweep;
    forall key | key in reg.records && DeviceScoped(key.kind) && reg.records[key].parent == sweep[i].handle
      ensures key in GoneAfter(reg, sweep[..i])
    {
      assert EdgeHolds(reg, key);
      EarlierRank(reg, ds, sweep, i,
                  if key.kind == CommandBuffer then Key(CommandPool, reg.records[key].pool) else key);
    }
  }

  lemma LeftAfterDevice(reg: Registry, done: seq<Key>, key: Key)
    requires key.kind == Device
    ensures Left(reg, done + [key]) == Left(reg, done) - DeviceAndQueues(reg, key.handle)
  {
  }

  lemma LeftAfterCreatable(reg: Registry, done: seq<Key>, key: Key)
    requires Creatable(key.kind)
    ensures Left(reg, done + [key]) == Left(reg, done) - Dropped(reg, key)
  {
  }

  lemma SweepCallsSnoc(reg: Registry, sweep: seq<Key>, i: nat, trace: seq<Call>)
    requires i < |sweep|
    ensures trace + SweepCalls(reg, sweep[..i + 1]) ==
      trace + SweepCalls(reg, sweep[..i]) + [DestroyCall(reg, sweep[i])]
  {
    assert sweep[..i + 1] == sweep[..i] + [sweep[i]];
    MapConcat(Destroys(reg), sweep[..i], [sweep[i]]);
  }

  /** What a whole cascade leaves is what the tables keep: erasing buffers by device or by pool is the same. */
  lemma SweepLeavesRest(reg: Registry, ds: set<Handle>, sweep: seq<Key>)
    requires ForestBelow(reg) && SweepOf(reg, ds, sweep)
    ensures GoneAfter(reg, sweep) == Doomed(reg, ds)
    ensures Left(reg, sweep) == All(RemoveDevices(reg, ds))
  {
    forall key | key in reg.records ensures key in GoneAfter(reg, sweep) <==> key in Doomed(reg, ds) {
      assert EdgeHolds(reg, key);
      assert key in sweep <==> InSweep(reg, ds, key);
    }
  }

  lemma DoomedRemovable(reg: Registry, ds: set<Handle>)
    requires ForestBelow(reg)
    ensures Removable(reg, Doomed(reg, ds))
  {
    forall key | key in reg.records ensures EdgeHolds(reg, key) {}
  }
}
