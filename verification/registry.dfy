/** The twelve tables as one value, and what each operation does to them. */
module Registries {
  import opened Results
  import opened Sequences
  import opened HandleTables

  type Native = nat

  datatype Kind =
    | Instance | PhysicalDevice | Device | Queue
    | CommandPool | CommandBuffer | ShaderModule | Semaphore | Fence | Buffer | Image | Memory

  const KINDS := {Instance, PhysicalDevice, Device, Queue, CommandPool, CommandBuffer,
                  ShaderModule, Semaphore, Fence, Buffer, Image, Memory}

  lemma KindIsListed(k: Kind)
    ensures k in KINDS
  {
    match k
    case Instance => case PhysicalDevice => case Device => case Queue => case CommandPool => case CommandBuffer =>
    case ShaderModule => case Semaphore => case Fence => case Buffer => case Image => case Memory =>
  }

  /** Objects a device creates and destroys one at a time. */
  predicate Creatable(k: Kind) {
    k.CommandPool? || k.ShaderModule? || k.Semaphore? || k.Fence? || k.Buffer? || k.Image? || k.Memory?
  }

  /** Objects the driver scopes to one device. */
  predicate DeviceScoped(k: Kind) {
    Creatable(k) || k == CommandBuffer
  }

  predicate HasDeviceParent(k: Kind) {
    DeviceScoped(k) || k == Queue
  }

  /** Objects the driver creates, as opposed to those it only hands out. */
  predicate Owned(k: Kind) {
    DeviceScoped(k) || k == Instance || k == Device
  }

  function ParentKind(k: Kind): Kind {
    match k
    case PhysicalDevice => Instance
    case Device => PhysicalDevice
    case _ => Device
  }

  datatype Key = Key(kind: Kind, handle: Handle)

  /**
   * One record of any table. parent is the handle in the parent kind's table
   * (0 for instances), pool the command pool of a command buffer (0 otherwise);
   * word0 and word1 hold queue family and index, level, or size and type index.
   */
  datatype Record = Record(native: Native, parent: Handle, pool: Handle, word0: nat, word1: nat)

  datatype Registry = Registry(next: map<Kind, Handle>, records: map<Key, Record>)

  const EMPTY := Registry(map k: Kind :: 1, map[])

  /** Every counter starts at one. */
  function Counter(next: map<Kind, Handle>, k: Kind): Handle {
    if k in next then next[k] else 1
  }

  function Next(reg: Registry, k: Kind): Handle {
    Counter(reg.next, k)
  }

  function Insert(reg: Registry, k: Kind, record: Record): Registry {
    var key := Key(k, Next(reg, k));
    Registry(reg.next[k := Bump(Next(reg, k))],
             if key in reg.records then reg.records else reg.records[key := record])
  }

  function InsertAll(reg: Registry, k: Kind, records: seq<Record>): Registry {
    if records == [] then reg
    else Insert(InsertAll(reg, k, records[..|records| - 1]), k, records[|records| - 1])
  }

  /** The handles InsertAll mints: consecutive, until the counter wraps. */
  function Minted(first: Handle, n: nat): (hs: seq<Handle>)
    ensures |hs| == n
    ensures first + n <= U64 ==> NoDup(hs) && forall i :: 0 <= i < n ==> hs[i] == first + i
  {
    seq(n, i requires 0 <= i => (first + i) % U64)
  }

  function Without(reg: Registry, keys: set<Key>): Registry {
    reg.(records := reg.records - keys)
  }

  function KeysOfKind(k: Kind, handles: seq<Handle>): (keys: set<Key>)
    ensures forall key :: key in keys <==> key.kind == k && key.handle in handles
  {
    set h | h in handles :: Key(k, h)
  }

  /** What goes with the devices ds: they, and every record whose parent is one of them. */
  predicate DoomedBy(reg: Registry, ds: set<Handle>, key: Key)
    requires key in reg.records
  {
    if HasDeviceParent(key.kind) then reg.records[key].parent in ds
    else key.kind == Device && key.handle in ds
  }

  function Doomed(reg: Registry, ds: set<Handle>): set<Key> {
    set key | key in reg.records && DoomedBy(reg, ds, key)
  }

  function RemoveDevices(reg: Registry, ds: set<Handle>): Registry {
    Without(reg, Doomed(reg, ds))
  }

  function PhysicalDevicesOf(reg: Registry, instance: Handle): set<Handle> {
    set key | key in reg.records && key.kind == PhysicalDevice && reg.records[key].parent == instance :: key.handle
  }

  function DevicesOf(reg: Registry, instance: Handle): set<Handle> {
    set key | key in reg.records && key.kind == Device
              && reg.records[key].parent in PhysicalDevicesOf(reg, instance) :: key.handle
  }

  function InstanceKeys(reg: Registry, instance: Handle): set<Key> {
    {Key(Instance, instance)} + set h | h in PhysicalDevicesOf(reg, instance) :: Key(PhysicalDevice, h)
  }

  function RemoveInstance(reg: Registry, instance: Handle): Registry {
    Without(RemoveDevices(reg, DevicesOf(reg, instance)), InstanceKeys(reg, instance))
  }

  function BuffersOfPool(reg: Registry, pool: Handle): set<Key> {
    set key | key in reg.records && key.kind == CommandBuffer && reg.records[key].pool == pool
  }

  /** What goes with one destroyed object: the object, and a pool's command buffers. */
  function Dropped(reg: Registry, key: Key): set<Key> {
    {key} + if key.kind == CommandPool then BuffersOfPool(reg, key.handle) else {}
  }

  /** The record found for a handle whose recorded parent is the named device. */
  predicate BelongsTo(reg: Registry, key: Key, device: Handle) {
    key in reg.records && reg.records[key].parent == device
  }

  // ---- Invariants of the tables -------------------------------------------

  /** Every parent edge except physical device -> instance. */
  ghost predicate ForestBelow(reg: Registry) {
    forall key {:trigger EdgeHolds(reg, key)} :: key in reg.records ==> EdgeHolds(reg, key)
  }

  ghost predicate EdgeHolds(reg: Registry, key: Key)
    requires key in reg.records
  {
    var r := reg.records[key];
    match key.kind
    case Instance => true
    case PhysicalDevice => true
    case CommandBuffer =>
      && Key(Device, r.parent) in reg.records
      && BelongsTo(reg, Key(CommandPool, r.pool), r.parent)
    case k => Key(ParentKind(k), r.parent) in reg.records
  }

  ghost predicate TopEdges(reg: Registry) {
    forall key :: key in reg.records && key.kind == PhysicalDevice ==>
      Key(Instance, reg.records[key].parent) in reg.records
  }

  /** A physical device's instance resolves, or was minted and is gone. */
  ghost predicate TopEdgesMinted(reg: Registry) {
    forall key :: key in reg.records && key.kind == PhysicalDevice ==>
      1 <= reg.records[key].parent < Next(reg, Instance)
  }

  ghost predicate Forest(reg: Registry) {
    ForestBelow(reg) && TopEdges(reg)
  }

  /** Handles in use were minted earlier, and none is the null handle. */
  ghost predicate Counted(reg: Registry) {
    && (forall k :: Counter(reg.next, k) >= 1)
    && forall key :: key in reg.records ==> 1 <= key.handle < Next(reg, key.kind)
  }

  /** later comes after earlier: no key that was passed by comes back, and no record changes. */
  ghost predicate Evolves(earlier: Registry, later: Registry) {
    && (forall k :: Counter(earlier.next, k) <= Counter(later.next, k))
    && (forall key :: key in later.records && key.handle < Next(earlier, key.kind) ==>
          key in earlier.records && earlier.records[key] == later.records[key])
  }

  lemma EvolvesTransitive(a: Registry, b: Registry, c: Registry)
    requires Evolves(a, b) && Evolves(b, c)
    ensures Evolves(a, c)
  {
  }

  // ---- Insertion -----------------------------------------------------------

  lemma NextIsFree(reg: Registry, k: Kind)
    requires Counted(reg)
    ensures Key(k, Next(reg, k)) !in reg.records
  {
  }

  /** One record under the next handle, and one more step of the counter. */
  lemma AddedCounts(reg: Registry, k: Kind, record: Record, after: Registry)
    requires Counted(reg)
    requires after == Registry(reg.next[k := Next(reg, k) + 1], reg.records[Key(k, Next(reg, k)) := record])
    ensures forall j :: Counter(after.next, j) == Counter(reg.next, j) + if j == k then 1 else 0
    ensures Counted(after) && Evolves(reg, after)
  {
    forall j ensures Counter(after.next, j) == Counter(reg.next, j) + if j == k then 1 else 0 {
    }
  }

  /** Below the wrap, an insertion adds exactly one record under a fresh handle. */
  lemma InsertAdds(reg: Registry, k: Kind, record: Record)
    requires Counted(reg) && Next(reg, k) + 1 < U64
    ensures Key(k, Next(reg, k)) !in reg.records
    ensures Insert(reg, k, record).records == reg.records[Key(k, Next(reg, k)) := record]
    ensures forall j :: Counter(Insert(reg, k, record).next, j) == Counter(reg.next, j) + if j == k then 1 else 0
    ensures Counted(Insert(reg, k, record)) && Evolves(reg, Insert(reg, k, record))
  {
    hide Counted, Evolves, Counter;
    NextIsFree(reg, k);
    AddedCounts(reg, k, record, Insert(reg, k, record));
  }

  /** Past the wrap the counter revisits handles: the new record is kept iff the handle is free. */
  lemma InsertResolvesIffFree(reg: Registry, k: Kind, record: Record)
    requires Key(k, Next(reg, k)) in reg.records ==> reg.records[Key(k, Next(reg, k))] != record
    ensures var key := Key(k, Next(reg, k));
            var after := Insert(reg, k, record);
            key in after.records && (after.records[key] == record <==> key !in reg.records)
  {
  }

  /**
   * Undoing an insertion restores the records iff the minted handle was free; a wrapped one takes an older
   * record with it.
   */
  lemma UndoRestoresIffFree(reg: Registry, k: Kind, record: Record)
    ensures var key := Key(k, Next(reg, k));
      Without(Insert(reg, k, record), {key}).records == reg.records <==> key !in reg.records
  {
    var key := Key(k, Next(reg, k));
    if key !in reg.records {
      assert Without(Insert(reg, k, record), {key}).records == reg.records;
    }
  }

  lemma BumpWraps(m: nat)
    ensures Bump(m % U64) == (m + 1) % U64
  {
    var q, r := m / U64, m % U64;
    assert m + 1 == q * U64 + (r + 1);
    if r + 1 == U64 {
      assert m + 1 == (q + 1) * U64;
    }
  }

  /** The i-th insertion of a batch gets the i-th minted handle, wrapped or not. */
  lemma {:induction false} BatchMints(reg: Registry, k: Kind, records: seq<Record>)
    requires Next(reg, k) < U64
    ensures Next(InsertAll(reg, k, records), k) == (Next(reg, k) + |records|) % U64
  {
    if records != [] {
      BatchMints(reg, k, records[..|records| - 1]);
      BumpWraps(Next(reg, k) + |records| - 1);
    }
  }

  ghost predicate ParentsPresent(reg: Registry, k: Kind, record: Record) {
    match k
    case Instance => true
    case PhysicalDevice => true
    case CommandBuffer =>
      Key(Device, record.parent) in reg.records && BelongsTo(reg, Key(CommandPool, record.pool), record.parent)
    case k => Key(ParentKind(k), record.parent) in reg.records
  }

  lemma InsertKeepsForest(reg: Registry, k: Kind, record: Record)
    requires ForestBelow(reg) && Counted(reg) && Next(reg, k) + 1 < U64
    requires ParentsPresent(reg, k, record)
    ensures ForestBelow(Insert(reg, k, record))
    ensures TopEdges(reg) && (k == PhysicalDevice ==> Key(Instance, record.parent) in reg.records) ==>
            TopEdges(Insert(reg, k, record))
  {
    InsertAdds(reg, k, record);
    var after := Insert(reg, k, record);
    forall key | key in after.records ensures EdgeHolds(after, key) {
      if key in reg.records {
        assert EdgeHolds(reg, key);
      }
    }
  }

  /** key is one of the next n keys of k. */
  predicate IsNew(reg: Registry, k: Kind, n: nat, key: Key) {
    key.kind == k && Next(reg, k) <= key.handle < Next(reg, k) + n
  }

  /** after is reg with records added under k's next handles, in order, and nothing else. */
  ghost predicate Appended(reg: Registry, k: Kind, records: seq<Record>, after: Registry) {
    && (forall j :: Counter(after.next, j) == Counter(reg.next, j) + if j == k then |records| else 0)
    && (forall key :: key in after.records <==> key in reg.records || IsNew(reg, k, |records|, key))
    && (forall key :: key in reg.records && key in after.records ==> after.records[key] == reg.records[key])
    && (forall h | Next(reg, k) <= h < Next(reg, k) + |records| ::
          Key(k, h) in after.records && after.records[Key(k, h)] == records[h - Next(reg, k)])
  }

  lemma {:induction false} InsertAllAppends(reg: Registry, k: Kind, records: seq<Record>)
    requires Counted(reg) && Next(reg, k) + |records| < U64
    ensures Counted(InsertAll(reg, k, records))
    ensures Appended(reg, k, records, InsertAll(reg, k, records))
  {
    if records == [] {
    } else {
      var n := |records| - 1;
      InsertAllAppends(reg, k, records[..n]);
      InsertAdds(InsertAll(reg, k, records[..n]), k, records[n]);
      AppendOne(reg, k, records, InsertAll(reg, k, records[..n]));
    }
  }

  lemma AppendOne(reg: Registry, k: Kind, records: seq<Record>, middle: Registry)
    requires records != [] && Counted(reg) && Counted(middle) && Next(reg, k) + |records| < U64
    requires Appended(reg, k, records[..|records| - 1], middle)
    ensures Appended(reg, k, records, Insert(middle, k, records[|records| - 1]))
  {
    var n := |records| - 1;
    InsertAdds(middle, k, records[n]);
    AppendedGrows(reg, k, records, middle, Insert(middle, k, records[n]));
  }

  lemma AppendedGrows(reg: Registry, k: Kind, records: seq<Record>, middle: Registry, after: Registry)
    requires records != [] && Counted(reg)
    requires Appended(reg, k, records[..|records| - 1], middle)
    requires after.records == middle.records[Key(k, Next(reg, k) + |records| - 1) := records[|records| - 1]]
    requires forall j :: Counter(after.next, j) == Counter(middle.next, j) + if j == k then 1 else 0
    ensures Appended(reg, k, records, after)
  {
    var n := |records| - 1;
    forall key ensures key in after.records <==> key in reg.records || IsNew(reg, k, n + 1, key) {
      assert IsNew(reg, k, n + 1, key) <==> IsNew(reg, k, n, key) || key == Key(k, Next(reg, k) + n);
    }
    forall h | Next(reg, k) <= h < Next(reg, k) + n + 1
      ensures Key(k, h) in after.records && after.records[Key(k, h)] == records[h - Next(reg, k)]
    {
      assert h < Next(reg, k) + n ==> middle.records[Key(k, h)] == records[..n][h - Next(reg, k)];
    }
  }

  lemma AppendedNew(reg: Registry, k: Kind, records: seq<Record>, after: Registry, key: Key)
    requires Appended(reg, k, records, after) && key in after.records && key !in reg.records
    ensures IsNew(reg, k, |records|, key) && after.records[key] == records[key.handle - Next(reg, k)]
  {
    assert key == Key(k, key.handle);
  }

  /** A batch keeps old records and cannot revive a passed-by handle. */
  lemma AppendedEvolves(reg: Registry, k: Kind, records: seq<Record>, after: Registry)
    requires Appended(reg, k, records, after)
    ensures Evolves(reg, after)
  {
    forall key | key in after.records && key.handle < Next(reg, key.kind)
      ensures key in reg.records && reg.records[key] == after.records[key]
    {
      assert !IsNew(reg, k, |records|, key);
    }
  }

  lemma {:induction false} InsertAllKeepsForest(reg: Registry, k: Kind, records: seq<Record>)
    requires ForestBelow(reg) && Counted(reg) && Next(reg, k) + |records| < U64
    requires forall r :: r in records ==> ParentsPresent(reg, k, r)
    ensures ForestBelow(InsertAll(reg, k, records))
    ensures TopEdges(reg) ==>
            (k == PhysicalDevice ==> forall r :: r in records ==> Key(Instance, r.parent) in reg.records) ==>
            TopEdges(InsertAll(reg, k, records))
  {
    if records != [] {
      var init := records[..|records| - 1];
      InsertAllAppends(reg, k, init);
      InsertAllKeepsForest(reg, k, init);
      assert ParentsPresent(reg, k, records[|records| - 1]);
      InsertKeepsForest(InsertAll(reg, k, init), k, records[|records| - 1]);
    }
  }

  lemma InsertIsBatch(reg: Registry, k: Kind, record: Record)
    ensures InsertAll(reg, k, [record]) == Insert(reg, k, record)
  {
    assert [record][..0] == [];
    assert InsertAll(reg, k, [record][..0]) == reg;
  }

  lemma MintedAreNew(reg: Registry, k: Kind, n: nat, key: Key)
    requires Next(reg, k) + n <= U64
    ensures key in KeysOfKind(k, Minted(Next(reg, k), n)) <==> IsNew(reg, k, n, key)
  {
    if IsNew(reg, k, n, key) {
      assert Minted(Next(reg, k), n)[key.handle - Next(reg, k)] == key.handle;
    }
  }

  /** Erasing what a batch just added restores the records; only the counter has moved. */
  lemma RollbackRestores(reg: Registry, k: Kind, records: seq<Record>)
    requires Counted(reg) && Next(reg, k) + |records| < U64
    ensures var after := Without(InsertAll(reg, k, records), KeysOfKind(k, Minted(Next(reg, k), |records|)));
      && after.records == reg.records
      && forall j :: Counter(after.next, j) == Counter(reg.next, j) + if j == k then |records| else 0
  {
    InsertAllAppends(reg, k, records);
    UnappendRestores(reg, k, records, InsertAll(reg, k, records));
  }

  lemma UnappendRestores(reg: Registry, k: Kind, records: seq<Record>, added: Registry)
    requires Counted(reg) && Appended(reg, k, records, added) && Next(reg, k) + |records| <= U64
    ensures Without(added, KeysOfKind(k, Minted(Next(reg, k), |records|))).records == reg.records
  {
    hide Minted;
    var after := Without(added, KeysOfKind(k, Minted(Next(reg, k), |records|)));
    forall key ensures key in after.records <==> key in reg.records {
      MintedAreNew(reg, k, |records|, key);
    }
    assert after.records.Keys == reg.records.Keys;
  }

  // ---- Removal -------------------------------------------------------------

  /** keys may go if no surviving record has its parent or its pool among them. */
  ghost predicate Removable(reg: Registry, keys: set<Key>) {
    forall key :: key in reg.records && key !in keys ==>
      && (key.kind != Instance ==> Key(ParentKind(key.kind), reg.records[key].parent) !in keys)
      && (key.kind == CommandBuffer ==> Key(CommandPool, reg.records[key].pool) !in keys)
  }

  lemma WithoutKeeps(reg: Registry, keys: set<Key>)
    requires Counted(reg)
    ensures Counted(Without(reg, keys)) && Evolves(reg, Without(reg, keys))
    ensures ForestBelow(reg) && Removable(reg, keys) ==> ForestBelow(Without(reg, keys))
    ensures Forest(reg) && Removable(reg, keys) ==> Forest(Without(reg, keys))
  {
    if ForestBelow(reg) && Removable(reg, keys) {
      forall key | key in Without(reg, keys).records ensures EdgeHolds(Without(reg, keys), key) {
        assert EdgeHolds(reg, key);
      }
    }
  }
}
