/**
 * The plugin context and its entry points, as methods that update the tables, call the
 * driver and write guest memory in place. Each is proved against its step of Lifecycle.
 */
module PluginContexts {
  import opened Results
  import opened Sequences
  import opened HandleTables
  import opened Registries
  import opened NativeDriver
  import opened Linking
  import opened Batches
  import opened Sweeps
  import opened Lifecycle
  import opened Delivery
  import opened GuestBlocks
  import opened HandleArrays
  import opened CascadeSteps
  import ChildInfos
  import CreateInfos
  import Interleaving
  import Enumeration

  /** A table holds what the registry has of its kind. */
  ghost predicate Shows(reg: Registry, k: Kind, next: Handle, records: map<Handle, Record>) {
    && k in reg.next && reg.next[k] == next
    && (forall h: Handle :: Key(k, h) in reg.records <==> h in records)
    && (forall h: Handle :: h in records && Key(k, h) in reg.records ==> reg.records[Key(k, h)] == records[h])
  }

  lemma InsertShown(reg: Registry, k: Kind, record: Record, j: Kind, next: Handle, records: map<Handle, Record>)
    requires Shows(reg, j, next, records)
    ensures j != k ==> Shows(Insert(reg, k, record), j, next, records)
    ensures j == k ==> Shows(Insert(reg, k, record), j, Bump(next), Emplaced(records, next, record))
  {
  }

  lemma WithoutShown(reg: Registry, gone: set<Key>, j: Kind, next: Handle, records: map<Handle, Record>,
          left: map<Handle, Record>)
    requires Shows(reg, j, next, records)
    requires forall h: Handle :: h in left <==> h in records && Key(j, h) !in gone
    requires forall h: Handle :: h in left ==> h in records && left[h] == records[h]
    ensures Shows(Without(reg, gone), j, next, left)
  {
  }

  const ALLOCATE_INFO_SIZE: nat := 24
  const BEGIN_INFO_SIZE: nat := 16

  /** Bit 1 of the usage flags. */
  predicate ContinuesRenderPass(flags: nat) {
    flags / 2 % 2 == 1
  }

  /** Of the flags it is the second bit that tells. */
  lemma ContinueIsTheSecondBit(flags: nat, higher: nat, second: nat, first: nat)
    requires flags == 4 * higher + 2 * second + first && second < 2 && first < 2
    ensures ContinuesRenderPass(flags) <==> second == 1
  {
    assert flags / 2 == 2 * higher + second;
  }

  /** Guest memory receives the bytes if the call succeeds, and is untouched otherwise. */
  ghost predicate Handed(before: seq<Byte>, after: seq<Byte>, result: int, address: nat, bytes: seq<Byte>) {
    Some(after) == if result == SUCCESS then PlainWrite(before, address, bytes) else Some(before)
  }

  /** The first i records are in, under the first i minted handles. */
  ghost predicate Batched(was: Registry, k: Kind, records: seq<Record>, i: nat, now: Registry, handles: seq<Handle>) {
    && i <= |records| && Next(was, k) < U64
    && now == InsertAll(was, k, records[..i]) && handles == Minted(Next(was, k), i)
  }

  lemma BatchGrows(was: Registry, k: Kind, records: seq<Record>, i: nat, now: Registry, handles: seq<Handle>)
    requires i < |records| && Batched(was, k, records, i, now, handles)
    ensures Batched(was, k, records, i + 1, Insert(now, k, records[i]), handles + [Next(now, k)])
  {
    assert records[..i + 1][..i] == records[..i];
    BatchMints(was, k, records[..i]);
  }

  function FenceKeys(handles: seq<Handle>): (keys: seq<Key>)
    ensures |keys| == |handles|
  {
    seq(|handles|, i requires 0 <= i < |handles| => Key(Fence, handles[i]))
  }

  /** The keys of a fence list name what its handles name. */
  lemma FencesFound(reg: Registry, device: Handle, fences: seq<Handle>)
    ensures (forall key :: key in FenceKeys(fences) ==> BelongsTo(reg, key, device)) <==>
            (forall h :: h in fences ==> BelongsTo(reg, Key(Fence, h), device))
    ensures Interleaving.FenceRefs(Interleaving.FenceNatives(reg, fences)) == RefsOf(reg, FenceKeys(fences))
  {
    forall j | 0 <= j < |fences| ensures FenceKeys(fences)[j] == Key(Fence, fences[j]) && fences[j] in fences {
    }
    forall h | h in fences ensures Key(Fence, h) in FenceKeys(fences) {
      var j :| 0 <= j < |fences| && fences[j] == h;
      assert FenceKeys(fences)[j] == Key(Fence, h);
    }
  }

  lemma PhysicalsCollected(reg: Registry, instance: Handle, order: seq<Handle>, physicals: set<Handle>)
    requires forall h: Handle :: h in order <==> Key(PhysicalDevice, h) in reg.records
    requires forall h: Handle ::
      h in physicals <==> h in order && reg.records[Key(PhysicalDevice, h)].parent == instance
    ensures physicals == PhysicalDevicesOf(reg, instance)
  {
    forall h: Handle ensures h in physicals <==> h in PhysicalDevicesOf(reg, instance) {
      if h in physicals {
        assert Key(PhysicalDevice, h).handle in PhysicalDevicesOf(reg, instance);
      }
    }
  }

  lemma DevicesCollected(reg: Registry, instance: Handle, order: seq<Handle>, devices: set<Handle>)
    requires forall h: Handle :: h in order <==> Key(Device, h) in reg.records
    requires forall h: Handle :: h in devices <==>
               h in order && reg.records[Key(Device, h)].parent in PhysicalDevicesOf(reg, instance)
    ensures devices == DevicesOf(reg, instance)
  {
    forall h: Handle ensures h in devices <==> h in DevicesOf(reg, instance) {
      if h in devices {
        assert Key(Device, h).handle in DevicesOf(reg, instance);
      }
    }
  }

  lemma WithoutOthersShown(reg: Registry, gone: set<Key>, k: Kind, j: Kind, next: Handle, records: map<Handle, Record>)
    requires Shows(reg, j, next, records) && forall key :: key in gone ==> key.kind == k
    ensures j != k ==> Shows(Without(reg, gone), j, next, records)
  {
  }

  lemma DoomedOthersShown(reg: Registry, k: Kind, doomed: Record -> bool, j: Kind, next: Handle,
          records: map<Handle, Record>)
    requires Shows(reg, j, next, records)
    ensures j != k ==> Shows(Without(reg, DoomedKeys(reg, k, doomed)), j, next, records)
  {
    WithoutOthersShown(reg, DoomedKeys(reg, k, doomed), k, j, next, records);
  }

  lemma DoomedShown(reg: Registry, k: Kind, doomed: Record -> bool, next: Handle, records: map<Handle, Record>)
    requires Shows(reg, k, next, records)
    ensures Shows(Without(reg, DoomedKeys(reg, k, doomed)), k, next,
                  map h | h in records && !doomed(records[h]) :: records[h])
  {
    var left := map h | h in records && !doomed(records[h]) :: records[h];
    forall h: Handle ensures h in left <==> h in records && Key(k, h) !in DoomedKeys(reg, k, doomed) {
    }
    WithoutShown(reg, DoomedKeys(reg, k, doomed), k, next, records, left);
  }

  /** Twelve tables, each empty and its own. */
  method EmptyTables() returns (tables: map<Kind, HandleTable<Record>>)
    ensures forall k :: k in tables && tables[k].next == 1 && tables[k].records == map[]
    ensures forall j, k :: j != k ==> tables[j] != tables[k]
    ensures fresh(tables.Values)
  {
    tables := map[];
    var todo := KINDS;
    forall k: Kind ensures k in todo { KindIsListed(k); }
    while todo != {}
      invariant forall k :: k in tables || k in todo
      invariant forall k :: k in tables ==> fresh(tables[k]) && tables[k].next == 1 && tables[k].records == map[]
      invariant forall j, k :: j in tables && k in tables && j != k ==> tables[j] != tables[k]
      decreases todo
    {
      var k :| k in todo;
      var table := new HandleTable<Record>();
      tables := tables[k := table];
      todo := todo - {k};
    }
  }

  /** What the result of handing a list over says of it. */
  function HandingOf(result: int): Handing {
    if result == SUCCESS then HandedWhole else if result == INCOMPLETE then HandedPart else HandedNothing
  }

  class PluginContext {
    const tables: map<Kind, HandleTable<Record>>
    ghost const all: set<HandleTable<Record>>
    const guest: array<Byte>
    var trace: seq<Call>
    ghost var reg: Registry    // the twelve tables as one value

    /** Each kind has its own table, which holds what the registry has of that kind. */
    ghost predicate Valid()
      reads this`reg, all
    {
      && (forall k :: k in tables && tables[k] in all)
      && (forall j, k :: j != k ==> tables[j] != tables[k])
      && forall k :: Shows(reg, k, tables[k].next, tables[k].records)
    }

    ghost function Now(): World
      reads this
    {
      World(reg, trace)
    }

    constructor (guest: array<Byte>)
      ensures Valid() && Now() == INITIAL_WORLD && this.guest == guest && fresh(all)
    {
      var empty := EmptyTables();
      tables, all := empty, empty.Values;
      this.guest, trace, reg := guest, [], EMPTY;
    }

    lemma CounterFits(k: Kind)
      requires Valid()
      ensures Next(reg, k) < U64
    {
      assert Shows(reg, k, tables[k].next, tables[k].records);
    }

    // ---- Table access ---------------------------------------------------------------------

    method InsertRecord(k: Kind, record: Record) returns (handle: Handle)
      requires Valid()
      modifies this`reg, all
      ensures Valid()
      ensures handle == Next(old(reg), k) && reg == Insert(old(reg), k, record)
    {
      hide Insert;
      forall j ensures j == k || Shows(Insert(reg, k, record), j, tables[j].next, tables[j].records) {
        InsertShown(reg, k, record, j, tables[j].next, tables[j].records);
      }
      InsertShown(reg, k, record, k, tables[k].next, tables[k].records);
      handle := tables[k].Insert(record);
      reg := Insert(reg, k, record);
    }

    /** Inserts records one by one, in order. */
    method InsertEach(k: Kind, records: seq<Record>) returns (handles: seq<Handle>)
      requires Valid()
      modifies this`reg, all
      ensures Valid()
      ensures reg == InsertAll(old(reg), k, records) && handles == Minted(Next(old(reg), k), |records|)
    {
      handles := [];
      CounterFits(k);
      assert Batched(reg, k, records, 0, reg, []);
      for i := 0 to |records|
        invariant Valid()
        invariant Batched(old(reg), k, records, i, reg, handles)
      {
        BatchGrows(old(reg), k, records, i, reg, handles);
        var handle := InsertRecord(k, records[i]);
        handles := handles + [handle];
      }
      assert records[..|records|] == records;
    }

    method FindRecord(k: Kind, handle: Handle) returns (r: Option<Record>)
      requires Valid()
      ensures r.Some? <==> Key(k, handle) in reg.records
      ensures r.Some? ==> r.value == reg.records[Key(k, handle)]
    {
      assert Shows(reg, k, tables[k].next, tables[k].records);
      r := tables[k].Find(handle);
    }

    method EraseRecord(k: Kind, handle: Handle)
      requires Valid()
      modifies this`reg, all
      ensures Valid()
      ensures reg == Without(old(reg), {Key(k, handle)})
    {
      hide Shows, Without;
      var gone := {Key(k, handle)};
      forall j ensures j == k || Shows(Without(reg, gone), j, tables[j].next, tables[j].records) {
        WithoutOthersShown(reg, gone, k, j, tables[j].next, tables[j].records);
      }
      WithoutShown(reg, gone, k, tables[k].next, tables[k].records, tables[k].records - {handle});
      tables[k].Erase(handle);
      reg := Without(reg, gone);
    }

    /** The order in which a ForEach meets a table. */
    method Order(k: Kind) returns (order: seq<Handle>)
      requires Valid()
      ensures NoDup(order)
      ensures forall h: Handle :: h in order <==> Key(k, h) in reg.records
    {
      assert Shows(reg, k, tables[k].next, tables[k].records);
      order := tables[k].VisitOrder();
    }

    /** Erases the records of one table that are doomed. */
    method EraseRecords(k: Kind, doomed: Record -> bool)
      requires Valid()
      modifies this`reg, all
      ensures Valid()
      ensures reg == Without(old(reg), DoomedKeys(old(reg), k, doomed))
    {
      hide Shows, Without, DoomedKeys;
      ghost var after := Without(reg, DoomedKeys(reg, k, doomed));
      ghost var was := tables[k].records;
      ghost var left := map h | h in was && !doomed(was[h]) :: was[h];
      forall j ensures j == k || Shows(after, j, tables[j].next, tables[j].records) {
        DoomedOthersShown(reg, k, doomed, j, tables[j].next, tables[j].records);
      }
      DoomedShown(reg, k, doomed, tables[k].next, was);
      tables[k].EraseIf(doomed);
      assert tables[k].records == left;
      reg := after;
    }

    // ---- Creating -----------------------------------------------------------------------------

    method PublishHandle(address: nat, handle: Handle) returns (ok: bool)
      requires address != 0
      modifies guest
      ensures ok <==> InBounds(old(guest[..]), address, HANDLE_SIZE)
      ensures Handed(old(guest[..]), guest[..], if ok then SUCCESS else ERROR_GUEST_MEMORY, address,
                     Le(handle, HANDLE_SIZE))
    {
      hide Valid;
      ok := Enumeration.WriteBytes(guest, address, Le(handle, HANDLE_SIZE));
    }

    /** Registers a created object and hands its handle to the guest. */
    method Admit(k: Kind, record: Record, out: nat) returns (handle: Handle, ok: bool)
      requires Valid() && out != 0
      modifies this`reg, all, guest
      ensures Valid()
      ensures handle == Next(old(reg), k) && reg == Insert(old(reg), k, record)
      ensures ok <==> InBounds(old(guest[..]), out, HANDLE_SIZE)
      ensures Handed(old(guest[..]), guest[..], if ok then SUCCESS else ERROR_GUEST_MEMORY, out,
                     Le(old(Next(reg, k)), HANDLE_SIZE))
    {
      hide Valid;
      handle := InsertRecord(k, record);
      ok := PublishHandle(out, handle);
    }

    /** CreateInstance calls the driver without the lock. */
    method CallCreateInstance(status: int, native: Native, ghost s: Interleaving.System, ghost t: Interleaving.ThreadId)
      requires Valid() && s.world == Now()
      modifies `trace
      ensures Valid()
      ensures Now() == Calling(old(Now()), Create(Instance, 0, 0, if status == SUCCESS then [native] else []))
      ensures status == SUCCESS ==> Now() == Interleaving.Advance(s, Interleaving.BeginCreateInstance(t, native)).world
    {
      hide Valid;
      trace := trace + [Create(Instance, 0, 0, if status == SUCCESS then [native] else [])];
    }

    /** And takes it only to record what the driver made, and to hand the handle out. */
    method RecordInstance(native: Native, out: nat, ghost s: Interleaving.System, ghost t: Interleaving.ThreadId)
      returns (ok: bool)
      requires Valid() && out != 0 && s.world == Now()
      requires t in s.pending && s.pending[t] == Interleaving.Creating(native)
      modifies this`reg, all, guest
      ensures Valid()
      ensures Now() == Interleaving.Advance(s, Interleaving.EndCreateInstance(t)).world
      ensures ok <==> InBounds(old(guest[..]), out, HANDLE_SIZE)
      ensures Handed(old(guest[..]), guest[..], if ok then SUCCESS else ERROR_GUEST_MEMORY, out,
                     Le(old(Next(reg, Instance)), HANDLE_SIZE))
    {
      hide Valid;
      var _, recorded := Admit(Instance, Record(native, 0, 0, 0, 0), out);
      ok := recorded;
    }

    /** The two with nothing in between. */
    method CreateDecodedInstance(decoded: bool, out: nat, status: int, native: Native) returns (result: int)
      requires Valid() && out != 0
      modifies this, all, guest
      ensures Valid()
      ensures Outcome(result, Now()) ==
              Lifecycle.CreateInstance(old(Now()),
                                       Env(true, decoded, status, [native], InBounds(old(guest[..]), out, HANDLE_SIZE)))
      ensures Handed(old(guest[..]), guest[..], result, out, Le(old(Next(reg, Instance)), HANDLE_SIZE))
    {
      hide Valid, Insert;
      if !decoded {
        return ERROR_GUEST_MEMORY;
      }
      ghost var s := Interleaving.System(Now(), map[]);
      CallCreateInstance(status, native, s, 0);
      if status != SUCCESS {
        return status;
      }
      ghost var begun := Interleaving.Advance(s, Interleaving.BeginCreateInstance(0, native));
      var ok := RecordInstance(native, out, begun, 0);
      result := if ok then SUCCESS else ERROR_GUEST_MEMORY;
    }

    method CreateInstance(createInfo: nat, out: nat, status: int, native: Native) returns (result: int)
      requires Valid()
      modifies this, all, guest
      ensures Valid()
      ensures Outcome(result, Now()) ==
              Lifecycle.CreateInstance(old(Now()), Env(createInfo != 0 && out != 0,
                                                       CreateInfos.InstanceReadable(old(guest[..]), createInfo),
                                                       status, [native], InBounds(old(guest[..]), out, HANDLE_SIZE)))
      ensures Handed(old(guest[..]), guest[..], result, out, Le(old(Next(reg, Instance)), HANDLE_SIZE))
    {
      hide Valid;
      if createInfo == 0 || out == 0 {
        return ERROR_INVALID_ARGUMENT;
      }
      var info := CreateInfos.BuildInstanceCreateInfo(guest[..], createInfo);
      result := CreateDecodedInstance(info.Some?, out, status, native);
    }

    method CreateDecodedDevice(decoded: bool, physical: Handle, out: nat, status: int, native: Native)
      returns (result: int)
      requires Valid() && out != 0
      modifies this, all, guest
      ensures Valid()
      ensures Outcome(result, Now()) ==
              Lifecycle.CreateDevice(old(Now()), physical,
                                     Env(true, decoded, status, [native], InBounds(old(guest[..]), out, HANDLE_SIZE)))
      ensures Handed(old(guest[..]), guest[..], result, out, Le(old(Next(reg, Device)), HANDLE_SIZE))
    {
      hide Valid;
      if !decoded {
        return ERROR_GUEST_MEMORY;
      }
      var parent := FindRecord(PhysicalDevice, physical);
      if parent.None? {
        return ERROR_INVALID_HANDLE;
      }
      trace := trace + [Create(Device, parent.value.native, 0, if status == SUCCESS then [native] else [])];
      if status != SUCCESS {
        return status;
      }
      var _, ok := Admit(Device, Record(native, physical, 0, 0, 0), out);
      result := if ok then SUCCESS else ERROR_GUEST_MEMORY;
    }

    method CreateDevice(physical: Handle, createInfo: nat, out: nat, status: int, native: Native) returns (result: int)
      requires Valid()
      modifies this, all, guest
      ensures Valid()
      ensures Outcome(result, Now()) ==
              Lifecycle.CreateDevice(old(Now()), physical, Env(createInfo != 0 && out != 0,
                                                               CreateInfos.DeviceReadable(old(guest[..]), createInfo),
                                                               status, [native],
                                                               InBounds(old(guest[..]), out, HANDLE_SIZE)))
      ensures Handed(old(guest[..]), guest[..], result, out, Le(old(Next(reg, Device)), HANDLE_SIZE))
    {
      hide Valid;
      if createInfo == 0 || out == 0 {
        return ERROR_INVALID_ARGUMENT;
      }
      var info := CreateInfos.BuildDeviceCreateInfo(guest[..], createInfo);
      result := CreateDecodedDevice(info.Some?, physical, out, status, native);
    }

    method GetDeviceQueue(device: Handle, family: nat, index: nat, out: nat, status: int, native: Native)
      returns (result: int)
      requires Valid()
      modifies this, all, guest
      ensures Valid()
      ensures Outcome(result, Now()) ==
              Lifecycle.GetDeviceQueue(old(Now()), device, family, index,
                                       Env(out != 0, true, status, [native],
                                           InBounds(old(guest[..]), out, HANDLE_SIZE)))
      ensures Handed(old(guest[..]), guest[..], result, out, Le(old(Next(reg, Queue)), HANDLE_SIZE))
    {
      hide Valid;
      if out == 0 {
        return ERROR_INVALID_ARGUMENT;
      }
      var parent := FindRecord(Device, device);
      if parent.None? {
        return ERROR_INVALID_HANDLE;
      }
      trace := trace + [Retrieve(Queue, parent.value.native, if status == SUCCESS then [native] else [])];
      if status != SUCCESS {
        return status;
      }
      var _, ok := Admit(Queue, Record(native, device, 0, family, index), out);
      result := if ok then SUCCESS else ERROR_GUEST_MEMORY;
    }

    method CreateDecodedChild(k: Kind, device: Handle, words: Option<(nat, nat)>, out: nat, status: int, native: Native)
      returns (result: int)
      requires Valid() && Creatable(k) && out != 0
      modifies this, all, guest
      ensures Valid()
      ensures var (word0, word1) := if words.Some? then words.value else (0, 0);
              Outcome(result, Now()) ==
              Lifecycle.CreateChild(old(Now()), k, device, word0, word1,
                                    Env(true, words.Some?, status, [native],
                                        InBounds(old(guest[..]), out, HANDLE_SIZE)))
      ensures Handed(old(guest[..]), guest[..], result, out, Le(old(Next(reg, k)), HANDLE_SIZE))
    {
      hide Valid;
      if words.None? {
        return ERROR_GUEST_MEMORY;
      }
      var parent := FindRecord(Device, device);
      if parent.None? {
        return ERROR_INVALID_HANDLE;
      }
      trace := trace + [Create(k, parent.value.native, 0, if status == SUCCESS then [native] else [])];
      if status != SUCCESS {
        return status;
      }
      var (word0, word1) := words.value;
      var handle, ok := Admit(k, Record(native, device, 0, word0, word1), out);
      if k == CommandPool && !ok {
        EraseRecord(k, handle);
        trace := trace + [Destroy(k, parent.value.native, native)];
      }
      result := if ok then SUCCESS else ERROR_GUEST_MEMORY;
    }

    /** The seven creators: only the command pool's rolls back when its handle cannot be written. */
    method CreateChild(k: Kind, device: Handle, createInfo: nat, out: nat, status: int, native: Native)
      returns (result: int)
      requires Valid() && Creatable(k)
      modifies this, all, guest
      ensures Valid()
      ensures var decoded := ChildInfos.ChildReadable(k, old(guest[..]), createInfo);
              var (word0, word1) :=
                if decoded then ChildInfos.WordsOf(ChildInfos.ChildOf(k, old(guest[..]), createInfo)) else (0, 0);
              Outcome(result, Now()) ==
              Lifecycle.CreateChild(old(Now()), k, device, word0, word1,
                                    Env(createInfo != 0 && out != 0, decoded, status, [native],
                                        InBounds(old(guest[..]), out, HANDLE_SIZE)))
      ensures Handed(old(guest[..]), guest[..], result, out, Le(old(Next(reg, k)), HANDLE_SIZE))
    {
      hide Valid, ChildInfos.ChildReadable, ChildInfos.ChildOf, ChildInfos.WordsOf, ChildInfos.Seen;
      if createInfo == 0 || out == 0 {
        return ERROR_INVALID_ARGUMENT;
      }
      var info := ChildInfos.BuildChildCreateInfo(k, guest[..], createInfo);
      var words := if info.None? then None else Some(ChildInfos.KeptWords(info.value));
      if info.Some? {
        ChildInfos.KeptIsSeen(info.value);
      }
      result := CreateDecodedChild(k, device, words, out, status, native);
    }

    method DestroyChild(k: Kind, device: Handle, handle: Handle) returns (result: int)
      requires Valid() && Creatable(k)
      modifies this, all
      ensures Valid()
      ensures result == if Key(Device, device) in old(reg).records && BelongsTo(old(reg), Key(k, handle), device)
                        then SUCCESS else ERROR_INVALID_HANDLE
      ensures Outcome(result, Now()) == Lifecycle.DestroyChild(old(Now()), k, device, handle)
    {
      hide Valid, Without, Creatable;
      var parent := FindRecord(Device, device);
      var record := FindRecord(k, handle);
      if parent.None? || record.None? || record.value.parent != device {
        return ERROR_INVALID_HANDLE;
      }
      trace := trace + [Destroy(k, parent.value.native, record.value.native)];
      if k == CommandPool {
        EraseRecords(CommandBuffer, (r: Record) => r.pool == handle);
        WithoutTwice(old(reg), BuffersOfPool(old(reg), handle), {Key(k, handle)});
        assert DoomedKeys(old(reg), CommandBuffer, (r: Record) => r.pool == handle) == BuffersOfPool(old(reg), handle);
        assert BuffersOfPool(old(reg), handle) + {Key(k, handle)} == Dropped(old(reg), Key(k, handle));
      }
      EraseRecord(k, handle);
      assert k != CommandPool ==> Dropped(old(reg), Key(k, handle)) == {Key(k, handle)};
      result := SUCCESS;
    }

    // ---- Command buffers ------------------------------------------------------------------

    /** Erases the buffers of a list one by one; a repeated handle is erased once. */
    method EraseBuffers(handles: seq<Handle>)
      requires Valid()
      modifies this`reg, all
      ensures Valid()
      ensures reg == Without(old(reg), KeysOfKind(CommandBuffer, handles))
    {
      hide Valid;
      assert KeysOfKind(CommandBuffer, handles[..0]) == {};
      for i := 0 to |handles|
        invariant Valid()
        invariant reg == Without(old(reg), KeysOfKind(CommandBuffer, handles[..i]))
      {
        EraseRecord(CommandBuffer, handles[i]);
        WithoutTwice(old(reg), KeysOfKind(CommandBuffer, handles[..i]), {Key(CommandBuffer, handles[i])});
        assert handles[..i + 1] == handles[..i] + [handles[i]];
        assert KeysOfKind(CommandBuffer, handles[..i + 1]) ==
               KeysOfKind(CommandBuffer, handles[..i]) + {Key(CommandBuffer, handles[i])};
      }
      assert handles[..|handles|] == handles;
    }

    /** Registers buffers and hands out their handles, or leaves no record of them. */
    method RegisterBuffers(records: seq<Record>, out: nat) returns (ok: bool)
      requires Valid()
      modifies this`reg, all, guest
      ensures Valid()
      ensures var handles := Minted(old(Next(reg, CommandBuffer)), |records|);
              var added := InsertAll(old(reg), CommandBuffer, records);
              && ok == PlainWrite(old(guest[..]), out, HandleBytes(handles)).Some?
              && reg == (if ok then added else Without(added, KeysOfKind(CommandBuffer, handles)))
              && Handed(old(guest[..]), guest[..], if ok then SUCCESS else ERROR_GUEST_MEMORY, out,
                        HandleBytes(handles))
    {
      hide Valid, HandleBytes, Without, InsertAll, KeysOfKind;
      var handles := InsertEach(CommandBuffer, records);
      ok := Enumeration.WriteBytes(guest, out, HandleBytes(handles));
      if !ok {
        EraseBuffers(handles);
      }
    }

    /** With the buffers allocated: register and publish them, or undo everything. */
    method AdmitBuffers(device: Handle, pool: Handle, under: Native, nativePool: Native, level: nat, out: nat,
            natives: seq<Native>)
      returns (result: int)
      requires Valid() && out != 0
      modifies this, all, guest
      ensures Valid()
      ensures var handles := Minted(old(Next(reg, CommandBuffer)), |natives|);
              var added := InsertAll(old(reg), CommandBuffer, RecordsFor(natives, device, pool, level, 0));
              && Handed(old(guest[..]), guest[..], result, out, HandleBytes(handles))
              && (if natives == [] || InBounds(old(guest[..]), out, |natives| * HANDLE_SIZE)
                  then result == SUCCESS && reg == added && trace == old(trace)
                  else result == ERROR_GUEST_MEMORY && reg == Without(added, KeysOfKind(CommandBuffer, handles))
                       && trace == old(trace) + [NativeDriver.FreeCommandBuffers(under, nativePool, natives)])
    {
      hide Valid, InsertAll, Without, KeysOfKind, RecordsFor;
      var ok := RegisterBuffers(RecordsFor(natives, device, pool, level, 0), out);
      if !ok {
        trace := trace + [NativeDriver.FreeCommandBuffers(under, nativePool, natives)];
      }
      result := if ok then SUCCESS else ERROR_GUEST_MEMORY;
    }

    /** Past the checks: the native call, and what follows from its answer. */
    method AllocateIn(device: Handle, pool: Handle, under: Native, nativePool: Native, level: nat, count: nat, out: nat,
                      status: int, natives: seq<Native>) returns (result: int)
      requires Valid() && out != 0 && pool != 0 && count != 0
      requires Key(Device, device) in reg.records && BelongsTo(reg, Key(CommandPool, pool), device)
      requires under == NativeAt(reg, Key(Device, device)) && nativePool == NativeAt(reg, Key(CommandPool, pool))
      modifies this, all, guest
      ensures Valid()
      ensures Outcome(result, Now()) ==
              Lifecycle.AllocateCommandBuffers(old(Now()), device, pool, level, count,
                                               Env(true, true, status, natives,
                                                   InBounds(old(guest[..]), out, count * HANDLE_SIZE)))
      ensures Handed(old(guest[..]), guest[..], result, out, HandleBytes(Minted(old(Next(reg, CommandBuffer)), count)))
    {
      hide Valid, InsertAll, Without, KeysOfKind, RecordsFor, HandleBytes;
      trace := trace + [Create(CommandBuffer, under, nativePool, if status == SUCCESS then natives else [])];
      if status == SUCCESS && |natives| == count {
        result := AdmitBuffers(device, pool, under, nativePool, level, out, natives);
      } else if status == SUCCESS {
        trace := trace + [NativeDriver.FreeCommandBuffers(under, nativePool, natives)];
        result := ERROR_UNKNOWN;
      } else {
        result := status;
      }
    }

    method AllocateCommandBuffers(device: Handle, info: nat, out: nat, status: int, natives: seq<Native>)
      returns (result: int)
      requires Valid()
      modifies this, all, guest
      ensures Valid()
      ensures var decoded := ObjectReadable(old(guest[..]), info, ALLOCATE_INFO_SIZE);
              var pool := if decoded then U64At(old(guest[..]), info) else 0;
              var level := if decoded then U32At(old(guest[..]), info + 8) else 0;
              var count := if decoded then U32At(old(guest[..]), info + 12) else 0;
              && Outcome(result, Now()) ==
                 Lifecycle.AllocateCommandBuffers(old(Now()), device, pool, level, count,
                                                  Env(info != 0 && out != 0, decoded, status, natives,
                                                      InBounds(old(guest[..]), out, count * HANDLE_SIZE)))
              && Handed(old(guest[..]), guest[..], result, out,
                        HandleBytes(Minted(old(Next(reg, CommandBuffer)), count)))
    {
      hide Valid;
      if info == 0 || out == 0 {
        return ERROR_INVALID_ARGUMENT;
      }
      if !ObjectReadable(guest[..], info, ALLOCATE_INFO_SIZE) {
        return ERROR_GUEST_MEMORY;
      }
      var pool, level, count := U64At(guest[..], info), U32At(guest[..], info + 8), U32At(guest[..], info + 12);
      if pool == 0 || count == 0 {
        return ERROR_INVALID_ARGUMENT;
      }
      var parent := FindRecord(Device, device);
      var poolRecord := FindRecord(CommandPool, pool);
      if parent.None? || poolRecord.None? || poolRecord.value.parent != device {
        return ERROR_INVALID_HANDLE;
      }
      result :=
        AllocateIn(device, pool, parent.value.native, poolRecord.value.native, level, count, out, status, natives);
    }

    /** The buffers' natives in order, if every handle names a buffer of this pool. */
    method ResolveBuffers(device: Handle, pool: Handle, handles: seq<Handle>) returns (natives: Option<seq<Native>>)
      requires Valid()
      ensures natives.Some? <==> forall h :: h in handles ==> InPool(reg, device, pool, h)
      ensures natives.Some? ==> natives.value == BufferNatives(reg, handles)
    {
      hide Valid;
      var found: seq<Native> := [];
      for i := 0 to |handles|
        invariant forall j :: 0 <= j < i ==> InPool(reg, device, pool, handles[j])
        invariant found == BufferNatives(reg, handles[..i])
      {
        var record := FindRecord(CommandBuffer, handles[i]);
        if record.None? || record.value.parent != device || record.value.pool != pool {
          assert handles[i] in handles && !InPool(reg, device, pool, handles[i]);
          return None;
        }
        found := found + [record.value.native];
      }
      assert handles[..|handles|] == handles;
      natives := Some(found);
    }

    method FreeCommandBuffers(device: Handle, pool: Handle, list: nat, count: nat) returns (result: int)
      requires Valid()
      modifies this, all
      ensures Valid()
      ensures var decoded := InBounds(guest[..], list, count * HANDLE_SIZE);
              Outcome(result, Now()) ==
              Lifecycle.FreeCommandBuffers(old(Now()), device, pool,
                                           if decoded then HandlesAt(guest[..], list, count) else [],
                                           Env(pool != 0 && list != 0 && count != 0, decoded, SUCCESS, [], true))
    {
      hide Valid;
      if pool == 0 || list == 0 || count == 0 {
        return ERROR_INVALID_ARGUMENT;
      }
      if !ArrayReadable(guest[..], list, count, HANDLE_SIZE) {
        return ERROR_GUEST_MEMORY;
      }
      var handles := HandlesAt(guest[..], list, count);
      var parent := FindRecord(Device, device);
      var poolRecord := FindRecord(CommandPool, pool);
      if parent.None? || poolRecord.None? || poolRecord.value.parent != device {
        return ERROR_INVALID_HANDLE;
      }
      var natives := ResolveBuffers(device, pool, handles);
      if natives.None? {
        return ERROR_INVALID_HANDLE;
      }
      trace := trace + [NativeDriver.FreeCommandBuffers(parent.value.native, poolRecord.value.native, natives.value)];
      EraseBuffers(handles);
      result := SUCCESS;
    }

    // ---- Using objects ----------------------------------------------------------------------

    /** All natives in input order, or none at all. */
    method ResolveFenceList(device: Handle, list: nat, count: nat) returns (result: int, natives: seq<Native>)
      requires Valid()
      ensures result == if count == 0 || list == 0 then ERROR_INVALID_ARGUMENT
                        else if !InBounds(guest[..], list, count * HANDLE_SIZE) then ERROR_GUEST_MEMORY
                        else if Key(Device, device) in reg.records
                                && forall h :: h in HandlesAt(guest[..], list, count) ==>
                                  BelongsTo(reg, Key(Fence, h), device)
                        then SUCCESS else ERROR_INVALID_HANDLE
      ensures result == SUCCESS ==> natives == Interleaving.FenceNatives(reg, HandlesAt(guest[..], list, count))
      ensures result != SUCCESS ==> natives == []
    {
      hide Valid;
      if count == 0 || list == 0 {
        return ERROR_INVALID_ARGUMENT, [];
      }
      if !ArrayReadable(guest[..], list, count, HANDLE_SIZE) {
        return ERROR_GUEST_MEMORY, [];
      }
      var handles := HandlesAt(guest[..], list, count);
      var parent := FindRecord(Device, device);
      if parent.None? {
        return ERROR_INVALID_HANDLE, [];
      }
      natives := [];
      for i := 0 to count
        invariant |natives| == i
        invariant forall j :: 0 <= j < i ==>
          BelongsTo(reg, Key(Fence, handles[j]), device) && natives[j] == NativeAt(reg, Key(Fence, handles[j]))
      {
        var fence := FindRecord(Fence, handles[i]);
        if fence.None? || fence.value.parent != device {
          assert handles[i] in handles && !BelongsTo(reg, Key(Fence, handles[i]), device);
          return ERROR_INVALID_HANDLE, [];
        }
        natives := natives + [fence.value.native];
      }
      result := SUCCESS;
    }

    /** The second section of a fence call: the device is looked up again, the natives are those found before. */
    method WaitOnFences(device: Handle, natives: seq<Native>, status: int,
            ghost s: Interleaving.System, ghost t: Interleaving.ThreadId)
      returns (result: int)
      requires Valid()
      requires s.world == Now() && t in s.pending && s.pending[t].Fencing?
      requires s.pending[t].device == device && s.pending[t].natives == natives
      modifies `trace
      ensures Valid()
      ensures result == if Key(Device, device) in reg.records then status else ERROR_INVALID_HANDLE
      ensures Now() == Interleaving.Advance(s, Interleaving.EndFences(t)).world
    {
      hide Valid;
      var parent := FindRecord(Device, device);
      if parent.None? {
        return ERROR_INVALID_HANDLE;
      }
      trace := trace + [Use(parent.value.native, Interleaving.FenceRefs(natives))];
      result := status;
    }

    /** WaitForFences with nothing between its sections; ResetFences differs in the native call alone. */
    method WaitForFences(device: Handle, list: nat, count: nat, status: int) returns (result: int)
      requires Valid()
      modifies `trace
      ensures Valid()
      ensures result == if count == 0 || list == 0 then ERROR_INVALID_ARGUMENT
                        else if !InBounds(guest[..], list, count * HANDLE_SIZE) then ERROR_GUEST_MEMORY
                        else if Key(Device, device) in reg.records
                                && forall h :: h in HandlesAt(guest[..], list, count) ==>
                                  BelongsTo(reg, Key(Fence, h), device)
                        then status else ERROR_INVALID_HANDLE
      ensures var decoded := InBounds(guest[..], list, count * HANDLE_SIZE);
              Outcome(result, Now()) ==
              Lifecycle.UseObjects(old(Now()), device,
                                   FenceKeys(if decoded then HandlesAt(guest[..], list, count) else []),
                                   Env(count != 0 && list != 0, decoded, status, [], true))
    {
      hide Valid, HandlesAt, FenceKeys, RefsOf, Interleaving.FenceNatives, Interleaving.FenceRefs, BelongsTo;
      var natives: seq<Native>;
      ghost var decoded := InBounds(guest[..], list, count * HANDLE_SIZE);
      ghost var fences := if decoded then HandlesAt(guest[..], list, count) else [];
      FencesFound(reg, device, fences);
      result, natives := ResolveFenceList(device, list, count);
      if result != SUCCESS {
        return;
      }
      ghost var s := Interleaving.System(Now(), map[]);
      ghost var begun := Interleaving.Advance(s, Interleaving.BeginFences(0, device, fences));
      result := WaitOnFences(device, natives, status, begun, 0);
    }

    /** BindBufferMemory and BindImageMemory. */
    method BindMemory(k: Kind, device: Handle, target: Handle, memory: Handle, status: int) returns (result: int)
      requires Valid()
      modifies `trace
      ensures Valid()
      ensures result == if Key(Device, device) in reg.records && BelongsTo(reg, Key(k, target), device)
                           && BelongsTo(reg, Key(Memory, memory), device)
                        then status else ERROR_INVALID_HANDLE
      ensures Outcome(result, Now()) ==
              Lifecycle.UseObjects(old(Now()), device, [Key(k, target), Key(Memory, memory)],
                                   Env(true, true, status, [], true))
    {
      hide Valid;
      var parent := FindRecord(Device, device);
      var targetRecord := FindRecord(k, target);
      var memoryRecord := FindRecord(Memory, memory);
      ghost var keys := [Key(k, target), Key(Memory, memory)];
      assert keys[0] in keys && keys[1] in keys;
      if parent.None? || targetRecord.None? || memoryRecord.None?
         || targetRecord.value.parent != device || memoryRecord.value.parent != device {
        return ERROR_INVALID_HANDLE;
      }
      var refs := [Ref(k, targetRecord.value.native), Ref(Memory, memoryRecord.value.native)];
      assert refs == RefsOf(reg, keys);
      trace := trace + [Use(parent.value.native, refs)];
      result := status;
    }

    /** Recording begins on primary buffers only, and never as part of a render pass. */
    method BeginCommandBuffer(device: Handle, buffer: Handle, info: nat, status: int) returns (result: int)
      requires Valid()
      modifies `trace
      ensures Valid()
      ensures result == if info == 0 then ERROR_INVALID_ARGUMENT
                        else if !InBounds(guest[..], info, BEGIN_INFO_SIZE) then ERROR_GUEST_MEMORY
                        else if ContinuesRenderPass(U32At(guest[..], info)) then ERROR_UNSUPPORTED_OPERATION
                        else if Key(Device, device) !in reg.records
                                || !BelongsTo(reg, Key(CommandBuffer, buffer), device) then ERROR_INVALID_HANDLE
                        else if reg.records[Key(CommandBuffer, buffer)].word0 != LEVEL_PRIMARY then
                          ERROR_UNSUPPORTED_OPERATION
                        else status
      ensures var decoded := ObjectReadable(guest[..], info, BEGIN_INFO_SIZE);
              var continues := decoded && ContinuesRenderPass(U32At(guest[..], info));
              Outcome(result, Now()) ==
              Lifecycle.BeginCommandBuffer(old(Now()), device, buffer, continues,
                                           Env(info != 0, decoded, status, [], true))
    {
      hide Valid;
      if info == 0 {
        return ERROR_INVALID_ARGUMENT;
      }
      if !ObjectReadable(guest[..], info, BEGIN_INFO_SIZE) {
        return ERROR_GUEST_MEMORY;
      }
      if ContinuesRenderPass(U32At(guest[..], info)) {
        return ERROR_UNSUPPORTED_OPERATION;
      }
      var parent := FindRecord(Device, device);
      var record := FindRecord(CommandBuffer, buffer);
      ghost var keys := [Key(CommandBuffer, buffer)];
      assert keys[0] in keys;
      if parent.None? || record.None? || record.value.parent != device {
        return ERROR_INVALID_HANDLE;
      }
      if record.value.word0 != LEVEL_PRIMARY {
        return ERROR_UNSUPPORTED_OPERATION;
      }
      var refs := [Ref(CommandBuffer, record.value.native)];
      assert refs == RefsOf(reg, keys);
      trace := trace + [Use(parent.value.native, refs)];
      result := status;
    }

    method QueueWaitIdle(queue: Handle, status: int) returns (result: int)
      requires Valid()
      modifies `trace
      ensures Valid()
      ensures result == if Key(Queue, queue) in reg.records
                           && Key(Device, reg.records[Key(Queue, queue)].parent) in reg.records
                        then status else ERROR_INVALID_HANDLE
      ensures Outcome(result, Now()) == Lifecycle.QueueWaitIdle(old(Now()), queue, status)
    {
      hide Valid;
      var record := FindRecord(Queue, queue);
      if record.None? {
        return ERROR_INVALID_HANDLE;
      }
      var parent := FindRecord(Device, record.value.parent);
      if parent.None? {
        return ERROR_INVALID_HANDLE;
      }
      trace := trace + [Use(parent.value.native, [Ref(Queue, record.value.native)])];
      result := status;
    }

    // ---- Enumerating physical devices -----------------------------------------------------------

    /** The first section of the enumeration: the instance is looked up and the driver asked for its list. */
    method ListDevices(instance: Handle, status: int, natives: seq<Native>,
            ghost s: Interleaving.System, ghost t: Interleaving.ThreadId, ghost capacity: nat)
      returns (result: int, found: seq<Native>)
      requires Valid() && s.world == Now()
      modifies `trace
      ensures Valid()
      ensures found == if status < 0 then [] else natives
      ensures result == if Key(Instance, instance) !in reg.records then ERROR_INVALID_HANDLE
                        else if status < 0 then status else SUCCESS
      ensures Key(Instance, instance) in reg.records ==>
              Now() == Interleaving.Advance(s, Interleaving.BeginEnumerate(t, instance, capacity, found)).world
      ensures Key(Instance, instance) !in reg.records ==> trace == old(trace)
    {
      hide Valid;
      found := if status < 0 then [] else natives;
      var record := FindRecord(Instance, instance);
      if record.None? {
        return ERROR_INVALID_HANDLE, found;
      }
      trace := trace + [Retrieve(PhysicalDevice, record.value.native, found)];
      result := if status < 0 then status else SUCCESS;
    }

    /** Its second section: what is shown is registered, whatever has become of the instance. */
    method RegisterDevices(instance: Handle, shown: seq<Native>,
            ghost s: Interleaving.System, ghost t: Interleaving.ThreadId)
      returns (handles: seq<Handle>)
      requires Valid() && s.world == Now()
      requires t in s.pending && s.pending[t] == Interleaving.Enumerating(instance, shown)
      modifies this`reg, all
      ensures Valid()
      ensures handles == Minted(old(Next(reg, PhysicalDevice)), |shown|)
      ensures Now() == Interleaving.Advance(s, Interleaving.EndEnumerate(t)).world
    {
      hide Valid;
      handles := InsertEach(PhysicalDevice, PhysicalRecords(instance, shown));
    }

    /** The enumeration with nothing between its sections. */
    method EnumeratePhysicalDevices(instance: Handle, buffer: nat, capacity: nat, countAt: nat, status: int,
            natives: seq<Native>)
      returns (result: int)
      requires Valid() && capacity < U32
      modifies this, all, guest
      ensures Valid()
      ensures var found := if status < 0 then [] else natives;
              var handles := Minted(old(Next(reg, PhysicalDevice)), |Shown(capacity, found)|);
              var handed := Enumeration.HandedOver(old(guest[..]), buffer, capacity, countAt, Encoded(handles));
              && Outcome(result, Now()) ==
                 Lifecycle.EnumeratePhysicalDevices(old(Now()), instance, capacity,
                                                    Env(countAt != 0, true, status, natives,
                                                        handed.0 != ERROR_GUEST_MEMORY))
              && guest[..] == if countAt == 0 || Key(Instance, instance) !in old(reg).records || status < 0
                              then old(guest[..]) else handed.1
    {
      hide Valid, InsertAll, Shown, PhysicalRecords, Minted;
      if countAt == 0 {
        return ERROR_INVALID_ARGUMENT;
      }
      ghost var s := Interleaving.System(Now(), map[]);
      var found: seq<Native>;
      result, found := ListDevices(instance, status, natives, s, 0, capacity);
      if result != SUCCESS {
        return;
      }
      ghost var begun := Interleaving.Advance(s, Interleaving.BeginEnumerate(0, instance, capacity, found));
      var handles := RegisterDevices(instance, Shown(capacity, found), begun, 0);
      result := Enumeration.WriteGuestBuffer(guest, buffer, capacity, countAt, Encoded(handles), HANDLE_SIZE);
    }

    // ---- Querying physical devices --------------------------------------------------------------

    /** Properties, features and memory properties: one structure, handed over whole or not at all. */
    method QueryProperties(physical: Handle, out: nat, status: int, value: seq<Byte>) returns (result: int)
      requires Valid() && value != []
      modifies `trace, guest
      ensures Valid()
      ensures var fits := InBounds(old(guest[..]), out, |value|);
              Outcome(result, Now()) ==
              Lifecycle.QueryPhysicalDevice(old(Now()), physical, Properties,
                                            if fits then HandedWhole else HandedNothing,
                                            Env(out != 0, true, status, [], true))
      ensures Handed(old(guest[..]), guest[..], result, out, value)
    {
      hide Valid;
      if out == 0 {
        return ERROR_INVALID_ARGUMENT;
      }
      var record := FindRecord(PhysicalDevice, physical);
      if record.None? {
        return ERROR_INVALID_HANDLE;
      }
      trace := trace + [Query(record.value.native)];
      if status != SUCCESS {
        return status;
      }
      var ok := Enumeration.WriteBytes(guest, out, value);
      result := if ok then SUCCESS else ERROR_GUEST_MEMORY;
    }

    /** Queue families and extensions: lists, of which a small buffer gets the beginning. */
    method QueryList(query: PhysicalQuery, physical: Handle, layer: nat, buffer: nat, capacity: nat, countAt: nat,
            status: int, values: seq<seq<Byte>>, size: nat)
      returns (result: int)
      requires Valid() && Enumeration.Uniform(values, size)
      requires query.Extensions? || (query.QueueFamilies? && layer == 0)
      modifies `trace, guest
      ensures Valid()
      ensures var handed := Enumeration.HandedOver(old(guest[..]), buffer, capacity, countAt, values);
              var decoded := layer == 0 || TextReadable(old(guest[..]), layer);
              && Outcome(result, Now()) ==
                 Lifecycle.QueryPhysicalDevice(old(Now()), physical, query, HandingOf(handed.0),
                                               Env(countAt != 0, decoded, status, [], true))
              && guest[..] == if countAt == 0 || !decoded || Key(PhysicalDevice, physical) !in reg.records
                                 || QueryFails(query, status)
                              then old(guest[..]) else handed.1
    {
      hide Valid;
      if countAt == 0 {
        return ERROR_INVALID_ARGUMENT;
      }
      if layer != 0 && !TextReadable(guest[..], layer) {
        return ERROR_GUEST_MEMORY;
      }
      var record := FindRecord(PhysicalDevice, physical);
      if record.None? {
        return ERROR_INVALID_HANDLE;
      }
      trace := trace + [Query(record.value.native)];
      if (if query == Extensions then status < 0 else status != SUCCESS) {
        return status;
      }
      result := Enumeration.WriteGuestBuffer(guest, buffer, capacity, countAt, values, size);
    }

    // ---- Cascades ---------------------------------------------------------------------------------

    /** The callback of a ForEach: destroys the object if it goes with the devices. */
    method VisitOne(k: Kind, ds: set<Handle>, h: Handle, ghost done: seq<Handle>, ghost base: seq<Call>,
            ghost before: seq<Key>)
      returns (ghost sweep: seq<Key>)
      requires Valid() && (Creatable(k) || k == Device) && Key(k, h) in reg.records && h !in done
      requires VisitStage(reg, ds, k, done, base, trace, before)
      modifies `trace
      ensures VisitStage(reg, ds, k, done + [h], base, trace, sweep)
    {
      hide Valid, VisitStage;
      sweep := before;
      ghost var key := Key(k, h);
      var record := FindRecord(k, h);
      VisitStep(reg, ds, k, done, h, base, trace, before);
      if k == Device {
        if h !in ds {
          return;
        }
        assert InSweep(reg, ds, key);
        trace := trace + [Destroy(Device, 0, record.value.native)];
      } else {
        if record.value.parent !in ds {
          return;
        }
        assert InSweep(reg, ds, key);
        var device := FindRecord(Device, record.value.parent);
        trace := trace + [Destroy(k, device.value.native, record.value.native)];
      }
      assert trace == old(trace) + [DestroyCall(reg, key)];
      sweep := before + [key];
    }

    /** One ForEach of a cascade, in whatever order the table is met. */
    method SweepTable(k: Kind, ds: set<Handle>, ghost rank: nat, ghost base: seq<Call>, ghost before: seq<Key>)
      returns (ghost sweep: seq<Key>)
      requires Valid() && (Creatable(k) || k == Device) && rank == Rank(k)
      requires SweepStage(reg, ds, rank, base, trace, before)
      modifies `trace
      ensures SweepStage(reg, ds, rank + 1, base, trace, sweep)
    {
      hide Valid, SweepStage, VisitStage;
      sweep := before;
      var order := Order(k);
      VisitBegins(reg, ds, k, base, trace, sweep);
      for i := 0 to |order|
        invariant VisitStage(reg, ds, k, order[..i], base, trace, sweep)
      {
        assert order[i] in order && order[i] !in order[..i];
        sweep := VisitOne(k, ds, order[i], order[..i], base, sweep);
        assert order[..i + 1] == order[..i] + [order[i]];
      }
      assert order[..|order|] == order;
      VisitEnds(reg, ds, k, order, base, trace, sweep);
    }

    /** The seven tables of objects that devices own, buffers and images before memories. */
    method SweepChildren(ds: set<Handle>) returns (ghost sweep: seq<Key>)
      requires Valid() && AllPresent(reg, ds)
      modifies `trace
      ensures SweepStage(reg, ds, 7, old(trace), trace, sweep)
    {
      hide Valid, SweepStage, VisitStage;
      SweepStarts(reg, ds, trace);
      sweep := SweepTable(Buffer, ds, 0, old(trace), []);
      sweep := SweepTable(Image, ds, 1, old(trace), sweep);
      sweep := SweepTable(Semaphore, ds, 2, old(trace), sweep);
      sweep := SweepTable(Fence, ds, 3, old(trace), sweep);
      sweep := SweepTable(CommandPool, ds, 4, old(trace), sweep);
      sweep := SweepTable(ShaderModule, ds, 5, old(trace), sweep);
      sweep := SweepTable(Memory, ds, 6, old(trace), sweep);
    }

    /** One EraseIf of a cascade, the i-th of the nine. */
    method EraseTable(k: Kind, ghost i: nat, ds: set<Handle>, ghost was: Registry)
      requires Valid() && i < |CHILD_KINDS| && CHILD_KINDS[i] == k && HasDeviceParent(k)
      requires reg == Without(was, DoomedIn(was, ds, CHILD_KINDS[..i]))
      modifies this`reg, all
      ensures Valid()
      ensures reg == Without(was, DoomedIn(was, ds, CHILD_KINDS[..i + 1]))
    {
      hide Valid;
      assert CHILD_KINDS[..i + 1] == CHILD_KINDS[..i] + [k];
      ErasedMore(was, ds, CHILD_KINDS[..i], k);
      EraseRecords(k, (r: Record) => r.parent in ds);
    }

    method EraseQueuesPoolsShaders(ds: set<Handle>)
      requires Valid()
      modifies this`reg, all
      ensures Valid()
      ensures reg == Without(old(reg), DoomedIn(old(reg), ds, CHILD_KINDS[..4]))
    {
      NothingErased(reg, ds);
      hide Valid, DoomedIn, Without;
      EraseTable(Queue, 0, ds, old(reg));
      EraseTable(CommandBuffer, 1, ds, old(reg));
      EraseTable(CommandPool, 2, ds, old(reg));
      EraseTable(ShaderModule, 3, ds, old(reg));
    }

    /** The nine tables of records under a device. */
    method EraseChildren(ds: set<Handle>)
      requires Valid()
      modifies this`reg, all
      ensures Valid()
      ensures reg == Without(old(reg), DoomedIn(old(reg), ds, CHILD_KINDS))
    {
      hide Valid, DoomedIn, Without;
      EraseQueuesPoolsShaders(ds);
      EraseTable(Buffer, 4, ds, old(reg));
      EraseTable(Image, 5, ds, old(reg));
      EraseTable(Semaphore, 6, ds, old(reg));
      EraseTable(Fence, 7, ds, old(reg));
      EraseTable(Memory, 8, ds, old(reg));
      assert CHILD_KINDS[..9] == CHILD_KINDS;
    }

    /** Every native call of a device's cascade. */
    method SweepDevice(device: Handle, native: Native) returns (ghost sweep: seq<Key>)
      requires Valid() && Key(Device, device) in reg.records && native == NativeAt(reg, Key(Device, device))
      modifies `trace
      ensures SweepOf(reg, {device}, sweep) && trace == old(trace) + SweepCalls(reg, sweep)
    {
      hide Valid, SweepStage, VisitStage;
      ghost var children := SweepChildren({device});
      DeviceEnds(reg, device, old(trace), trace, children);
      trace := trace + [Destroy(Device, 0, native)];
      sweep := children + [Key(Device, device)];
    }

    /** Every erasure of a device's cascade. */
    method EraseDevice(device: Handle)
      requires Valid() && Key(Device, device) in reg.records
      modifies this`reg, all
      ensures Valid()
      ensures reg == RemoveDevices(old(reg), {device})
    {
      hide Valid;
      ChildrenAndDevice(reg, device);
      EraseChildren({device});
      EraseRecord(Device, device);
    }

    method DestroyDevice(device: Handle) returns (result: int, ghost sweep: seq<Key>)
      requires Valid()
      modifies this, all
      ensures Valid()
      ensures Key(Device, device) in old(reg).records ==> SweepOf(old(reg), {device}, sweep)
      ensures result == if Key(Device, device) in old(reg).records then SUCCESS else ERROR_INVALID_HANDLE
      ensures Outcome(result, Now()) == Lifecycle.DestroyDevice(old(Now()), device, sweep)
    {
      hide Valid;
      sweep := [];
      var record := FindRecord(Device, device);
      if record.None? {
        return ERROR_INVALID_HANDLE, [];
      }
      sweep := SweepDevice(device, record.value.native);
      EraseDevice(device);
      result := SUCCESS;
    }

    /** The instance's physical devices, and their devices. */
    method CollectDevices(instance: Handle) returns (physicals: set<Handle>, devices: set<Handle>)
      requires Valid()
      ensures physicals == PhysicalDevicesOf(reg, instance) && devices == DevicesOf(reg, instance)
    {
      hide Valid;
      physicals, devices := {}, {};
      var order := Order(PhysicalDevice);
      for i := 0 to |order|
        invariant forall h ::
          h in physicals <==> h in order[..i] && reg.records[Key(PhysicalDevice, h)].parent == instance
      {
        var record := FindRecord(PhysicalDevice, order[i]);
        if record.value.parent == instance {
          physicals := physicals + {order[i]};
        }
      }
      PhysicalsCollected(reg, instance, order, physicals);
      order := Order(Device);
      for i := 0 to |order|
        invariant forall h :: h in devices <==> h in order[..i] && reg.records[Key(Device, h)].parent in physicals
      {
        var record := FindRecord(Device, order[i]);
        if record.value.parent in physicals {
          devices := devices + {order[i]};
        }
      }
      DevicesCollected(reg, instance, order, devices);
    }

    /** Every native call of an instance's cascade. */
    method SweepInstance(native: Native, devices: set<Handle>) returns (ghost sweep: seq<Key>)
      requires Valid() && AllPresent(reg, devices)
      modifies `trace
      ensures SweepOf(reg, devices, sweep)
      ensures trace == old(trace) + SweepCalls(reg, sweep) + [Destroy(Instance, 0, native)]
    {
      hide Valid, SweepStage, VisitStage;
      sweep := SweepChildren(devices);
      sweep := SweepTable(Device, devices, 7, old(trace), sweep);
      SweepEnds(reg, devices, old(trace), trace, sweep);
      trace := trace + [Destroy(Instance, 0, native)];
    }

    /** Every erasure of an instance's cascade. */
    method EraseInstance(instance: Handle, physicals: set<Handle>, devices: set<Handle>)
      requires Valid() && physicals == PhysicalDevicesOf(reg, instance) && devices == DevicesOf(reg, instance)
      modifies this`reg, all
      ensures Valid()
      ensures reg == RemoveInstance(old(reg), instance)
    {
      hide Valid;
      ChildrenAndDevices(reg, instance);
      PhysicalsAndInstance(reg, instance);
      EraseChildren(devices);
      EraseRecords(Device, (r: Record) => r.parent in physicals);
      EraseRecords(PhysicalDevice, (r: Record) => r.parent == instance);
      EraseRecord(Instance, instance);
    }

    method DestroyInstance(instance: Handle) returns (result: int, ghost sweep: seq<Key>)
      requires Valid()
      modifies this, all
      ensures Valid()
      ensures Key(Instance, instance) in old(reg).records ==> SweepOf(old(reg), DevicesOf(old(reg), instance), sweep)
      ensures result == if Key(Instance, instance) in old(reg).records then SUCCESS else ERROR_INVALID_HANDLE
      ensures Outcome(result, Now()) == Lifecycle.DestroyInstance(old(Now()), instance, sweep)
    {
      hide Valid;
      sweep := [];
      var record := FindRecord(Instance, instance);
      if record.None? {
        return ERROR_INVALID_HANDLE, [];
      }
      var physicals, devices := CollectDevices(instance);
      sweep := SweepInstance(record.value.native, devices);
      EraseInstance(instance, physicals, devices);
      result := SUCCESS;
    }
  }
}
