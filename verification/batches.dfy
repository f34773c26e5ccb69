/** Registering and freeing several objects at once keeps tables and driver linked. */
module Batches {
  import opened Results
  import opened Sequences
  import opened HandleTables
  import opened Registries
  import opened NativeDriver
  import opened Linking

  /** One record per native handle, all under the same parent and pool. */
  function RecordsFor(made: seq<Native>, parent: Handle, pool: Handle, word0: nat, word1: nat): (rs: seq<Record>)
    ensures |rs| == |made|
  {
    seq(|made|, i requires 0 <= i < |made| => Record(made[i], parent, pool, word0, word1))
  }

  function All(reg: Registry): set<Key> {
    reg.records.Keys
  }

  /** under and nativePool are the native handles a creating call passes for this parent and pool. */
  ghost predicate NamedBy(reg: Registry, k: Kind, parent: Handle, pool: Handle, under: Native, nativePool: Native) {
    && (DeviceScoped(k) ==> under == NativeAt(reg, Key(Device, parent)))
    && (k == CommandBuffer ==> nativePool == NativeAt(reg, Key(CommandPool, pool)))
  }

  /** One more record counts one more object, and changes no other count. */
  lemma CountsAfterAdd(reg: Registry, after: Registry, key: Key, o: Obj)
    requires ClosedBelow(reg, All(reg)) && Agree(reg, after)
    requires key !in reg.records && All(after) == All(reg) + {key}
    ensures |KeysOf(after, All(after), o)|
         == |KeysOf(reg, All(reg), o)| + if Owned(key.kind) && ObjOf(after, key) == o then 1 else 0
  {
    hide ClosedBelow, ObjOf;
    SameObjects(reg, after, All(reg));
    assert KeysOf(reg, All(reg), o) == KeysOf(after, All(after), o) - {key};
    assert key in KeysOf(after, All(after), o) <==> Owned(key.kind) && ObjOf(after, key) == o;
    hide KeysOf;
    OneFewer(KeysOf(after, All(after), o), key);
  }

  lemma InsertCounts(reg: Registry, k: Kind, record: Record, under: Native, nativePool: Native, o: Obj)
    requires ForestBelow(reg) && Counted(reg) && Next(reg, k) + 1 < U64 && Owned(k)
    requires Placed(reg, k, record, under, nativePool)
    ensures |KeysOf(Insert(reg, k, record), All(Insert(reg, k, record)), o)|
         == |KeysOf(reg, All(reg), o)| + MadeBy(Create(k, under, nativePool, [record.native]), o)
  {
    hide ForestBelow, Counted, ClosedBelow, KeysOf, Insert;
    var after := Insert(reg, k, record);
    var key := Key(k, Next(reg, k));
    InsertAdds(reg, k, record);
    ForestBelowIsClosedBelow(reg);
    CountsAfterAdd(reg, after, key, o);
    assert ObjOf(after, key) == ScopedObj(k, under, nativePool, record.native);
    assert multiset([record.native])[o.native] == if o.native == record.native then 1 else 0;
  }

  lemma MadeSplits(k: Kind, under: Native, pool: Native, made: seq<Native>, last: Native, o: Obj)
    ensures MadeBy(Create(k, under, pool, made + [last]), o)
         == MadeBy(Create(k, under, pool, made), o) + MadeBy(Create(k, under, pool, [last]), o)
  {
    assert multiset(made + [last]) == multiset(made) + multiset([last]);
  }

  /** The record's parents are there, and are those the call names. */
  ghost predicate Placed(reg: Registry, k: Kind, record: Record, under: Native, nativePool: Native) {
    ParentsPresent(reg, k, record) && NamedBy(reg, k, record.parent, record.pool, under, nativePool)
  }

  /** The records of one creating call: same present parent and pool, counter below the wrap. */
  ghost predicate Batch(reg: Registry, k: Kind, records: seq<Record>, under: Native, nativePool: Native) {
    && ForestBelow(reg) && Counted(reg) && Next(reg, k) + |records| < U64 && Owned(k)
    && forall r :: r in records ==> Placed(reg, k, r, under, nativePool)
  }

  lemma BatchMiddle(reg: Registry, k: Kind, records: seq<Record>, under: Native, nativePool: Native)
    requires records != [] && Batch(reg, k, records, under, nativePool)
    ensures var n := |records| - 1;
      && Batch(reg, k, records[..n], under, nativePool)
      && Batch(InsertAll(reg, k, records[..n]), k, [records[n]], under, nativePool)
  {
    hide ForestBelow, Counted, Placed, InsertAll;
    var n := |records| - 1;
    var middle := InsertAll(reg, k, records[..n]);
    BatchKeepsForest(reg, k, records[..n], under, nativePool);
    assert records[n] in records && [records[n]][0] == records[n];
    StaysPlaced(reg, middle, k, records[n], under, nativePool);
  }

  lemma BatchKeepsForest(reg: Registry, k: Kind, records: seq<Record>, under: Native, nativePool: Native)
    requires Batch(reg, k, records, under, nativePool)
    ensures var after := InsertAll(reg, k, records);
      && ForestBelow(after) && Counted(after) && Agree(reg, after) && All(reg) <= All(after)
      && Next(after, k) == Next(reg, k) + |records|
  {
    hide ForestBelow, TopEdges, Counted, NamedBy, ParentsPresent, InsertAll;
    InsertAllAppends(reg, k, records);
    forall r | r in records ensures ParentsPresent(reg, k, r) {
      assert Placed(reg, k, r, under, nativePool);
    }
    InsertAllKeepsForest(reg, k, records);
  }

  lemma StaysPlaced(reg: Registry, after: Registry, k: Kind, record: Record, under: Native, nativePool: Native)
    requires Agree(reg, after) && All(reg) <= All(after) && Owned(k)
    requires Placed(reg, k, record, under, nativePool)
    ensures Placed(after, k, record, under, nativePool)
  {
  }

  function Natives(records: seq<Record>): (ns: seq<Native>)
    ensures |ns| == |records|
  {
    seq(|records|, i requires 0 <= i < |records| => records[i].native)
  }

  lemma NativesSnoc(records: seq<Record>)
    requires records != []
    ensures Natives(records) == Natives(records[..|records| - 1]) + [records[|records| - 1].native]
  {
  }

  /** Registering every handle a creating call returned counts exactly what it made. */
  lemma {:induction false} InsertAllCounts(reg: Registry, k: Kind, records: seq<Record>, under: Native,
          nativePool: Native, o: Obj)
    requires Batch(reg, k, records, under, nativePool)
    ensures var after := InsertAll(reg, k, records);
      |KeysOf(after, All(after), o)| ==
        |KeysOf(reg, All(reg), o)| + MadeBy(Create(k, under, nativePool, Natives(records)), o)
    decreases |records|
  {
    if records != [] {
      var n := |records| - 1;
      BatchMiddle(reg, k, records, under, nativePool);
      InsertAllCounts(reg, k, records[..n], under, nativePool, o);
      assert records[n] in [records[n]];
      InsertCounts(InsertAll(reg, k, records[..n]), k, records[n], under, nativePool, o);
      NativesSnoc(records);
      MadeSplits(k, under, nativePool, Natives(records[..n]), records[n].native, o);
    } else {
      assert InsertAll(reg, k, records) == reg;
    }
  }

  lemma RetrieveCounts(reg: Registry, k: Kind, records: seq<Record>, after: Registry, o: Obj)
    requires ForestBelow(reg) && Appended(reg, k, records, after) && !Owned(k)
    ensures KeysOf(after, All(after), o) == KeysOf(reg, All(reg), o)
  {
    ForestBelowIsClosedBelow(reg);
    forall key | key in after.records && key !in reg.records ensures !Owned(key.kind) {
      AppendedNew(reg, k, records, after, key);
    }
    UnownedCounts(reg, after, o);
  }

  lemma UnownedCounts(reg: Registry, after: Registry, o: Obj)
    requires ClosedBelow(reg, All(reg)) && Agree(reg, after) && All(reg) <= All(after)
    requires forall key :: key in after.records && key !in reg.records ==> !Owned(key.kind)
    ensures KeysOf(after, All(after), o) == KeysOf(reg, All(reg), o)
  {
    SameObjects(reg, after, All(reg));
  }

  // ---- Freeing command buffers ---------------------------------------------------

  ghost predicate BuffersIn(reg: Registry, device: Handle, pool: Handle, handles: seq<Handle>) {
    forall h :: h in handles ==>
      Key(CommandBuffer, h) in reg.records && reg.records[Key(CommandBuffer, h)].parent == device
      && reg.records[Key(CommandBuffer, h)].pool == pool
  }

  function BufferNatives(reg: Registry, handles: seq<Handle>): (ns: seq<Native>)
    ensures |ns| == |handles|
  {
    seq(|handles|, i requires 0 <= i < |handles| => NativeAt(reg, Key(CommandBuffer, handles[i])))
  }

  function FreeCall(reg: Registry, device: Handle, pool: Handle, handles: seq<Handle>): Call {
    FreeCommandBuffers(NativeAt(reg, Key(Device, device)), NativeAt(reg, Key(CommandPool, pool)),
                       BufferNatives(reg, handles))
  }

  lemma FreeOne(reg: Registry, keys: set<Key>, key: Key, o: Obj)
    requires keys <= reg.records.Keys && key in keys && Owned(key.kind)
    ensures |KeysOf(reg, keys, o)| == |KeysOf(reg, keys - {key}, o)| + if ObjOf(reg, key) == o then 1 else 0
  {
    assert key in KeysOf(reg, keys, o) <==> ObjOf(reg, key) == o;
    assert KeysOf(reg, keys - {key}, o) == KeysOf(reg, keys, o) - {key};
  }

  lemma FreeSplits(reg: Registry, device: Handle, pool: Handle, handles: seq<Handle>, o: Obj)
    requires handles != [] && BuffersIn(reg, device, pool, handles)
    ensures var n := |handles| - 1;
      Key(CommandBuffer, handles[n]) in reg.records
      && UndoneBy(FreeCall(reg, device, pool, handles), o, 0)
      == UndoneBy(FreeCall(reg, device, pool, handles[..n]), o, 0)
         + if ObjOf(reg, Key(CommandBuffer, handles[n])) == o then 1 else 0
  {
    var n := |handles| - 1;
    assert handles[n] in handles;
    var last := NativeAt(reg, Key(CommandBuffer, handles[n]));
    assert BufferNatives(reg, handles) == BufferNatives(reg, handles[..n]) + [last];
    assert multiset(BufferNatives(reg, handles)) == multiset(BufferNatives(reg, handles[..n])) + multiset{last};
  }

  /** The last of distinct handles is left by the others, and goes alone. */
  lemma LastGoesAlone(keys: set<Key>, handles: seq<Handle>)
    requires NoDup(handles) && handles != [] && KeysOfKind(CommandBuffer, handles) <= keys
    ensures var n := |handles| - 1;
      var left := keys - KeysOfKind(CommandBuffer, handles[..n]);
      && KeysOfKind(CommandBuffer, handles[..n]) <= keys && Key(CommandBuffer, handles[n]) in left
      && keys - KeysOfKind(CommandBuffer, handles) == left - {Key(CommandBuffer, handles[n])}
  {
    var n := |handles| - 1;
    assert handles == handles[..n] + [handles[n]];
    assert KeysOfKind(CommandBuffer, handles) ==
           KeysOfKind(CommandBuffer, handles[..n]) + {Key(CommandBuffer, handles[n])};
  }

  lemma NoneFreed(reg: Registry, keys: set<Key>, device: Handle, pool: Handle, o: Obj)
    ensures keys - KeysOfKind(CommandBuffer, []) == keys
    ensures UndoneBy(FreeCall(reg, device, pool, []), o, 0) == 0
  {
  }

  /** Distinct handles name as many objects as the call frees. */
  lemma {:induction false} FreeCounts(reg: Registry, keys: set<Key>, device: Handle, pool: Handle,
          handles: seq<Handle>, o: Obj)
    requires keys <= reg.records.Keys && BuffersIn(reg, device, pool, handles) && NoDup(handles)
    requires KeysOfKind(CommandBuffer, handles) <= keys
    ensures |KeysOf(reg, keys, o)| == |KeysOf(reg, keys - KeysOfKind(CommandBuffer, handles), o)|
                                      + UndoneBy(FreeCall(reg, device, pool, handles), o, 0)
    decreases |handles|
  {
    hide KeysOf, ObjOf, UndoneBy, FreeCall;
    if handles == [] {
      NoneFreed(reg, keys, device, pool, o);
    } else {
      var n := |handles| - 1;
      LastGoesAlone(keys, handles);
      FreeCounts(reg, keys, device, pool, handles[..n], o);
      FreeSplits(reg, device, pool, handles, o);
      FreeOne(reg, keys - KeysOfKind(CommandBuffer, handles[..n]), Key(CommandBuffer, handles[n]), o);
    }
  }

}
