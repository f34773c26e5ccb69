/**
 * Create-info trees: decoded from pointer-linked guest structures, and rebuilt as the
 * native structures handed to the driver.
 */
module CreateInfos {
  import opened Results
  import opened Sequences
  import opened Delivery
  import opened GuestBlocks

  // ---- Instances ---------------------------------------------------------------------

  datatype AppInfo = AppInfo(name: Text, version: nat, engine: Text, engineVersion: nat, apiVersion: nat)

  datatype InstanceInfo = InstanceInfo(flags: nat, app: Option<AppInfo>, layers: seq<Text>, extensions: seq<Text>)

  const APP_SIZE: nat := 48
  const INSTANCE_SIZE: nat := 48

  predicate AppReadable(mem: seq<Byte>, a: nat) {
    ObjectReadable(mem, a, APP_SIZE) && TextReadable(mem, a) && TextReadable(mem, a + 24)
  }

  function AppOf(mem: seq<Byte>, a: nat): AppInfo
    requires AppReadable(mem, a)
  {
    AppInfo(TextOf(mem, a), U32At(mem, a + 16), TextOf(mem, a + 24), U32At(mem, a + 40), U32At(mem, a + 44))
  }

  /** Every range the tree needs is in bounds, and no pointer it needs is null. */
  predicate InstanceReadable(mem: seq<Byte>, a: nat) {
    && ObjectReadable(mem, a, INSTANCE_SIZE)
    && (U64At(mem, a + 16) != 0 ==> AppReadable(mem, U64At(mem, a + 16)))
    && TextsReadable(mem, U64At(mem, a + 24), U32At(mem, a + 4))
    && TextsReadable(mem, U64At(mem, a + 32), U32At(mem, a + 8))
  }

  function InstanceOf(mem: seq<Byte>, a: nat): InstanceInfo
    requires InstanceReadable(mem, a)
  {
    InstanceInfo(U32At(mem, a),
                 if U64At(mem, a + 16) == 0 then None else Some(AppOf(mem, U64At(mem, a + 16))),
                 TextsOf(mem, U64At(mem, a + 24), U32At(mem, a + 4)),
                 TextsOf(mem, U64At(mem, a + 32), U32At(mem, a + 8)))
  }

  /** None stands for a null pointer; a name is what the driver reads through its pointer. */
  datatype NativeApplication = NativeApplication(name: Option<Text>, version: nat, engine: Option<Text>,
          engineVersion: nat, apiVersion: nat)

  datatype NativeInstance = NativeInstance(
    flags: nat, app: Option<NativeApplication>,
    layerCount: nat, layers: Option<seq<Text>>, extensionCount: nat, extensions: Option<seq<Text>>)

  function NativeName(text: Text): Option<Text> {
    if text == [] then None else Some(CString(text))
  }

  function NativeNames(texts: seq<Text>): Option<seq<Text>> {
    if texts == [] then None else Some(MapSeq(CString, texts))
  }

  function NativeApplicationOf(app: AppInfo): NativeApplication {
    NativeApplication(NativeName(app.name), app.version, NativeName(app.engine), app.engineVersion, app.apiVersion)
  }

  function NativeInstanceOf(info: InstanceInfo): NativeInstance {
    NativeInstance(info.flags, if info.app.None? then None else Some(NativeApplicationOf(info.app.value)),
                   |info.layers|, NativeNames(info.layers), |info.extensions|, NativeNames(info.extensions))
  }

  method BuildApplicationInfo(mem: seq<Byte>, a: nat) returns (app: Option<NativeApplication>)
    ensures app.Some? <==> AppReadable(mem, a)
    ensures app.Some? ==> app.value == NativeApplicationOf(AppOf(mem, a))
  {
    if !ObjectReadable(mem, a, APP_SIZE) {
      return None;
    }
    var name := ReadStringView(mem, a);
    if name.None? {
      return None;
    }
    var engine := ReadStringView(mem, a + 24);
    if engine.None? {
      return None;
    }
    app := Some(NativeApplication(NativeName(name.value), U32At(mem, a + 16),
                                  NativeName(engine.value), U32At(mem, a + 40), U32At(mem, a + 44)));
  }

  method BuildInstanceCreateInfo(mem: seq<Byte>, a: nat) returns (native: Option<NativeInstance>)
    ensures native.Some? <==> InstanceReadable(mem, a)
    ensures native.Some? ==> native.value == NativeInstanceOf(InstanceOf(mem, a))
  {
    if !ObjectReadable(mem, a, INSTANCE_SIZE) {
      return None;
    }
    var layerCount, extensionCount := U32At(mem, a + 4), U32At(mem, a + 8);
    var appAddress := U64At(mem, a + 16);
    var app: Option<NativeApplication> := None;
    if appAddress != 0 {
      app := BuildApplicationInfo(mem, appAddress);
      if app.None? {
        return None;
      }
    }
    var layers := ReadStringViewList(mem, U64At(mem, a + 24), layerCount);
    if layers.None? {
      return None;
    }
    var extensions := ReadStringViewList(mem, U64At(mem, a + 32), extensionCount);
    if extensions.None? {
      return None;
    }
    var layerPtrs := PointersTo(layers.value);
    var extensionPtrs := PointersTo(extensions.value);
    native := Some(NativeInstance(U32At(mem, a), app,
                                  layerCount, if layerPtrs == [] then None else Some(layerPtrs),
                                  extensionCount, if extensionPtrs == [] then None else Some(extensionPtrs)));
  }

  // ---- Writing an instance tree, and reading it back -----------------------------------

  datatype InstancePlace = InstancePlace(app: nat, nameAt: nat, engineAt: nat,
                                         layers: nat, layerAts: seq<nat>, extensions: nat, extensionAts: seq<nat>)

  predicate InstancePlaceable(place: InstancePlace, info: InstanceInfo) {
    && info.flags < U32
    && (info.app.Some? ==>
          var app := info.app.value;
          && 0 < place.app < U64 && Placeable(place.nameAt, app.name) && Placeable(place.engineAt, app.engine)
          && app.version < U32 && app.engineVersion < U32 && app.apiVersion < U32)
    && AllPlaceable(place.layers, place.layerAts, info.layers)
    && AllPlaceable(place.extensions, place.extensionAts, info.extensions)
  }

  function AppPieces(a: nat, place: InstancePlace, app: AppInfo): seq<Piece> {
    TextPieces(a, place.nameAt, app.name) + TextPieces(a + 24, place.engineAt, app.engine)
    + [Field32(a + 16, app.version), Field32(a + 20, 0), Field32(a + 40, app.engineVersion),
       Field32(a + 44, app.apiVersion)]
  }

  function InstanceFields(a: nat, place: InstancePlace, info: InstanceInfo): seq<Piece> {
    [Field32(a, info.flags), Field32(a + 4, |info.layers|), Field32(a + 8, |info.extensions|), Field32(a + 12, 0),
     Field64(a + 16, if info.app.Some? then place.app else 0),
     Field64(a + 24, place.layers), Field64(a + 32, place.extensions), Field64(a + 40, 0)]
  }

  function InstancePieces(a: nat, place: InstancePlace, info: InstanceInfo): seq<Piece>
    requires |place.layerAts| == |info.layers| && |place.extensionAts| == |info.extensions|
  {
    InstanceFields(a, place, info)
    + (if info.app.Some? then AppPieces(place.app, place, info.app.value) else [])
    + TextsPieces(place.layers, place.layerAts, info.layers)
    + TextsPieces(place.extensions, place.extensionAts, info.extensions)
  }

  lemma AppReads(mem: seq<Byte>, a: nat, place: InstancePlace, app: AppInfo)
    requires Holds(mem, AppPieces(a, place, app)) && a != 0
    requires Placeable(place.nameAt, app.name) && Placeable(place.engineAt, app.engine)
    requires app.version < U32 && app.engineVersion < U32 && app.apiVersion < U32
    ensures AppReadable(mem, a) && AppOf(mem, a) == app
  {
    TextReads(mem, a, place.nameAt, app.name);
    TextReads(mem, a + 24, place.engineAt, app.engine);
    Field32Reads(mem, a + 16, app.version);
    Field32Reads(mem, a + 40, app.engineVersion);
    Field32Reads(mem, a + 44, app.apiVersion);
  }

  lemma InstanceFieldsRead(mem: seq<Byte>, a: nat, place: InstancePlace, info: InstanceInfo)
    requires Holds(mem, InstanceFields(a, place, info)) && InstancePlaceable(place, info)
    ensures InBounds(mem, a, INSTANCE_SIZE)
    ensures U32At(mem, a) == info.flags && U32At(mem, a + 4) == |info.layers| && U32At(mem, a + 8) == |info.extensions|
    ensures U64At(mem, a + 16) == if info.app.Some? then place.app else 0
    ensures U64At(mem, a + 24) == place.layers && U64At(mem, a + 32) == place.extensions
  {
    var fields := InstanceFields(a, place, info);
    assert forall i :: 0 <= i < 8 ==> At(mem, fields[i]);
    assert fields[7] == Field64(a + 40, 0) && At(mem, fields[7]);
    Field32Reads(mem, a, info.flags);
    Field32Reads(mem, a + 4, |info.layers|);
    Field32Reads(mem, a + 8, |info.extensions|);
    Field64Reads(mem, a + 16, if info.app.Some? then place.app else 0);
    Field64Reads(mem, a + 24, place.layers);
    Field64Reads(mem, a + 32, place.extensions);
  }

  /** An instance tree laid out anywhere in guest memory decodes to itself. */
  lemma InstanceReads(mem: seq<Byte>, a: nat, place: InstancePlace, info: InstanceInfo)
    requires a != 0 && InstancePlaceable(place, info)
    requires Holds(mem, InstancePieces(a, place, info))
    ensures InstanceReadable(mem, a) && InstanceOf(mem, a) == info
  {
    InstanceFieldsRead(mem, a, place, info);
    if info.app.Some? {
      AppReads(mem, place.app, place, info.app.value);
    }
    TextsRead(mem, place.layers, place.layerAts, info.layers);
    TextsRead(mem, place.extensions, place.extensionAts, info.extensions);
  }

  /** Encoding into disjoint ranges of any memory, then decoding, gives the tree back. */
  lemma InstanceRoundTrip(mem: seq<Byte>, a: nat, place: InstancePlace, info: InstanceInfo)
    requires a != 0 && InstancePlaceable(place, info)
    requires Fits(|mem|, InstancePieces(a, place, info)) && Disjoint(InstancePieces(a, place, info))
    ensures var stored := StoreAll(mem, InstancePieces(a, place, info));
      InstanceReadable(stored, a) && InstanceOf(stored, a) == info
  {
    StoredPiecesHold(mem, InstancePieces(a, place, info));
    InstanceReads(StoreAll(mem, InstancePieces(a, place, info)), a, place, info);
  }

  // ---- What the driver reads ------------------------------------------------------------

  function SeenName(name: Option<Text>): Text {
    if name.Some? then name.value else []
  }

  function SeenNames(count: nat, names: Option<seq<Text>>): seq<Text> {
    if names.Some? && count <= |names.value| then names.value[..count] else []
  }

  function SeenApplication(app: NativeApplication): AppInfo {
    AppInfo(SeenName(app.name), app.version, SeenName(app.engine), app.engineVersion, app.apiVersion)
  }

  function SeenInstance(native: NativeInstance): InstanceInfo {
    InstanceInfo(native.flags, if native.app.None? then None else Some(SeenApplication(native.app.value)),
                 SeenNames(native.layerCount, native.layers), SeenNames(native.extensionCount, native.extensions))
  }

  /** Each field of the native structure is read as what it says, each list as long as its count. */
  lemma SeenInstanceFields(native: NativeInstance)
    ensures SeenInstance(native).flags == native.flags
    ensures native.layers.Some? && native.layerCount <= |native.layers.value| ==>
              SeenInstance(native).layers == native.layers.value[..native.layerCount]
    ensures native.extensions.Some? && native.extensionCount <= |native.extensions.value| ==>
              SeenInstance(native).extensions == native.extensions.value[..native.extensionCount]
    ensures native.app.Some? <==> SeenInstance(native).app.Some?
    ensures native.app.Some? ==>
              var app, seen := native.app.value, SeenInstance(native).app.value;
              && seen.version == app.version && seen.engineVersion == app.engineVersion
              && seen.apiVersion == app.apiVersion
              && (app.name.Some? ==> seen.name == app.name.value)
              && (app.engine.Some? ==> seen.engine == app.engine.value)
  {
  }

  predicate NulFree(texts: seq<Text>) {
    forall t :: t in texts ==> 0 !in t
  }

  lemma NamesSeenIff(texts: seq<Text>)
    ensures SeenNames(|texts|, NativeNames(texts)) == texts <==> NulFree(texts)
    ensures |SeenNames(|texts|, NativeNames(texts))| == |texts|
  {
    var seen := SeenNames(|texts|, NativeNames(texts));
    forall i | 0 <= i < |texts| ensures seen[i] == texts[i] <==> 0 !in texts[i] {
      CStringIsWholeIff(texts[i]);
    }
    if NulFree(texts) {
      forall i | 0 <= i < |texts| ensures seen[i] == texts[i] {
        assert texts[i] in texts;
      }
    }
  }

  /** The driver reads back the guest's tree iff no name holds a NUL, where a C string ends. */
  lemma DriverSeesInstanceIff(info: InstanceInfo)
    ensures SeenInstance(NativeInstanceOf(info)) == info <==>
            && (info.app.Some? ==> NulFree([info.app.value.name, info.app.value.engine]))
            && NulFree(info.layers) && NulFree(info.extensions)
  {
    NamesSeenIff(info.layers);
    NamesSeenIff(info.extensions);
    if info.app.Some? {
      var names := [info.app.value.name, info.app.value.engine];
      CStringIsWholeIff(names[0]);
      CStringIsWholeIff(names[1]);
      assert names[0] in names && names[1] in names;
    }
  }

  // ---- Devices ----------------------------------------------------------------------------

  const QUEUE_SIZE: nat := 24
  const DEVICE_SIZE: nat := 40
  const FEATURES_SIZE: nat := 220
  const WORD_SIZE: nat := 4

  /** priorities are opaque words; there are as many as the queue count says. */
  datatype QueueInfo = QueueInfo(flags: nat, family: nat, priorities: seq<Byte>)

  datatype DeviceInfo = DeviceInfo(flags: nat, queues: seq<QueueInfo>, extensions: seq<Text>,
          features: Option<seq<Byte>>)

  function QueueAt(queues: nat, i: nat): nat {
    queues + i * QUEUE_SIZE
  }

  predicate QueueReadable(mem: seq<Byte>, q: nat) {
    InBounds(mem, q, QUEUE_SIZE) && ArrayReadable(mem, U64At(mem, q + 16), U32At(mem, q + 8), WORD_SIZE)
  }

  function QueueOf(mem: seq<Byte>, q: nat): QueueInfo
    requires QueueReadable(mem, q)
  {
    var n, at := U32At(mem, q + 8), U64At(mem, q + 16);
    QueueInfo(U32At(mem, q), U32At(mem, q + 4), if n == 0 then [] else mem[at..at + n * WORD_SIZE])
  }

  predicate QueuesReadable(mem: seq<Byte>, queues: nat, count: nat) {
    && ArrayReadable(mem, queues, count, QUEUE_SIZE)
    && forall i: nat :: i < count ==> QueueReadable(mem, QueueAt(queues, i))
  }

  function QueuesOf(mem: seq<Byte>, queues: nat, count: nat): (infos: seq<QueueInfo>)
    requires QueuesReadable(mem, queues, count)
    ensures |infos| == count
  {
    seq(count, i requires 0 <= i < count => QueueOf(mem, QueueAt(queues, i)))
  }

  predicate DeviceReadable(mem: seq<Byte>, a: nat) {
    && ObjectReadable(mem, a, DEVICE_SIZE)
    && QueuesReadable(mem, U64At(mem, a + 16), U32At(mem, a + 4))
    && TextsReadable(mem, U64At(mem, a + 24), U32At(mem, a + 8))
    && (U64At(mem, a + 32) != 0 ==> ObjectReadable(mem, U64At(mem, a + 32), FEATURES_SIZE))
  }

  function DeviceOf(mem: seq<Byte>, a: nat): DeviceInfo
    requires DeviceReadable(mem, a)
  {
    var features := U64At(mem, a + 32);
    DeviceInfo(U32At(mem, a), QueuesOf(mem, U64At(mem, a + 16), U32At(mem, a + 4)),
               TextsOf(mem, U64At(mem, a + 24), U32At(mem, a + 8)),
               if features == 0 then None else Some(mem[features..features + FEATURES_SIZE]))
  }

  /** priorities names the storage slot the pointer leads to. */
  datatype NativeQueue = NativeQueue(flags: nat, family: nat, count: nat, priorities: Option<nat>)

  datatype NativeDevice = NativeDevice(
    flags: nat, queueCount: nat, queues: Option<seq<NativeQueue>>,
    extensionCount: nat, extensions: Option<seq<Text>>, features: Option<seq<Byte>>)

  /** The vectors that outlive the call, and the structure that points into them. */
  datatype DeviceStorage = DeviceStorage(priorities: seq<seq<Byte>>, native: NativeDevice)

  function NativeQueueOf(q: QueueInfo, slot: nat): NativeQueue {
    NativeQueue(q.flags, q.family, |q.priorities| / WORD_SIZE, if q.priorities == [] then None else Some(slot))
  }

  function NativeQueuesOf(queues: seq<QueueInfo>): (native: seq<NativeQueue>)
    ensures |native| == |queues|
  {
    seq(|queues|, i requires 0 <= i < |queues| => NativeQueueOf(queues[i], i))
  }

  function PrioritiesOf(queues: seq<QueueInfo>): (slots: seq<seq<Byte>>)
    ensures |slots| == |queues|
  {
    seq(|queues|, i requires 0 <= i < |queues| => queues[i].priorities)
  }

  function DeviceStorageOf(info: DeviceInfo): DeviceStorage {
    var queues := NativeQueuesOf(info.queues);
    DeviceStorage(PrioritiesOf(info.queues),
                  NativeDevice(info.flags, |info.queues|, if queues == [] then None else Some(queues),
                               |info.extensions|, NativeNames(info.extensions), info.features))
  }

  /** One queue's priorities; a queue without any needs no address. */
  method ReadPriorities(mem: seq<Byte>, q: nat) returns (priorities: Option<seq<Byte>>)
    requires InBounds(mem, q, QUEUE_SIZE)
    ensures priorities.Some? <==> QueueReadable(mem, q)
    ensures priorities.Some? ==> priorities.value == QueueOf(mem, q).priorities
  {
    var n, at := U32At(mem, q + 8), U64At(mem, q + 16);
    if n == 0 {
      return Some([]);
    }
    if at == 0 || !InBounds(mem, at, n * WORD_SIZE) {
      return None;
    }
    priorities := Some(mem[at..at + n * WORD_SIZE]);
  }

  lemma QueueInArray(mem: seq<Byte>, a: nat, count: nat, i: nat)
    requires i < count && InBounds(mem, a, count * QUEUE_SIZE)
    ensures InBounds(mem, QueueAt(a, i), QUEUE_SIZE)
  {
  }

  lemma QueueCount(mem: seq<Byte>, q: nat)
    requires QueueReadable(mem, q)
    ensures |QueueOf(mem, q).priorities| / WORD_SIZE == U32At(mem, q + 8)
    ensures QueueOf(mem, q).flags == U32At(mem, q) && QueueOf(mem, q).family == U32At(mem, q + 4)
  {
  }

  method BuildQueues(mem: seq<Byte>, a: nat, count: nat)
    returns (ok: bool, slots: seq<seq<Byte>>, native: seq<NativeQueue>)
    ensures ok <==> QueuesReadable(mem, a, count)
    ensures ok ==> slots == PrioritiesOf(QueuesOf(mem, a, count)) && native == NativeQueuesOf(QueuesOf(mem, a, count))
  {
    hide QueueReadable, QueueOf, QueueAt, U32At;
    slots, native := [], [];
    if !ArrayReadable(mem, a, count, QUEUE_SIZE) {
      return false, slots, native;
    }
    for i := 0 to count
      invariant |slots| == |native| == i
      invariant forall j: nat :: j < i ==>
        && QueueReadable(mem, QueueAt(a, j))
        && slots[j] == QueueOf(mem, QueueAt(a, j)).priorities
        && native[j] == NativeQueueOf(QueueOf(mem, QueueAt(a, j)), j)
    {
      var q := QueueAt(a, i);
      QueueInArray(mem, a, count, i);
      var priorities := ReadPriorities(mem, q);
      if priorities.None? {
        return false, slots, native;
      }
      QueueCount(mem, q);
      slots := slots + [priorities.value];
      native := native + [NativeQueue(U32At(mem, q), U32At(mem, q + 4), U32At(mem, q + 8),
                                      if slots[i] == [] then None else Some(i))];
    }
    ok := true;
  }

  method BuildDeviceCreateInfo(mem: seq<Byte>, a: nat) returns (storage: Option<DeviceStorage>)
    ensures storage.Some? <==> DeviceReadable(mem, a)
    ensures storage.Some? ==> storage.value == DeviceStorageOf(DeviceOf(mem, a))
  {
    if !ObjectReadable(mem, a, DEVICE_SIZE) {
      return None;
    }
    var queueCount, extensionCount := U32At(mem, a + 4), U32At(mem, a + 8);
    var ok, slots, queues := BuildQueues(mem, U64At(mem, a + 16), queueCount);
    if !ok {
      return None;
    }
    var extensions := ReadStringViewList(mem, U64At(mem, a + 24), extensionCount);
    if extensions.None? {
      return None;
    }
    var featuresAddress := U64At(mem, a + 32);
    var features: Option<seq<Byte>> := None;
    if featuresAddress != 0 {
      if !ObjectReadable(mem, featuresAddress, FEATURES_SIZE) {
        return None;
      }
      features := Some(mem[featuresAddress..featuresAddress + FEATURES_SIZE]);
    }
    var extensionPtrs := PointersTo(extensions.value);
    var nativeQueues := if queues == [] then None else Some(queues);
    var nativeExtensions := if extensionPtrs == [] then None else Some(extensionPtrs);
    storage := Some(DeviceStorage(slots, NativeDevice(U32At(mem, a), queueCount, nativeQueues,
                                                      extensionCount, nativeExtensions, features)));
  }

  datatype DevicePlace = DevicePlace(queues: nat, priorityAts: seq<nat>, extensions: nat, extensionAts: seq<nat>,
          features: nat)

  predicate QueuePlaceable(at: nat, q: QueueInfo) {
    && q.flags < U32 && q.family < U32 && at < U64 && (q.priorities != [] ==> at != 0)
    && |q.priorities| % WORD_SIZE == 0 && |q.priorities| / WORD_SIZE < U32
  }

  predicate QueuesPlaceable(queues: nat, ats: seq<nat>, infos: seq<QueueInfo>) {
    && |ats| == |infos| < U32 && queues < U64 && (infos != [] ==> queues != 0)
    && forall i :: 0 <= i < |infos| ==> QueuePlaceable(ats[i], infos[i])
  }

  predicate DevicePlaceable(place: DevicePlace, info: DeviceInfo) {
    && info.flags < U32 && QueuesPlaceable(place.queues, place.priorityAts, info.queues)
    && AllPlaceable(place.extensions, place.extensionAts, info.extensions)
    && (info.features.Some? ==> 0 < place.features < U64 && |info.features.value| == FEATURES_SIZE)
  }

  function QueuePieces(q: nat, at: nat, info: QueueInfo): seq<Piece> {
    [Field32(q, info.flags), Field32(q + 4, info.family), Field32(q + 8, |info.priorities| / WORD_SIZE),
     Field32(q + 12, 0), Field64(q + 16, at), Piece(at, info.priorities)]
  }

  function QueuesPieces(queues: nat, ats: seq<nat>, infos: seq<QueueInfo>): seq<Piece>
    requires |ats| == |infos|
  {
    if infos == [] then []
    else
      var n := |infos| - 1;
      QueuesPieces(queues, ats[..n], infos[..n]) + QueuePieces(QueueAt(queues, n), ats[n], infos[n])
  }

  function DeviceFields(a: nat, place: DevicePlace, info: DeviceInfo): seq<Piece> {
    [Field32(a, info.flags), Field32(a + 4, |info.queues|), Field32(a + 8, |info.extensions|), Field32(a + 12, 0),
     Field64(a + 16, place.queues), Field64(a + 24, place.extensions),
     Field64(a + 32, if info.features.Some? then place.features else 0)]
  }

  function DevicePieces(a: nat, place: DevicePlace, info: DeviceInfo): seq<Piece>
    requires |place.priorityAts| == |info.queues| && |place.extensionAts| == |info.extensions|
  {
    DeviceFields(a, place, info)
    + QueuesPieces(place.queues, place.priorityAts, info.queues)
    + TextsPieces(place.extensions, place.extensionAts, info.extensions)
    + (if info.features.Some? then [Piece(place.features, info.features.value)] else [])
  }

  lemma QueueIs(mem: seq<Byte>, q: nat, at: nat, info: QueueInfo)
    requires InBounds(mem, q, QUEUE_SIZE) && QueuePlaceable(at, info) && At(mem, Piece(at, info.priorities))
    requires U32At(mem, q) == info.flags && U32At(mem, q + 4) == info.family
    requires U32At(mem, q + 8) == |info.priorities| / WORD_SIZE && U64At(mem, q + 16) == at
    ensures QueueReadable(mem, q) && QueueOf(mem, q) == info
  {
    hide U32At, U64At;
    assert U32At(mem, q + 8) * WORD_SIZE == |info.priorities|;
  }

  lemma QueueReads(mem: seq<Byte>, q: nat, at: nat, info: QueueInfo)
    requires Holds(mem, QueuePieces(q, at, info)) && QueuePlaceable(at, info)
    ensures InBounds(mem, q, QUEUE_SIZE) && QueueReadable(mem, q) && QueueOf(mem, q) == info
  {
    var pieces := QueuePieces(q, at, info);
    assert forall i :: 0 <= i < 6 ==> At(mem, pieces[i]);
    assert At(mem, pieces[4]) && At(mem, pieces[5]);
    Field32Reads(mem, q, info.flags);
    Field32Reads(mem, q + 4, info.family);
    Field32Reads(mem, q + 8, |info.priorities| / WORD_SIZE);
    Field64Reads(mem, q + 16, at);
    hide QueueReadable, QueueOf, U32At, U64At, Field32, Field64;
    QueueIs(mem, q, at, info);
  }

  lemma QueuesGrow(mem: seq<Byte>, queues: nat, n: nat)
    requires queues != 0 && QueuesReadable(mem, queues, n) && QueueReadable(mem, QueueAt(queues, n))
    requires InBounds(mem, QueueAt(queues, n), QUEUE_SIZE)
    ensures QueuesReadable(mem, queues, n + 1)
    ensures QueuesOf(mem, queues, n + 1) == QueuesOf(mem, queues, n) + [QueueOf(mem, QueueAt(queues, n))]
  {
    hide QueueReadable, QueueOf;
  }

  lemma NoQueues(mem: seq<Byte>, queues: nat)
    ensures QueuesReadable(mem, queues, 0) && QueuesOf(mem, queues, 0) == []
  {
  }

  lemma QueuesPiecesSplit(mem: seq<Byte>, queues: nat, ats: seq<nat>, infos: seq<QueueInfo>)
    requires |ats| == |infos| > 0 && Holds(mem, QueuesPieces(queues, ats, infos))
    ensures var n := |infos| - 1;
      && Holds(mem, QueuesPieces(queues, ats[..n], infos[..n]))
      && Holds(mem, QueuePieces(QueueAt(queues, n), ats[n], infos[n]))
  {
    hide QueuePieces, At;
  }

  lemma {:induction false} QueuesRead(mem: seq<Byte>, queues: nat, ats: seq<nat>, infos: seq<QueueInfo>)
    requires QueuesPlaceable(queues, ats, infos) && Holds(mem, QueuesPieces(queues, ats, infos))
    ensures QueuesReadable(mem, queues, |infos|) && QueuesOf(mem, queues, |infos|) == infos
    decreases |infos|
  {
    hide QueuePlaceable, QueueAt, QueueReadable, QueuesReadable, QueueOf, QueuesOf;
    if infos == [] {
      NoQueues(mem, queues);
    } else {
      var n := |infos| - 1;
      QueuesPiecesSplit(mem, queues, ats, infos);
      hide Holds, QueuesPieces, QueuePieces;
      QueuesRead(mem, queues, ats[..n], infos[..n]);
      QueueReads(mem, QueueAt(queues, n), ats[n], infos[n]);
      QueuesGrow(mem, queues, n);
      assert infos == infos[..n] + [infos[n]];
    }
  }

  lemma DeviceFieldsRead(mem: seq<Byte>, a: nat, place: DevicePlace, info: DeviceInfo)
    requires Holds(mem, DeviceFields(a, place, info)) && DevicePlaceable(place, info)
    ensures InBounds(mem, a, DEVICE_SIZE)
    ensures U32At(mem, a) == info.flags && U32At(mem, a + 4) == |info.queues| && U32At(mem, a + 8) == |info.extensions|
    ensures U64At(mem, a + 16) == place.queues && U64At(mem, a + 24) == place.extensions
    ensures U64At(mem, a + 32) == if info.features.Some? then place.features else 0
  {
    var fields := DeviceFields(a, place, info);
    assert forall i :: 0 <= i < 7 ==> At(mem, fields[i]);
    Field32Reads(mem, a, info.flags);
    Field32Reads(mem, a + 4, |info.queues|);
    Field32Reads(mem, a + 8, |info.extensions|);
    Field64Reads(mem, a + 16, place.queues);
    Field64Reads(mem, a + 24, place.extensions);
    Field64Reads(mem, a + 32, if info.features.Some? then place.features else 0);
  }

  lemma DeviceReads(mem: seq<Byte>, a: nat, place: DevicePlace, info: DeviceInfo)
    requires a != 0 && DevicePlaceable(place, info) && Holds(mem, DevicePieces(a, place, info))
    ensures DeviceReadable(mem, a) && DeviceOf(mem, a) == info
  {
    DeviceFieldsRead(mem, a, place, info);
    QueuesRead(mem, place.queues, place.priorityAts, info.queues);
    TextsRead(mem, place.extensions, place.extensionAts, info.extensions);
    if info.features.Some? {
      assert Piece(place.features, info.features.value) in DevicePieces(a, place, info);
      assert At(mem, Piece(place.features, info.features.value));
    }
  }

  lemma DeviceRoundTrip(mem: seq<Byte>, a: nat, place: DevicePlace, info: DeviceInfo)
    requires a != 0 && DevicePlaceable(place, info)
    requires Fits(|mem|, DevicePieces(a, place, info)) && Disjoint(DevicePieces(a, place, info))
    ensures var stored := StoreAll(mem, DevicePieces(a, place, info));
      DeviceReadable(stored, a) && DeviceOf(stored, a) == info
  {
    StoredPiecesHold(mem, DevicePieces(a, place, info));
    DeviceReads(StoreAll(mem, DevicePieces(a, place, info)), a, place, info);
  }

  function SeenQueue(slots: seq<seq<Byte>>, q: NativeQueue): QueueInfo {
    QueueInfo(q.flags, q.family,
              if q.priorities.Some? && q.priorities.value < |slots| &&
                 q.count * WORD_SIZE <= |slots[q.priorities.value]|
              then slots[q.priorities.value][..q.count * WORD_SIZE] else [])
  }

  function SeenDevice(storage: DeviceStorage): DeviceInfo {
    var native := storage.native;
    var queues := if native.queues.Some? && native.queueCount <= |native.queues.value|
                  then native.queues.value[..native.queueCount] else [];
    DeviceInfo(native.flags, MapSeq(q => SeenQueue(storage.priorities, q), queues),
               SeenNames(native.extensionCount, native.extensions), native.features)
  }

  lemma SeenDeviceFields(storage: DeviceStorage, i: nat)
    ensures var (native, seen) := (storage.native, SeenDevice(storage));
      && seen.flags == native.flags && seen.features == native.features
      && (native.extensions.Some? && native.extensionCount <= |native.extensions.value| ==>
            seen.extensions == native.extensions.value[..native.extensionCount])
      && (native.queues.Some? && i < native.queueCount <= |native.queues.value| ==>
            && |seen.queues| == native.queueCount
            && seen.queues[i].flags == native.queues.value[i].flags
            && seen.queues[i].family == native.queues.value[i].family)
  {
  }

  /** Through its own slot each queue shows its own priorities. */
  lemma QueueSeen(queues: seq<QueueInfo>, i: nat)
    requires i < |queues| && |queues[i].priorities| % WORD_SIZE == 0
    ensures SeenQueue(PrioritiesOf(queues), NativeQueuesOf(queues)[i]) == queues[i]
  {
    assert |queues[i].priorities| / WORD_SIZE * WORD_SIZE == |queues[i].priorities|;
  }

  lemma QueuesSeen(info: DeviceInfo)
    requires forall q :: q in info.queues ==> |q.priorities| % WORD_SIZE == 0
    ensures SeenDevice(DeviceStorageOf(info)).queues == info.queues
  {
    var native := NativeQueuesOf(info.queues);
    var seen := MapSeq(q => SeenQueue(PrioritiesOf(info.queues), q), native);
    forall i | 0 <= i < |info.queues| ensures seen[i] == info.queues[i] {
      assert info.queues[i] in info.queues;
      QueueSeen(info.queues, i);
    }
    assert native[..|native|] == native;
  }

  /** The driver reads back the guest's tree, queue by queue; only a NUL in a name can differ. */
  lemma DriverSeesDeviceIff(info: DeviceInfo)
    requires forall q :: q in info.queues ==> |q.priorities| % WORD_SIZE == 0
    ensures SeenDevice(DeviceStorageOf(info)).queues == info.queues
    ensures SeenDevice(DeviceStorageOf(info)) == info <==> NulFree(info.extensions)
  {
    QueuesSeen(info);
    NamesSeenIff(info.extensions);
  }

  // ---- Shader modules ------------------------------------------------------------------------

  const SHADER_SIZE: nat := 24

  datatype ShaderInfo = ShaderInfo(flags: nat, code: seq<Byte>)

  predicate ShaderReadable(mem: seq<Byte>, a: nat) {
    && ObjectReadable(mem, a, SHADER_SIZE)
    && U64At(mem, a + 8) != 0 && U64At(mem, a + 8) % WORD_SIZE == 0
    && ObjectReadable(mem, U64At(mem, a + 16), U64At(mem, a + 8))
  }

  function ShaderOf(mem: seq<Byte>, a: nat): ShaderInfo
    requires ShaderReadable(mem, a)
  {
    ShaderInfo(U32At(mem, a), mem[U64At(mem, a + 16)..U64At(mem, a + 16) + U64At(mem, a + 8)])
  }

  method BuildShaderModuleCreateInfo(mem: seq<Byte>, a: nat) returns (info: Option<ShaderInfo>)
    ensures info.Some? <==> ShaderReadable(mem, a)
    ensures info.Some? ==> info.value == ShaderOf(mem, a)
  {
    if !ObjectReadable(mem, a, SHADER_SIZE) {
      return None;
    }
    var codeSize, codeAddress := U64At(mem, a + 8), U64At(mem, a + 16);
    if codeAddress == 0 || codeSize == 0 || codeSize % WORD_SIZE != 0 {
      return None;
    }
    var code := PlainRead(mem, codeAddress, codeSize / WORD_SIZE * WORD_SIZE);
    if code.None? {
      return None;
    }
    info := Some(ShaderInfo(U32At(mem, a), code.value));
  }

  function ShaderPieces(a: nat, codeAt: nat, info: ShaderInfo): seq<Piece> {
    [Field32(a, info.flags), Field32(a + 4, 0), Field64(a + 8, |info.code|), Field64(a + 16, codeAt),
     Piece(codeAt, info.code)]
  }

  /** Code decodes iff it is a non-empty run of whole words at a non-null address. */
  lemma ShaderReadsIff(mem: seq<Byte>, a: nat, codeAt: nat, info: ShaderInfo)
    requires a != 0 && info.flags < U32 && |info.code| < U64 && codeAt < U64
    requires Holds(mem, ShaderPieces(a, codeAt, info))
    ensures ShaderReadable(mem, a) <==> codeAt != 0 && info.code != [] && |info.code| % WORD_SIZE == 0
    ensures ShaderReadable(mem, a) ==> ShaderOf(mem, a) == info
  {
    var pieces := ShaderPieces(a, codeAt, info);
    assert At(mem, pieces[0]) && At(mem, pieces[2]) && At(mem, pieces[3]) && At(mem, pieces[4]);
    Field32Reads(mem, a, info.flags);
    Field64Reads(mem, a + 8, |info.code|);
    Field64Reads(mem, a + 16, codeAt);
  }

  lemma ShaderRoundTripIff(mem: seq<Byte>, a: nat, codeAt: nat, info: ShaderInfo)
    requires a != 0 && info.flags < U32 && |info.code| < U64 && codeAt < U64
    requires Fits(|mem|, ShaderPieces(a, codeAt, info)) && Disjoint(ShaderPieces(a, codeAt, info))
    ensures var stored := StoreAll(mem, ShaderPieces(a, codeAt, info));
      && (ShaderReadable(stored, a) <==> codeAt != 0 && info.code != [] && |info.code| % WORD_SIZE == 0)
      && (ShaderReadable(stored, a) ==> ShaderOf(stored, a) == info)
  {
    StoredPiecesHold(mem, ShaderPieces(a, codeAt, info));
    ShaderReadsIff(StoreAll(mem, ShaderPieces(a, codeAt, info)), a, codeAt, info);
  }

  // ---- Null pointers --------------------------------------------------------------------------

  /** No create-info is read at null, nor a list that is not empty; an application and features may be left out. */
  lemma NullsAreRefused(mem: seq<Byte>, a: nat)
    ensures !InstanceReadable(mem, 0) && !DeviceReadable(mem, 0) && !ShaderReadable(mem, 0)
    ensures InstanceReadable(mem, a) ==>
              && (U64At(mem, a + 24) == 0 ==> U32At(mem, a + 4) == 0)
              && (U64At(mem, a + 32) == 0 ==> U32At(mem, a + 8) == 0)
              && (InstanceOf(mem, a).app.None? <==> U64At(mem, a + 16) == 0)
    ensures DeviceReadable(mem, a) ==>
              && (U64At(mem, a + 16) == 0 ==> U32At(mem, a + 4) == 0)
              && (U64At(mem, a + 24) == 0 ==> U32At(mem, a + 8) == 0)
              && (DeviceOf(mem, a).features.None? <==> U64At(mem, a + 32) == 0)
    ensures ShaderReadable(mem, a) ==> U64At(mem, a + 16) != 0
  {
    hide TextReadable, QueueReadable, U32At, U64At, TextsOf, QueuesOf, AppReadable, AppOf;
  }

  /** And the driver is given null exactly for what is empty or left out. */
  lemma NullIsForNothing(info: InstanceInfo, device: DeviceInfo)
    ensures var native := NativeInstanceOf(info);
      && (native.layers.None? <==> info.layers == []) && (native.extensions.None? <==> info.extensions == [])
      && (native.app.None? <==> info.app.None?)
      && (native.app.Some? ==>
            && (native.app.value.name.None? <==> info.app.value.name == [])
            && (native.app.value.engine.None? <==> info.app.value.engine == []))
    ensures var native := DeviceStorageOf(device).native;
      && (native.queues.None? <==> device.queues == []) && (native.extensions.None? <==> device.extensions == [])
      && (native.features.None? <==> device.features.None?)
      && (native.queues.Some? ==>
            && |native.queues.value| == |device.queues|
            && forall i :: 0 <= i < |device.queues| ==>
              (native.queues.value[i].priorities.None? <==> device.queues[i].priorities == []))
  {
  }

  lemma NullPrioritiesAreRefused(mem: seq<Byte>, q: nat)
    requires QueueReadable(mem, q)
    ensures U64At(mem, q + 16) == 0 ==> U32At(mem, q + 8) == 0
  {
  }
}
