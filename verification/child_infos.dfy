/**
 * The create-infos of a device's objects: decoded from guest memory, rebuilt as the native
 * structures, and read back through the native pointers.
 */
module ChildInfos {
  import opened Results
  import opened Registries
  import opened Delivery
  import opened GuestBlocks
  import opened CreateInfos

  const FLAT_SIZE: nat := 16
  const BUFFER_SIZE: nat := 32
  const IMAGE_SIZE: nat := 72

  /** What the guest asks for; indices is a run of 32-bit queue family indices. */
  datatype ChildInfo =
    | FlagsInfo(flags: nat)    // semaphores and fences
    | PoolInfo(flags: nat, family: nat)
    | MemoryInfo(size: nat, typeIndex: nat)
    | BufferInfo(flags: nat, usage: nat, sharing: nat, size: nat, indices: seq<Byte>)
    | ImageInfo(flags: nat, imageType: nat, format: nat, mipLevels: nat, arrayLayers: nat, samples: nat, tiling: nat,
                usage: nat, sharing: nat, layout: nat, width: nat, height: nat, depth: nat, indices: seq<Byte>)
    | CodeInfo(shader: ShaderInfo)

  /** What the driver is given; None is the null pointer. */
  datatype NativeChild =
    | NativeFlags(flags: nat)
    | NativePool(flags: nat, family: nat)
    | NativeMemory(size: nat, typeIndex: nat)
    | NativeBuffer(flags: nat, size: nat, usage: nat, sharing: nat, indexCount: nat, indices: Option<seq<Byte>>)
    | NativeImage(flags: nat, imageType: nat, format: nat, width: nat, height: nat, depth: nat, mipLevels: nat,
                  arrayLayers: nat, samples: nat, tiling: nat, usage: nat, sharing: nat,
                  indexCount: nat, indices: Option<seq<Byte>>, layout: nat)
    | NativeShader(flags: nat, codeSize: nat, code: seq<Byte>)

  // ---- Decoding --------------------------------------------------------------------------

  /** Whether a kind's create-info, and the queue family indices it points to, can be read. */
  predicate ChildReadable(k: Kind, mem: seq<Byte>, a: nat) {
    match k
    case ShaderModule => ShaderReadable(mem, a)
    case Buffer =>
      && ObjectReadable(mem, a, BUFFER_SIZE)
      && ArrayReadable(mem, U64At(mem, a + 24), U32At(mem, a + 12), WORD_SIZE)
    case Image =>
      && ObjectReadable(mem, a, IMAGE_SIZE)
      && ArrayReadable(mem, U64At(mem, a + 64), U32At(mem, a + 56), WORD_SIZE)
    case _ => ObjectReadable(mem, a, FLAT_SIZE)
  }

  function IndicesAt(mem: seq<Byte>, count: nat, address: nat): seq<Byte>
    requires ArrayReadable(mem, address, count, WORD_SIZE)
  {
    if count == 0 then [] else mem[address..address + count * WORD_SIZE]
  }

  function ChildOf(k: Kind, mem: seq<Byte>, a: nat): ChildInfo
    requires ChildReadable(k, mem, a)
  {
    match k
    case ShaderModule => CodeInfo(ShaderOf(mem, a))
    case Buffer =>
      BufferInfo(U32At(mem, a), U32At(mem, a + 4), U32At(mem, a + 8), U64At(mem, a + 16),
                 IndicesAt(mem, U32At(mem, a + 12), U64At(mem, a + 24)))
    case Image =>
      ImageInfo(U32At(mem, a), U32At(mem, a + 4), U32At(mem, a + 8), U32At(mem, a + 12), U32At(mem, a + 16),
                U32At(mem, a + 20), U32At(mem, a + 24), U32At(mem, a + 28), U32At(mem, a + 32), U32At(mem, a + 36),
                U32At(mem, a + 40), U32At(mem, a + 44), U32At(mem, a + 48),
                IndicesAt(mem, U32At(mem, a + 56), U64At(mem, a + 64)))
    case CommandPool => PoolInfo(U32At(mem, a), U32At(mem, a + 4))
    case Memory => MemoryInfo(U64At(mem, a), U32At(mem, a + 8))
    case _ => FlagsInfo(U32At(mem, a))
  }

  /** What a record keeps of its create-info: a pool's queue family; a memory's size and type index. */
  function WordsOf(info: ChildInfo): (nat, nat) {
    match info
    case PoolInfo(_, family) => (family, 0)
    case MemoryInfo(size, typeIndex) => (size, typeIndex)
    case _ => (0, 0)
  }

  // ---- What the driver sees -----------------------------------------------------------------

  /** The indices behind a native pointer: as many words as the count says; nothing is there behind null. */
  function SeenIndices(count: nat, indices: Option<seq<Byte>>): Option<seq<Byte>> {
    if count == 0 then Some([])
    else if indices.None? || count * WORD_SIZE > |indices.value| then None
    else Some(indices.value[..count * WORD_SIZE])
  }

  /** The driver's reading of a native structure, if its pointers allow one. */
  function Seen(native: NativeChild): Option<ChildInfo> {
    match native
    case NativeFlags(flags) => Some(FlagsInfo(flags))
    case NativePool(flags, family) => Some(PoolInfo(flags, family))
    case NativeMemory(size, typeIndex) => Some(MemoryInfo(size, typeIndex))
    case NativeBuffer(flags, size, usage, sharing, count, indices) =>
      (match SeenIndices(count, indices)
       case None => None
       case Some(seen) => Some(BufferInfo(flags, usage, sharing, size, seen)))
    case NativeImage(flags, imageType, format, width, height, depth, mips, layers, samples, tiling, usage, sharing,
                     count, indices, layout) =>
      (match SeenIndices(count, indices)
       case None => None
       case Some(seen) => Some(ImageInfo(flags, imageType, format, mips, layers, samples, tiling, usage, sharing,
                                         layout, width, height, depth, seen)))
    case NativeShader(flags, size, code) =>
      if size > |code| then None else Some(CodeInfo(ShaderInfo(flags, code[..size])))
  }

  /** Each field of the native structure is read as what it says. */
  lemma SeenFieldByField(native: NativeChild)
    requires Seen(native).Some?
    ensures var info := Seen(native).value;
      match native
      case NativeFlags(flags) => info.FlagsInfo? && info.flags == flags
      case NativePool(flags, family) => info.PoolInfo? && info.flags == flags && info.family == family
      case NativeMemory(size, typeIndex) => info.MemoryInfo? && info.size == size && info.typeIndex == typeIndex
      case NativeBuffer(_, _, _, _, _, _) =>
        && info.BufferInfo? && info.flags == native.flags && info.size == native.size && info.usage == native.usage
        && info.sharing == native.sharing && |info.indices| == native.indexCount * WORD_SIZE
      case NativeImage(_, _, _, _, _, _, _, _, _, _, _, _, _, _, _) =>
        && info.ImageInfo? && info.flags == native.flags && info.imageType == native.imageType
        && info.format == native.format && info.mipLevels == native.mipLevels && info.samples == native.samples
        && info.arrayLayers == native.arrayLayers && info.tiling == native.tiling && info.usage == native.usage
        && info.sharing == native.sharing && info.layout == native.layout && info.width == native.width
        && info.height == native.height && info.depth == native.depth
        && |info.indices| == native.indexCount * WORD_SIZE
      case NativeShader(flags, size, _) =>
        info.CodeInfo? && info.shader.flags == flags && |info.shader.code| == size
  {
  }

  // ---- The builders ---------------------------------------------------------------------------

  /** The queue family indices, read into storage of their own. */
  method ReadIndices(mem: seq<Byte>, count: nat, address: nat) returns (storage: Option<seq<Byte>>)
    ensures storage.Some? <==> ArrayReadable(mem, address, count, WORD_SIZE)
    ensures storage.Some? ==> storage.value == IndicesAt(mem, count, address)
  {
    if count == 0 {
      return Some([]);
    }
    if address == 0 {
      return None;
    }
    storage := PlainRead(mem, address, count * WORD_SIZE);
  }

  function OrNull(storage: seq<Byte>): Option<seq<Byte>> {
    if storage == [] then None else Some(storage)
  }

  lemma StoredIsSeen(count: nat, storage: seq<Byte>)
    requires |storage| == count * WORD_SIZE
    ensures SeenIndices(count, OrNull(storage)) == Some(storage)
  {
    assert storage[..count * WORD_SIZE] == storage;
  }

  method BuildBufferCreateInfo(mem: seq<Byte>, a: nat) returns (native: Option<NativeChild>)
    ensures native.Some? <==> ChildReadable(Buffer, mem, a)
    ensures native.Some? ==> Seen(native.value) == Some(ChildOf(Buffer, mem, a))
  {
    if !ObjectReadable(mem, a, BUFFER_SIZE) {
      return None;
    }
    var count := U32At(mem, a + 12);
    var storage := ReadIndices(mem, count, U64At(mem, a + 24));
    if storage.None? {
      return None;
    }
    StoredIsSeen(count, storage.value);
    native := Some(NativeBuffer(U32At(mem, a), U64At(mem, a + 16), U32At(mem, a + 4), U32At(mem, a + 8),
                                count, OrNull(storage.value)));
  }

  method BuildImageCreateInfo(mem: seq<Byte>, a: nat) returns (native: Option<NativeChild>)
    ensures native.Some? <==> ChildReadable(Image, mem, a)
    ensures native.Some? ==> Seen(native.value) == Some(ChildOf(Image, mem, a))
  {
    if !ObjectReadable(mem, a, IMAGE_SIZE) {
      return None;
    }
    var count := U32At(mem, a + 56);
    var storage := ReadIndices(mem, count, U64At(mem, a + 64));
    if storage.None? {
      return None;
    }
    StoredIsSeen(count, storage.value);
    hide U32At, U64At, IndicesAt;
    native := Some(NativeImage(U32At(mem, a), U32At(mem, a + 4), U32At(mem, a + 8),
                               U32At(mem, a + 40), U32At(mem, a + 44), U32At(mem, a + 48), U32At(mem, a + 12),
                               U32At(mem, a + 16), U32At(mem, a + 20), U32At(mem, a + 24), U32At(mem, a + 28),
                               U32At(mem, a + 32), count, OrNull(storage.value), U32At(mem, a + 36)));
  }

  method BuildShaderCreateInfo(mem: seq<Byte>, a: nat) returns (native: Option<NativeChild>)
    ensures native.Some? <==> ChildReadable(ShaderModule, mem, a)
    ensures native.Some? ==> Seen(native.value) == Some(ChildOf(ShaderModule, mem, a))
  {
    var info := BuildShaderModuleCreateInfo(mem, a);
    if info.None? {
      return None;
    }
    assert info.value.code[..|info.value.code|] == info.value.code;
    native := Some(NativeShader(info.value.flags, |info.value.code|, info.value.code));
  }

  method BuildFlatCreateInfo(k: Kind, mem: seq<Byte>, a: nat) returns (native: Option<NativeChild>)
    requires k != Buffer && k != Image && k != ShaderModule
    ensures native.Some? <==> ChildReadable(k, mem, a)
    ensures native.Some? ==> Seen(native.value) == Some(ChildOf(k, mem, a))
  {
    hide U32At, U64At;
    if !ObjectReadable(mem, a, FLAT_SIZE) {
      native := None;
    } else if k == CommandPool {
      native := Some(NativePool(U32At(mem, a), U32At(mem, a + 4)));
    } else if k == Memory {
      native := Some(NativeMemory(U64At(mem, a), U32At(mem, a + 8)));
    } else {
      native := Some(NativeFlags(U32At(mem, a)));
    }
  }

  /**
   * The builder of each kind: it succeeds iff what it needs can be read, and the driver then
   * sees what the guest wrote.
   */
  method BuildChildCreateInfo(k: Kind, mem: seq<Byte>, a: nat) returns (native: Option<NativeChild>)
    ensures native.Some? <==> ChildReadable(k, mem, a)
    ensures native.Some? ==> Seen(native.value) == Some(ChildOf(k, mem, a))
  {
    hide ChildReadable, ChildOf, Seen;
    if k == Buffer {
      native := BuildBufferCreateInfo(mem, a);
    } else if k == Image {
      native := BuildImageCreateInfo(mem, a);
    } else if k == ShaderModule {
      native := BuildShaderCreateInfo(mem, a);
    } else {
      native := BuildFlatCreateInfo(k, mem, a);
    }
  }

  /** The record is filled from the native structure. */
  function KeptWords(native: NativeChild): (nat, nat) {
    match native
    case NativePool(_, family) => (family, 0)
    case NativeMemory(size, typeIndex) => (size, typeIndex)
    case _ => (0, 0)
  }

  /** A pool's record keeps its queue family, a memory's its size and type, as they lie in guest memory. */
  lemma KeptFromGuest(k: Kind, mem: seq<Byte>, a: nat)
    requires Creatable(k) && ChildReadable(k, mem, a)
    ensures var (word0, word1) := WordsOf(ChildOf(k, mem, a));
      if k == Memory then word0 == U64At(mem, a) && word1 == U32At(mem, a + 8)
      else word0 == (if k == CommandPool then U32At(mem, a + 4) else 0) && word1 == 0
  {
    hide U32At, U64At, IndicesAt, ShaderOf;
  }

  lemma KeptIsSeen(native: NativeChild)
    requires Seen(native).Some?
    ensures KeptWords(native) == WordsOf(Seen(native).value)
  {
  }

  // ---- Round trips --------------------------------------------------------------------------------

  /** Consecutive 32-bit fields. */
  function Words(a: nat, words: seq<nat>): (pieces: seq<Piece>)
    ensures |pieces| == |words|
  {
    seq(|words|, i requires 0 <= i < |words| => Field32(a + 4 * i, words[i]))
  }

  lemma WordReads(mem: seq<Byte>, a: nat, words: seq<nat>, i: nat, at: nat)
    requires Holds(mem, Words(a, words)) && i < |words| && words[i] < U32 && at == a + 4 * i
    ensures at + 4 <= |mem| && U32At(mem, at) == words[i]
  {
    assert Words(a, words)[i] in Words(a, words);
    Field32Reads(mem, at, words[i]);
  }

  function ImageWords(info: ChildInfo): seq<nat>
    requires info.ImageInfo?
  {
    [info.flags, info.imageType, info.format, info.mipLevels, info.arrayLayers, info.samples, info.tiling,
     info.usage, info.sharing, info.layout, info.width, info.height, info.depth, 0, |info.indices| / WORD_SIZE, 0]
  }

  /** How a guest lays a create-info out at a, its indices or code at at. */
  function ChildPieces(info: ChildInfo, a: nat, at: nat): seq<Piece> {
    match info
    case FlagsInfo(flags) => Words(a, [flags, 0, 0, 0])
    case PoolInfo(flags, family) => Words(a, [flags, family, 0, 0])
    case MemoryInfo(size, typeIndex) => Words(a + 8, [typeIndex, 0]) + [Field64(a, size)]
    case BufferInfo(flags, usage, sharing, size, indices) =>
      Words(a, [flags, usage, sharing, |indices| / WORD_SIZE])
      + [Field64(a + 16, size), Field64(a + 24, at), Piece(at, indices)]
    case ImageInfo(_, _, _, _, _, _, _, _, _, _, _, _, _, indices) =>
      Words(a, ImageWords(info)) + [Field64(a + 64, at), Piece(at, indices)]
    case CodeInfo(shader) => ShaderPieces(a, at, shader)
  }

  /** The info is one of the kind, and its fields have their widths. */
  predicate Sized(k: Kind, info: ChildInfo) {
    match info
    case FlagsInfo(flags) => (k == Semaphore || k == Fence) && flags < U32
    case PoolInfo(flags, family) => k == CommandPool && flags < U32 && family < U32
    case MemoryInfo(size, typeIndex) => k == Memory && size < U64 && typeIndex < U32
    case BufferInfo(flags, usage, sharing, size, indices) =>
      && k == Buffer && flags < U32 && usage < U32 && sharing < U32 && size < U64
      && |indices| % WORD_SIZE == 0 && |indices| / WORD_SIZE < U32
    case ImageInfo(flags, imageType, format, mips, layers, samples, tiling, usage, sharing, layout,
                   width, height, depth, indices) =>
      && k == Image && flags < U32 && imageType < U32 && format < U32 && mips < U32 && layers < U32 && samples < U32
      && tiling < U32 && usage < U32 && sharing < U32 && layout < U32 && width < U32 && height < U32 && depth < U32
      && |indices| % WORD_SIZE == 0 && |indices| / WORD_SIZE < U32
    case CodeInfo(shader) => k == ShaderModule && shader.flags < U32 && |shader.code| < U64
  }

  /** What the builders insist on: code of whole words, and no null pointer where there is something to read. */
  predicate Acceptable(info: ChildInfo, at: nat) {
    match info
    case BufferInfo(_, _, _, _, indices) => indices == [] || at != 0
    case ImageInfo(_, _, _, _, _, _, _, _, _, _, _, _, _, indices) => indices == [] || at != 0
    case CodeInfo(shader) => at != 0 && shader.code != [] && |shader.code| % WORD_SIZE == 0
    case _ => true
  }

  lemma HoldsParts(mem: seq<Byte>, p: seq<Piece>, q: seq<Piece>)
    requires Holds(mem, p + q)
    ensures Holds(mem, p) && Holds(mem, q)
  {
    forall x | x in p ensures At(mem, x) {
      assert x in p + q;
    }
    forall x | x in q ensures At(mem, x) {
      assert x in p + q;
    }
  }

  lemma IndicesRead(mem: seq<Byte>, at: nat, indices: seq<Byte>)
    requires At(mem, Piece(at, indices)) && |indices| % WORD_SIZE == 0
    ensures ArrayReadable(mem, at, |indices| / WORD_SIZE, WORD_SIZE) <==> indices == [] || at != 0
    ensures ArrayReadable(mem, at, |indices| / WORD_SIZE, WORD_SIZE) ==>
            IndicesAt(mem, |indices| / WORD_SIZE, at) == indices
  {
    assert |indices| / WORD_SIZE * WORD_SIZE == |indices|;
  }

  lemma BufferReads(mem: seq<Byte>, a: nat, at: nat, info: ChildInfo)
    requires info.BufferInfo? && a != 0 && at < U64 && Sized(Buffer, info) && Holds(mem, ChildPieces(info, a, at))
    ensures ChildReadable(Buffer, mem, a) <==> Acceptable(info, at)
    ensures ChildReadable(Buffer, mem, a) ==> ChildOf(Buffer, mem, a) == info
  {
    hide Words, U32At, U64At, Field64, At, IndicesAt, ArrayReadable;
    var words := [info.flags, info.usage, info.sharing, |info.indices| / WORD_SIZE];
    HoldsParts(mem, Words(a, words), [Field64(a + 16, info.size), Field64(a + 24, at), Piece(at, info.indices)]);
    PairAndTail(mem, a + 16, info.size, a + 24, at, info.indices);
    hide Holds;
    WordReads(mem, a, words, 0, a);
    WordReads(mem, a, words, 1, a + 4);
    WordReads(mem, a, words, 2, a + 8);
    WordReads(mem, a, words, 3, a + 12);
    IndicesRead(mem, at, info.indices);
  }

  lemma PairAndTail(mem: seq<Byte>, a: nat, m: nat, b: nat, at: nat, tail: seq<Byte>)
    requires Holds(mem, [Field64(a, m), Field64(b, at), Piece(at, tail)]) && m < U64 && at < U64
    ensures a + 8 <= |mem| && U64At(mem, a) == m && b + 8 <= |mem| && U64At(mem, b) == at && At(mem, Piece(at, tail))
  {
    var pieces := [Field64(a, m), Field64(b, at), Piece(at, tail)];
    assert At(mem, pieces[0]) && At(mem, pieces[1]) && At(mem, pieces[2]);
    Field64Reads(mem, a, m);
    Field64Reads(mem, b, at);
  }

  lemma TailOf(mem: seq<Byte>, b: nat, at: nat, tail: seq<Byte>)
    requires Holds(mem, [Field64(b, at), Piece(at, tail)]) && at < U64
    ensures b + 8 <= |mem| && U64At(mem, b) == at && At(mem, Piece(at, tail))
  {
    var pieces := [Field64(b, at), Piece(at, tail)];
    assert At(mem, pieces[0]) && At(mem, pieces[1]);
    Field64Reads(mem, b, at);
  }

  lemma ImageWordsBegin(mem: seq<Byte>, a: nat, info: ChildInfo)
    requires info.ImageInfo? && Sized(Image, info) && Holds(mem, Words(a, ImageWords(info)))
    ensures a + 28 <= |mem|
    ensures U32At(mem, a) == info.flags && U32At(mem, a + 4) == info.imageType && U32At(mem, a + 8) == info.format
    ensures U32At(mem, a + 12) == info.mipLevels && U32At(mem, a + 16) == info.arrayLayers
    ensures U32At(mem, a + 20) == info.samples && U32At(mem, a + 24) == info.tiling
  {
    hide Words, U32At, Holds;
    var words := ImageWords(info);
    WordReads(mem, a, words, 0, a);
    WordReads(mem, a, words, 1, a + 4);
    WordReads(mem, a, words, 2, a + 8);
    WordReads(mem, a, words, 3, a + 12);
    WordReads(mem, a, words, 4, a + 16);
    WordReads(mem, a, words, 5, a + 20);
    WordReads(mem, a, words, 6, a + 24);
  }

  lemma ImageWordsEnd(mem: seq<Byte>, a: nat, info: ChildInfo)
    requires info.ImageInfo? && Sized(Image, info) && Holds(mem, Words(a, ImageWords(info)))
    ensures a + 60 <= |mem|
    ensures U32At(mem, a + 28) == info.usage && U32At(mem, a + 32) == info.sharing && U32At(mem, a + 36) == info.layout
    ensures U32At(mem, a + 40) == info.width && U32At(mem, a + 44) == info.height && U32At(mem, a + 48) == info.depth
    ensures U32At(mem, a + 56) == |info.indices| / WORD_SIZE
  {
    hide Words, U32At, Holds;
    var words := ImageWords(info);
    WordReads(mem, a, words, 7, a + 28);
    WordReads(mem, a, words, 8, a + 32);
    WordReads(mem, a, words, 9, a + 36);
    WordReads(mem, a, words, 10, a + 40);
    WordReads(mem, a, words, 11, a + 44);
    WordReads(mem, a, words, 12, a + 48);
    WordReads(mem, a, words, 14, a + 56);
  }

  lemma ImageReads(mem: seq<Byte>, a: nat, at: nat, info: ChildInfo)
    requires info.ImageInfo? && a != 0 && at < U64 && Sized(Image, info) && Holds(mem, ChildPieces(info, a, at))
    ensures ChildReadable(Image, mem, a) <==> Acceptable(info, at)
    ensures ChildReadable(Image, mem, a) ==> ChildOf(Image, mem, a) == info
  {
    hide Words, ImageWords, U32At, U64At, Field64, At, IndicesAt, ArrayReadable;
    HoldsParts(mem, Words(a, ImageWords(info)), [Field64(a + 64, at), Piece(at, info.indices)]);
    TailOf(mem, a + 64, at, info.indices);
    hide Holds, ChildPieces;
    ImageWordsBegin(mem, a, info);
    ImageWordsEnd(mem, a, info);
    IndicesRead(mem, at, info.indices);
  }

  lemma FlatReads(k: Kind, mem: seq<Byte>, a: nat, at: nat, info: ChildInfo)
    requires info.FlagsInfo? || info.PoolInfo? || info.MemoryInfo?
    requires a != 0 && Sized(k, info) && Holds(mem, ChildPieces(info, a, at))
    ensures ChildReadable(k, mem, a) && ChildOf(k, mem, a) == info
  {
    hide Words, U32At, U64At, Field64, At;
    match info
    case FlagsInfo(flags) =>
      WordReads(mem, a, [flags, 0, 0, 0], 0, a);
      WordReads(mem, a, [flags, 0, 0, 0], 3, a + 12);
    case PoolInfo(flags, family) =>
      WordReads(mem, a, [flags, family, 0, 0], 0, a);
      WordReads(mem, a, [flags, family, 0, 0], 1, a + 4);
      WordReads(mem, a, [flags, family, 0, 0], 3, a + 12);
    case MemoryInfo(size, typeIndex) =>
      HoldsParts(mem, Words(a + 8, [typeIndex, 0]), [Field64(a, size)]);
      SizeReads(mem, a, size);
      WordReads(mem, a + 8, [typeIndex, 0], 0, a + 8);
      WordReads(mem, a + 8, [typeIndex, 0], 1, a + 12);
  }

  lemma SizeReads(mem: seq<Byte>, a: nat, size: nat)
    requires Holds(mem, [Field64(a, size)]) && size < U64
    ensures a + 8 <= |mem| && U64At(mem, a) == size
  {
    assert At(mem, [Field64(a, size)][0]);
    Field64Reads(mem, a, size);
  }

  lemma ChildReadsIff(k: Kind, mem: seq<Byte>, a: nat, at: nat, info: ChildInfo)
    requires a != 0 && at < U64 && Sized(k, info) && Holds(mem, ChildPieces(info, a, at))
    ensures ChildReadable(k, mem, a) <==> Acceptable(info, at)
    ensures ChildReadable(k, mem, a) ==> ChildOf(k, mem, a) == info
  {
    match info
    case BufferInfo(_, _, _, _, _) => BufferReads(mem, a, at, info);
    case ImageInfo(_, _, _, _, _, _, _, _, _, _, _, _, _, _) => ImageReads(mem, a, at, info);
    case CodeInfo(shader) => ShaderReadsIff(mem, a, at, shader);
    case _ => FlatReads(k, mem, a, at, info);
  }

  /** A create-info written to disjoint ranges is accepted iff the builders' conditions hold, and decodes to itself. */
  lemma ChildRoundTripIff(k: Kind, mem: seq<Byte>, a: nat, at: nat, info: ChildInfo)
    requires a != 0 && at < U64 && Sized(k, info)
    requires Fits(|mem|, ChildPieces(info, a, at)) && Disjoint(ChildPieces(info, a, at))
    ensures var stored := StoreAll(mem, ChildPieces(info, a, at));
      && (ChildReadable(k, stored, a) <==> Acceptable(info, at))
      && (ChildReadable(k, stored, a) ==> ChildOf(k, stored, a) == info)
  {
    hide Fits, Disjoint, ChildPieces, Sized, Acceptable, ChildReadable, ChildOf, StoreAll;
    StoredPiecesHold(mem, ChildPieces(info, a, at));
    ChildReadsIff(k, StoreAll(mem, ChildPieces(info, a, at)), a, at, info);
  }
}
