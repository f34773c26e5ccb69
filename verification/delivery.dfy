/**
 * The delivery modes of guest memory as checks and copies on byte sequences, and
 * their agreement with one plain bounded byte array.
 */
module Delivery {
  import opened Results

  type Byte = x: nat | x < 256

  const DELIVERY_COPY: nat := 1
  const DELIVERY_MMAP_FULL_PROTECTION: nat := 2
  const DELIVERY_MMAP_PARTIAL_PROTECTION: nat := 3
  const DELIVERY_MMAP_DYNAMIC_BOUNDS: nat := 4

  /**
   * What a descriptor says at the moment of an access: dynamicLength is the value in
   * the length cell, if there is one, and hostLength the bound the host callbacks use.
   */
  datatype View = View(state: nat, byteLength: nat, partialLimit: nat, mapped: bool, dynamicLength: Option<nat>,
          hostLength: nat)

  /** Unsigned 64-bit subtraction. */
  function Sub64(a: nat, b: nat): (r: nat)
    requires a < U64 && b < U64
  {
    (a + U64 - b) % U64
  }

  predicate RangeIsValid(byteLength: nat, address: nat, size: nat)
    requires byteLength < U64
  {
    address <= byteLength && size <= Sub64(byteLength, address)
  }

  /** The check never wraps: it is the comparison over unbounded integers. */
  lemma RangeCheckIsExact(byteLength: nat, address: nat, size: nat)
    requires byteLength < U64
    ensures RangeIsValid(byteLength, address, size) <==> address + size <= byteLength
  {
    if address <= byteLength {
      assert (byteLength + U64 - address) % U64 == byteLength - address by {
        assert byteLength + U64 - address == U64 + (byteLength - address);
      }
    }
  }

  ghost predicate Sized(v: View) {
    && v.byteLength < U64 && v.partialLimit < U64 && v.hostLength < U64
    && (v.dynamicLength.Some? ==> v.dynamicLength.value < U64)
  }

  predicate DirectRangeIsValid(v: View, address: nat, size: nat)
    requires Sized(v)
  {
    if v.state == DELIVERY_MMAP_FULL_PROTECTION then RangeIsValid(v.byteLength, address, size)
    else if v.state == DELIVERY_MMAP_PARTIAL_PROTECTION then
      RangeIsValid(v.partialLimit, address, size) || RangeIsValid(v.byteLength, address, size)
    else if v.state == DELIVERY_MMAP_DYNAMIC_BOUNDS then
      v.dynamicLength.Some? && RangeIsValid(v.dynamicLength.value, address, size)
    else false
  }

  /** Whether an access of a non-zero size goes through. */
  predicate Accepts(v: View, address: nat, size: nat)
    requires Sized(v)
  {
    if v.state == DELIVERY_COPY then address + size <= v.hostLength
    else v.mapped && DirectRangeIsValid(v, address, size)
  }

  /** Every accepted range lies in the bytes behind the view. */
  ghost predicate Covered(v: View, stored: nat) {
    if v.state == DELIVERY_COPY then v.hostLength <= stored
    else if v.state == DELIVERY_MMAP_FULL_PROTECTION then v.byteLength <= stored
    else if v.state == DELIVERY_MMAP_PARTIAL_PROTECTION then v.byteLength <= stored && v.partialLimit <= stored
    else v.state == DELIVERY_MMAP_DYNAMIC_BOUNDS ==> v.dynamicLength.Some? ==> v.dynamicLength.value <= stored
  }

  lemma AcceptedIsStored(v: View, stored: nat, address: nat, size: nat)
    requires Sized(v) && Covered(v, stored) && Accepts(v, address, size)
    ensures address + size <= stored
  {
    RangeCheckIsExact(v.byteLength, address, size);
    RangeCheckIsExact(v.partialLimit, address, size);
    if v.dynamicLength.Some? {
      RangeCheckIsExact(v.dynamicLength.value, address, size);
    }
  }

  function Splice(mem: seq<Byte>, address: nat, bytes: seq<Byte>): (after: seq<Byte>)
    requires address + |bytes| <= |mem|
    ensures |after| == |mem|
    ensures after[address..address + |bytes|] == bytes
    ensures forall i :: 0 <= i < |mem| && !(address <= i < address + |bytes|) ==> after[i] == mem[i]
  {
    mem[..address] + bytes + mem[address + |bytes|..]
  }

  // ---- One access --------------------------------------------------------------

  function ViewRead(v: View, store: seq<Byte>, address: nat, size: nat): Option<seq<Byte>>
    requires Sized(v) && Covered(v, |store|)
  {
    if size == 0 then Some([])
    else if Accepts(v, address, size) then
      AcceptedIsStored(v, |store|, address, size);
      Some(store[address..address + size])
    else None
  }

  function ViewWrite(v: View, store: seq<Byte>, address: nat, bytes: seq<Byte>): Option<seq<Byte>>
    requires Sized(v) && Covered(v, |store|)
  {
    if bytes == [] then Some(store)
    else if Accepts(v, address, |bytes|) then
      AcceptedIsStored(v, |store|, address, |bytes|);
      Some(Splice(store, address, bytes))
    else None
  }

  /** Guest memory as one byte array. */
  function PlainRead(mem: seq<Byte>, address: nat, size: nat): Option<seq<Byte>> {
    if size == 0 then Some([])
    else if address + size <= |mem| then Some(mem[address..address + size]) else None
  }

  function PlainWrite(mem: seq<Byte>, address: nat, bytes: seq<Byte>): Option<seq<Byte>> {
    if bytes == [] then Some(mem)
    else if address + |bytes| <= |mem| then Some(Splice(mem, address, bytes)) else None
  }

  /** The view delivers exactly mem, which lies at the start of the bytes behind it. */
  ghost predicate Presents(v: View, store: seq<Byte>, mem: seq<Byte>) {
    && Sized(v) && |mem| <= |store| && store[..|mem|] == mem
    && (if v.state == DELIVERY_COPY then v.hostLength == |mem|
        else if v.state == DELIVERY_MMAP_FULL_PROTECTION then v.mapped && v.byteLength == |mem|
        else if v.state == DELIVERY_MMAP_PARTIAL_PROTECTION then v.mapped && v.partialLimit <= v.byteLength == |mem|
        else v.state == DELIVERY_MMAP_DYNAMIC_BOUNDS && v.mapped && v.dynamicLength == Some(|mem|))
  }

  lemma PresentedAccepts(v: View, store: seq<Byte>, mem: seq<Byte>, address: nat, size: nat)
    requires Presents(v, store, mem)
    ensures Covered(v, |store|)
    ensures Accepts(v, address, size) <==> address + size <= |mem|
  {
    RangeCheckIsExact(v.byteLength, address, size);
    RangeCheckIsExact(v.partialLimit, address, size);
    if v.dynamicLength.Some? {
      RangeCheckIsExact(v.dynamicLength.value, address, size);
    }
  }

  /** Storing into the start of some bytes is storing into what they start with. */
  lemma SpliceBegins(store: seq<Byte>, mem: seq<Byte>, address: nat, bytes: seq<Byte>)
    requires mem <= store && address + |bytes| <= |mem|
    ensures Splice(store, address, bytes)[..|mem|] == Splice(mem, address, bytes)
    ensures Splice(store, address, bytes)[|mem|..] == store[|mem|..]
  {
    var after, plain := Splice(store, address, bytes), Splice(mem, address, bytes);
    forall i | 0 <= i < |mem| ensures after[..|mem|][i] == plain[i] {
    }
    forall i | 0 <= i < |store| - |mem| ensures after[|mem|..][i] == store[|mem|..][i] {
    }
  }

  lemma SliceBegins(store: seq<Byte>, mem: seq<Byte>, address: nat, size: nat)
    requires mem <= store && address + size <= |mem|
    ensures store[address..address + size] == mem[address..address + size]
  {
    var read, plain := store[address..address + size], mem[address..address + size];
    forall i | 0 <= i < size ensures read[i] == plain[i] {
    }
  }

  lemma AccessRefines(v: View, store: seq<Byte>, mem: seq<Byte>, address: nat, size: nat, bytes: seq<Byte>)
    requires Presents(v, store, mem)
    ensures Covered(v, |store|)
    ensures ViewRead(v, store, address, size) == PlainRead(mem, address, size)
    ensures ViewWrite(v, store, address, bytes).Some? <==> PlainWrite(mem, address, bytes).Some?
    ensures PlainWrite(mem, address, bytes).Some? ==>
            var after := ViewWrite(v, store, address, bytes).value;
            Presents(v, after, PlainWrite(mem, address, bytes).value) && after[|mem|..] == store[|mem|..]
  {
    PresentedAccepts(v, store, mem, address, size);
    PresentedAccepts(v, store, mem, address, |bytes|);
    if address + size <= |mem| {
      SliceBegins(store, mem, address, size);
    }
    if address + |bytes| <= |mem| {
      SpliceBegins(store, mem, address, bytes);
    }
  }

  // ---- Whole sequences of accesses ------------------------------------------------

  datatype Access = Load(address: nat, size: nat) | Store(address: nat, bytes: seq<Byte>)

  function ViewAccess(v: View, store: seq<Byte>, a: Access): (seq<Byte>, Option<seq<Byte>>)
    requires Sized(v) && Covered(v, |store|)
  {
    match a
    case Load(address, size) => (store, ViewRead(v, store, address, size))
    case Store(address, bytes) =>
      (match ViewWrite(v, store, address, bytes)
       case Some(after) => (after, Some([]))
       case None => (store, None))
  }

  function PlainAccess(mem: seq<Byte>, a: Access): (seq<Byte>, Option<seq<Byte>>) {
    match a
    case Load(address, size) => (mem, PlainRead(mem, address, size))
    case Store(address, bytes) =>
      (match PlainWrite(mem, address, bytes)
       case Some(after) => (after, Some([]))
       case None => (mem, None))
  }

  /** Final bytes and the answer to each access in order. */
  function PlainRun(mem: seq<Byte>, accesses: seq<Access>): (seq<Byte>, seq<Option<seq<Byte>>>) {
    if accesses == [] then (mem, [])
    else
      var (before, replies) := PlainRun(mem, accesses[..|accesses| - 1]);
      var (after, reply) := PlainAccess(before, accesses[|accesses| - 1]);
      (after, replies + [reply])
  }

  function ViewRun(v: View, store: seq<Byte>, accesses: seq<Access>): (r: (seq<Byte>, seq<Option<seq<Byte>>>))
    requires Sized(v) && Covered(v, |store|)
    ensures |r.0| == |store|
  {
    if accesses == [] then (store, [])
    else
      var (before, replies) := ViewRun(v, store, accesses[..|accesses| - 1]);
      var (after, reply) := ViewAccess(v, before, accesses[|accesses| - 1]);
      (after, replies + [reply])
  }

  /**
   * Every delivery mode, over any sequence of reads and writes, gives the answers and the
   * final memory of the plain byte array, and touches no byte past it.
   */
  lemma {:induction false} DeliveryRefinesPlainMemory(v: View, store: seq<Byte>, mem: seq<Byte>, accesses: seq<Access>)
    requires Presents(v, store, mem)
    ensures Covered(v, |store|)
    ensures var (after, replies) := ViewRun(v, store, accesses);
            var (plain, plainReplies) := PlainRun(mem, accesses);
            replies == plainReplies && Presents(v, after, plain) && |plain| == |mem| && after[|mem|..] == store[|mem|..]
  {
    PresentedAccepts(v, store, mem, 0, 0);
    if accesses != [] {
      var n := |accesses| - 1;
      DeliveryRefinesPlainMemory(v, store, mem, accesses[..n]);
      var (before, _) := ViewRun(v, store, accesses[..n]);
      var (plain, _) := PlainRun(mem, accesses[..n]);
      match accesses[n]
      case Load(address, size) => AccessRefines(v, before, plain, address, size, []);
      case Store(address, bytes) => AccessRefines(v, before, plain, address, 0, bytes);
    }
  }

  /** Two modes that present the same bytes cannot be told apart. */
  lemma ModesAgree(v: View, store: seq<Byte>, w: View, other: seq<Byte>, mem: seq<Byte>, accesses: seq<Access>)
    requires Presents(v, store, mem) && Presents(w, other, mem)
    ensures Covered(v, |store|) && Covered(w, |other|)
    ensures ViewRun(v, store, accesses).1 == ViewRun(w, other, accesses).1
    ensures ViewRun(v, store, accesses).0[..|mem|] == ViewRun(w, other, accesses).0[..|mem|]
  {
    DeliveryRefinesPlainMemory(v, store, mem, accesses);
    DeliveryRefinesPlainMemory(w, other, mem, accesses);
  }

  /** Partial protection takes the larger bound: it matches the length iff its limit is no larger. */
  lemma PartialMatchesLengthIff(v: View)
    requires Sized(v) && v.state == DELIVERY_MMAP_PARTIAL_PROTECTION && v.mapped
    ensures (forall address: nat, size: nat :: Accepts(v, address, size) <==> address + size <= v.byteLength)
            <==> v.partialLimit <= v.byteLength
  {
    if v.partialLimit <= v.byteLength {
      forall address: nat, size: nat ensures Accepts(v, address, size) <==> address + size <= v.byteLength {
        RangeCheckIsExact(v.byteLength, address, size);
        RangeCheckIsExact(v.partialLimit, address, size);
      }
    } else {
      RangeCheckIsExact(v.partialLimit, 0, v.partialLimit);
      assert Accepts(v, 0, v.partialLimit);
    }
  }
}
