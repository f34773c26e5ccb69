/** Lists: fetched from the driver in two calls, handed to the guest through a count cell and a buffer. */
module Enumeration {
  import opened Results
  import opened Delivery
  import opened GuestBlocks
  import Lifecycle

  // ---- From the driver ---------------------------------------------------------------

  /** The driver's answer to a filling call: its status, and what it wrote into the room given. */
  datatype Filled<T> = Filled(status: int, items: seq<T>)

  /** Extension, layer and queue-family lists: the driver's second count is the list's length. */
  method ListProperties<T>(countStatus: int, room: nat, filled: Filled<T>) returns (result: int, properties: seq<T>)
    requires |filled.items| <= room
    ensures result == if countStatus < 0 || room == 0 then countStatus else filled.status
    ensures properties == if countStatus < 0 || room == 0 || filled.status < 0 then [] else filled.items
  {
    result, properties := countStatus, [];
    if result < 0 {
      return;
    }
    var count := room;
    if count != 0 {
      result, count := filled.status, |filled.items|;
      if result < 0 {
        return;
      }
    }
    for index := 0 to count
      invariant properties == filled.items[..index]
    {
      properties := properties + [filled.items[index]];
    }
  }

  function Nulls(n: nat): (nulls: seq<nat>)
    ensures |nulls| == n && forall i :: 0 <= i < n ==> nulls[i] == 0
  {
    seq(n, _ => 0)
  }

  /** Physical devices: the list keeps the length of the first count, so a shorter answer leaves null devices. */
  method ListPhysicalDevices(countStatus: int, room: nat, filled: Filled<nat>) returns (result: int, devices: seq<nat>)
    requires |filled.items| <= room
    ensures result == if countStatus < 0 || room == 0 then countStatus else filled.status
    ensures countStatus >= 0 ==> devices == filled.items + Nulls(room - |filled.items|)
    ensures countStatus >= 0 ==> (devices == filled.items <==> |filled.items| == room)
  {
    result, devices := countStatus, [];
    if result < 0 {
      return;
    }
    devices := Nulls(room);
    if room != 0 {
      result, devices := filled.status, filled.items + devices[|filled.items|..];
    }
  }

  // ---- To the guest ---------------------------------------------------------------------

  /** Equal-sized elements side by side. */
  function Flat(values: seq<seq<Byte>>): seq<Byte> {
    if values == [] then [] else Flat(values[..|values| - 1]) + values[|values| - 1]
  }

  ghost predicate Uniform(values: seq<seq<Byte>>, size: nat) {
    forall v :: v in values ==> |v| == size
  }

  lemma NextMultiple(n: nat, size: nat)
    ensures (n + 1) * size == n * size + size
  {
  }

  lemma {:induction false} FlatLength(values: seq<seq<Byte>>, size: nat)
    requires Uniform(values, size)
    ensures |Flat(values)| == |values| * size
  {
    if values != [] {
      FlatLength(values[..|values| - 1], size);
      NextMultiple(|values| - 1, size);
    }
  }

  lemma {:induction false} FlatBegins(values: seq<seq<Byte>>, k: nat)
    requires k <= |values|
    ensures Flat(values[..k]) <= Flat(values)
    decreases |values|
  {
    if k < |values| {
      var init := values[..|values| - 1];
      FlatBegins(init, k);
      assert init[..k] == values[..k];
    } else {
      assert values[..k] == values;
    }
  }

  /** The j-th element is in the j-th place. */
  lemma FlatAt(values: seq<seq<Byte>>, size: nat, j: nat)
    requires Uniform(values, size) && j < |values|
    ensures j * size + size <= |Flat(values)| && Flat(values)[j * size..j * size + size] == values[j]
  {
    assert values[..j + 1][..j] == values[..j];
    FlatLength(values[..j], size);
    FlatBegins(values, j + 1);
    assert Flat(values[..j + 1]) == Flat(values[..j]) + values[j];
    hide Flat;
    SliceAfter(Flat(values[..j]), values[j], Flat(values));
  }

  lemma SliceAfter(start: seq<Byte>, part: seq<Byte>, whole: seq<Byte>)
    requires start + part <= whole
    ensures whole[|start|..|start| + |part|] == part
  {
    assert whole[..|start| + |part|] == start + part;
  }

  function Min(a: nat, b: nat): nat {
    if a < b then a else b
  }

  /** A list's size as the code takes it: a 32-bit count. */
  function Total(values: seq<seq<Byte>>): (n: nat)
    ensures n <= |values| && n < U32 && exists wraps: nat :: |values| == wraps * U32 + n
    ensures |values| < U32 ==> n == |values|
  {
    assert |values| == |values| / U32 * U32 + |values| % U32;
    |values| % U32
  }

  /** The bytes that go into the buffer. */
  function Delivered(buffer: nat, capacity: nat, values: seq<seq<Byte>>): seq<Byte> {
    if buffer == 0 then [] else Flat(values[..Min(capacity, Total(values))])
  }

  /** Result and guest memory after handing a list over. */
  function HandedOver(mem: seq<Byte>, buffer: nat, capacity: nat, countAt: nat, values: seq<seq<Byte>>)
    : (int, seq<Byte>)
  {
    if !ObjectReadable(mem, countAt, 4) then (ERROR_GUEST_MEMORY, mem)
    else
      var counted := Splice(mem, countAt, Le(Total(values), 4));
      match PlainWrite(counted, buffer, Delivered(buffer, capacity, values))
      case None => (ERROR_GUEST_MEMORY, counted)
      case Some(after) => (if capacity < Total(values) then INCOMPLETE else SUCCESS, after)
  }

  /** A plain-memory write through the accessor. */
  method WriteBytes(guest: array<Byte>, address: nat, bytes: seq<Byte>) returns (ok: bool)
    modifies guest
    ensures ok <==> PlainWrite(old(guest[..]), address, bytes).Some?
    ensures guest[..] == if ok then PlainWrite(old(guest[..]), address, bytes).value else old(guest[..])
  {
    ok := bytes == [] || address + |bytes| <= guest.Length;
    if ok && bytes != [] {
      forall i | 0 <= i < |bytes| {
        guest[address + i] := bytes[i];
      }
      assert guest[..] == Splice(old(guest[..]), address, bytes);
    }
  }

  /** The first count * size bytes are those of the first count elements. */
  function FirstBytes(values: seq<seq<Byte>>, size: nat, count: nat): (bytes: seq<Byte>)
    requires Uniform(values, size) && count <= |values|
    ensures bytes == Flat(values[..count])
  {
    FlatLength(values[..count], size);
    FlatBegins(values, count);
    Flat(values)[..count * size]
  }

  method WriteGuestBuffer(guest: array<Byte>, buffer: nat, capacity: nat, countAt: nat, values: seq<seq<Byte>>,
          size: nat)
    returns (result: int)
    requires Uniform(values, size)
    modifies guest
    ensures (result, guest[..]) == HandedOver(old(guest[..]), buffer, capacity, countAt, values)
  {
    var total := Total(values);
    if countAt == 0 {
      return ERROR_GUEST_MEMORY;
    }
    var ok := WriteBytes(guest, countAt, Le(total, 4));
    if !ok {
      return ERROR_GUEST_MEMORY;
    }
    assert guest[..] == Splice(old(guest[..]), countAt, Le(total, 4));
    if capacity == 0 || buffer == 0 || values == [] {
      assert values[..Min(capacity, total)] == [] || buffer == 0;
      return if capacity < total then INCOMPLETE else SUCCESS;
    }
    var count := Min(capacity, total);
    ok := WriteBytes(guest, buffer, FirstBytes(values, size, count));
    if !ok {
      return ERROR_GUEST_MEMORY;
    }
    result := if count < total then INCOMPLETE else SUCCESS;
  }

  /** The range starts inside memory if anything is to be written there. */
  predicate Reachable(mem: seq<Byte>, buffer: nat, bytes: seq<Byte>) {
    bytes == [] || InBounds(mem, buffer, |bytes|)
  }

  predicate CellApart(countAt: nat, buffer: nat, bytes: seq<Byte>) {
    countAt + 4 <= buffer || buffer + |bytes| <= countAt
  }

  predicate Holding(mem: seq<Byte>, buffer: nat, bytes: seq<Byte>) {
    bytes == [] || (InBounds(mem, buffer, |bytes|) && mem[buffer..buffer + |bytes|] == bytes)
  }

  predicate Unchanged(before: seq<Byte>, after: seq<Byte>, countAt: nat, buffer: nat, length: nat) {
    && |after| == |before|
    && forall i :: 0 <= i < |before| && !(countAt <= i < countAt + 4) && !(buffer <= i < buffer + length) ==>
      after[i] == before[i]
  }

  lemma CountCellReads(mem: seq<Byte>, countAt: nat, n: nat)
    requires InBounds(mem, countAt, 4) && n < U32 && mem[countAt..countAt + 4] == Le(n, 4)
    ensures U32At(mem, countAt) == n
  {
    Widths();
    LeRoundTrip(n, 4);
  }

  /**
   * Handing over fails iff the count cell, or the part of the buffer that is needed, is
   * out of reach. Otherwise the count cell tells the full size, a non-null buffer gets
   * exactly the first min(capacity, size) elements, nothing else changes, and the result
   * is INCOMPLETE iff the capacity was too small. A failure on the buffer comes after the
   * count was written.
   */
  lemma EnumerationContract(mem: seq<Byte>, buffer: nat, capacity: nat, countAt: nat, values: seq<seq<Byte>>)
    requires |values| < U32 && CellApart(countAt, buffer, Delivered(buffer, capacity, values))
    ensures var (result, after) := HandedOver(mem, buffer, capacity, countAt, values);
      && (result == ERROR_GUEST_MEMORY <==>
            !ObjectReadable(mem, countAt, 4) || !Reachable(mem, buffer, Delivered(buffer, capacity, values)))
      && (result != ERROR_GUEST_MEMORY ==>
            && (result == INCOMPLETE <==> capacity < |values|) && (result == SUCCESS <==> capacity >= |values|)
            && InBounds(after, countAt, 4) && U32At(after, countAt) == |values|
            && (buffer != 0 ==> Holding(after, buffer, Flat(values[..Min(capacity, |values|)])))
            && Unchanged(mem, after, countAt, buffer, |Delivered(buffer, capacity, values)|))
      && (!ObjectReadable(mem, countAt, 4) ==> after == mem)
      && (ObjectReadable(mem, countAt, 4) && result == ERROR_GUEST_MEMORY ==>
            && InBounds(after, countAt, 4) && U32At(after, countAt) == |values|
            && Unchanged(mem, after, countAt, buffer, 0))
  {
    if ObjectReadable(mem, countAt, 4) {
      CountCellReads(Splice(mem, countAt, Le(Total(values), 4)), countAt, |values|);
    }
    if HandedOver(mem, buffer, capacity, countAt, values).0 != ERROR_GUEST_MEMORY {
      var counted := Splice(mem, countAt, Le(Total(values), 4));
      var bytes := Delivered(buffer, capacity, values);
      var after := HandedOver(mem, buffer, capacity, countAt, values).1;
      assert bytes != [] ==> after == Splice(counted, buffer, bytes);
      assert after[countAt..countAt + 4] == counted[countAt..countAt + 4];
      CountCellReads(after, countAt, |values|);
    }
  }

  /** Asking for the count, then for that many elements, yields the whole list. */
  lemma CountThenFill(mem: seq<Byte>, buffer: nat, countAt: nat, values: seq<seq<Byte>>)
    requires |values| < U32 && buffer != 0 && ObjectReadable(mem, countAt, 4)
    requires InBounds(mem, buffer, |Flat(values)|) && CellApart(countAt, buffer, Flat(values))
    ensures var counted := HandedOver(mem, 0, 0, countAt, values).1;
      && InBounds(counted, countAt, 4)
      && var (result, after) := HandedOver(counted, buffer, U32At(counted, countAt), countAt, values);
      result == SUCCESS && Holding(after, buffer, Flat(values))
  {
    var counted := HandedOver(mem, 0, 0, countAt, values).1;
    CountIsWholeIff(mem, countAt, values);
    assert |counted| == |mem| && U32At(counted, countAt) == |values|;
    assert values[..|values|] == values;
    assert Delivered(buffer, |values|, values) == Flat(values);
    EnumerationContract(counted, buffer, |values|, countAt, values);
  }

  /** The reported count is the list's size iff that size fits 32 bits. */
  lemma CountIsWholeIff(mem: seq<Byte>, countAt: nat, values: seq<seq<Byte>>)
    requires ObjectReadable(mem, countAt, 4)
    ensures var (_, counted) := HandedOver(mem, 0, 0, countAt, values);
      && |counted| == |mem| && InBounds(counted, countAt, 4)
      && (U32At(counted, countAt) == |values| <==> |values| < U32)
  {
    var counted := HandedOver(mem, 0, 0, countAt, values).1;
    CountCellReads(counted, countAt, Total(values));
  }

  /**
   * Physical devices are cut to the capacity before they are counted: the cell tells
   * how many were shown, and the result is never INCOMPLETE however many there are.
   */
  lemma PhysicalDevicesNeverIncomplete(mem: seq<Byte>, buffer: nat, capacity: nat, countAt: nat,
                                       found: seq<nat>, handles: seq<seq<Byte>>)
    requires |handles| == |Lifecycle.Shown(capacity, found)| && capacity < U32
    requires HandedOver(mem, buffer, capacity, countAt, handles).0 != ERROR_GUEST_MEMORY
    requires CellApart(countAt, buffer, Delivered(buffer, capacity, handles))
    ensures var (result, after) := HandedOver(mem, buffer, capacity, countAt, handles);
      && result == SUCCESS && InBounds(after, countAt, 4)
      && U32At(after, countAt) == |handles| && (U32At(after, countAt) == |found| <==> |found| <= capacity)
  {
    EnumerationContract(mem, buffer, capacity, countAt, handles);
  }
}
