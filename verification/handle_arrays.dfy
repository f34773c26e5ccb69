/** Guest arrays of handles: eight little-endian bytes each, side by side. */
module HandleArrays {
  import opened Results
  import opened HandleTables
  import opened Delivery
  import opened GuestBlocks
  import Enumeration

  const HANDLE_SIZE: nat := 8

  function Encoded(handles: seq<Handle>): (values: seq<seq<Byte>>)
    ensures |values| == |handles| && Enumeration.Uniform(values, HANDLE_SIZE)
  {
    seq(|handles|, i requires 0 <= i < |handles| => Le(handles[i], HANDLE_SIZE))
  }

  function HandleBytes(handles: seq<Handle>): (bytes: seq<Byte>)
    ensures |bytes| == |handles| * HANDLE_SIZE
  {
    Enumeration.FlatLength(Encoded(handles), HANDLE_SIZE);
    Enumeration.Flat(Encoded(handles))
  }

  /** A guest array of handles. */
  function HandlesAt(mem: seq<Byte>, address: nat, count: nat): (handles: seq<Handle>)
    requires InBounds(mem, address, count * HANDLE_SIZE)
    ensures |handles| == count
  {
    seq(count, i requires 0 <= i < count => U64At(mem, address + i * HANDLE_SIZE))
  }

  // ---- Writing handles, and reading them back --------------------------------------------

  lemma BytesOfHandle(handles: seq<Handle>, j: nat)
    requires j < |handles|
    ensures var bytes := HandleBytes(handles);
      j * HANDLE_SIZE + HANDLE_SIZE <= |bytes|
      && bytes[j * HANDLE_SIZE..j * HANDLE_SIZE + HANDLE_SIZE] == Le(handles[j], HANDLE_SIZE)
  {
    Enumeration.FlatAt(Encoded(handles), HANDLE_SIZE, j);
    assert Encoded(handles)[j] == Le(handles[j], HANDLE_SIZE);
  }

  lemma SliceOfSlice(mem: seq<Byte>, address: nat, bytes: seq<Byte>, from: nat, to: nat)
    requires address + |bytes| <= |mem| && mem[address..address + |bytes|] == bytes && from <= to <= |bytes|
    ensures mem[address + from..address + to] == bytes[from..to]
  {
    forall i | 0 <= i < to - from ensures mem[address + from..address + to][i] == bytes[from..to][i] {
      assert mem[address..address + |bytes|][from + i] == mem[address + from + i];
    }
  }

  lemma HandleReads(mem: seq<Byte>, address: nat, handles: seq<Handle>, j: nat)
    requires j < |handles| && handles[j] < U64 && InBounds(mem, address, |handles| * HANDLE_SIZE)
    requires mem[address..address + |handles| * HANDLE_SIZE] == HandleBytes(handles)
    ensures InBounds(mem, address + j * HANDLE_SIZE, HANDLE_SIZE) && U64At(mem, address + j * HANDLE_SIZE) == handles[j]
  {
    hide HandleBytes, Le, U64At;
    BytesOfHandle(handles, j);
    SliceOfSlice(mem, address, HandleBytes(handles), j * HANDLE_SIZE, j * HANDLE_SIZE + HANDLE_SIZE);
    Field64Reads(mem, address + j * HANDLE_SIZE, handles[j]);
  }

  /** What is written as an array of handles is read back as these handles. */
  lemma HandlesRoundTrip(mem: seq<Byte>, address: nat, handles: seq<Handle>)
    requires InBounds(mem, address, |handles| * HANDLE_SIZE) && forall h :: h in handles ==> h < U64
    ensures var after := PlainWrite(mem, address, HandleBytes(handles)).value;
      && InBounds(after, address, |handles| * HANDLE_SIZE)
      && HandlesAt(after, address, |handles|) == handles
  {
    var after := PlainWrite(mem, address, HandleBytes(handles)).value;
    forall j | 0 <= j < |handles| ensures HandlesAt(after, address, |handles|)[j] == handles[j] {
      assert handles[j] in handles;
      HandleReads(after, address, handles, j);
    }
  }
}
