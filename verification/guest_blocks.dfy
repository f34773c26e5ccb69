/**
 * Blocks of guest memory: little-endian fields, strings, string lists, and the pieces
 * they are encoded in. Guest memory is the plain byte array every delivery mode presents.
 */
module GuestBlocks {
  import opened Results
  import opened Delivery
  import opened Sequences

  // ---- Little-endian words ---------------------------------------------------------

  function Pow256(k: nat): nat {
    if k == 0 then 1 else 256 * Pow256(k - 1)
  }

  function Le(n: nat, k: nat): (bytes: seq<Byte>)
    ensures |bytes| == k
  {
    if k == 0 then [] else [n % 256] + Le(n / 256, k - 1)
  }

  function FromLe(bytes: seq<Byte>): (n: nat)
    ensures n < Pow256(|bytes|)
  {
    if bytes == [] then 0 else bytes[0] + 256 * FromLe(bytes[1..])
  }

  lemma {:induction false} LeRoundTrip(n: nat, k: nat)
    requires n < Pow256(k)
    ensures FromLe(Le(n, k)) == n
  {
    if k > 0 {
      LeRoundTrip(n / 256, k - 1);
    }
  }

  lemma Widths()
    ensures Pow256(4) == U32 && Pow256(8) == U64
  {
  }

  function U32At(mem: seq<Byte>, a: nat): (n: nat)
    requires a + 4 <= |mem|
    ensures n < U32
  {
    Widths();
    FromLe(mem[a..a + 4])
  }

  function U64At(mem: seq<Byte>, a: nat): (n: nat)
    requires a + 8 <= |mem|
    ensures n < U64
  {
    Widths();
    FromLe(mem[a..a + 8])
  }

  lemma NextByte(mem: seq<Byte>, a: nat, b: nat)
    requires a < b <= |mem|
    ensures FromLe(mem[a..b]) == mem[a] + 256 * FromLe(mem[a + 1..b])
  {
    assert mem[a..b][1..] == mem[a + 1..b];
  }

  lemma FourBytes(mem: seq<Byte>, a: nat, b: nat)
    requires a + 4 <= b <= |mem|
    ensures FromLe(mem[a..b]) == (mem[a] as nat) + 0x100 * (mem[a + 1] as nat) + 0x1_0000 * (mem[a + 2] as nat)
                                 + 0x100_0000 * (mem[a + 3] as nat) + U32 * FromLe(mem[a + 4..b])
  {
    hide FromLe;
    NextByte(mem, a, b);
    NextByte(mem, a + 1, b);
    NextByte(mem, a + 2, b);
    NextByte(mem, a + 3, b);
  }

  /** Words are little-endian: the lowest byte comes first, and the lower half. */
  lemma LittleEndian(mem: seq<Byte>, a: nat)
    requires a + 8 <= |mem|
    ensures U32At(mem, a) == (mem[a] as nat) + 0x100 * (mem[a + 1] as nat) + 0x1_0000 * (mem[a + 2] as nat)
                             + 0x100_0000 * (mem[a + 3] as nat)
    ensures U64At(mem, a) == U32At(mem, a) + U32 * U32At(mem, a + 4)
  {
    FourBytes(mem, a, a + 4);
    FourBytes(mem, a, a + 8);
    assert mem[a + 4..a + 4] == [];
  }

  // ---- Pieces of an encoding -------------------------------------------------------------

  /** Bytes at an address: a field, a text, or a block of words. */
  datatype Piece = Piece(address: nat, bytes: seq<Byte>)

  function Field32(address: nat, n: nat): Piece {
    Piece(address, Le(n, 4))
  }

  function Field64(address: nat, n: nat): Piece {
    Piece(address, Le(n, 8))
  }

  predicate At(mem: seq<Byte>, p: Piece) {
    p.address + |p.bytes| <= |mem| && mem[p.address..p.address + |p.bytes|] == p.bytes
  }

  ghost predicate Holds(mem: seq<Byte>, pieces: seq<Piece>) {
    forall p :: p in pieces ==> At(mem, p)
  }

  predicate Fits(length: nat, pieces: seq<Piece>) {
    forall p :: p in pieces ==> p.address + |p.bytes| <= length
  }

  predicate Apart(p: Piece, q: Piece) {
    p.address + |p.bytes| <= q.address || q.address + |q.bytes| <= p.address
  }

  ghost predicate Disjoint(pieces: seq<Piece>) {
    forall i, j :: 0 <= i < j < |pieces| ==> Apart(pieces[i], pieces[j])
  }

  function StoreAll(mem: seq<Byte>, pieces: seq<Piece>): (after: seq<Byte>)
    requires Fits(|mem|, pieces)
    ensures |after| == |mem|
  {
    if pieces == [] then mem
    else
      var last := pieces[|pieces| - 1];
      Splice(StoreAll(mem, pieces[..|pieces| - 1]), last.address, last.bytes)
  }

  lemma SpliceKeepsPiece(mem: seq<Byte>, p: Piece, q: Piece)
    requires At(mem, p) && Apart(p, q) && q.address + |q.bytes| <= |mem|
    ensures At(Splice(mem, q.address, q.bytes), p)
  {
    var after := Splice(mem, q.address, q.bytes);
    assert after[p.address..p.address + |p.bytes|] == mem[p.address..p.address + |p.bytes|];
  }

  /** Storing disjoint pieces one by one leaves them all there. */
  lemma {:induction false} StoredPiecesHold(mem: seq<Byte>, pieces: seq<Piece>)
    requires Fits(|mem|, pieces) && Disjoint(pieces)
    ensures Holds(StoreAll(mem, pieces), pieces)
  {
    if pieces != [] {
      var n := |pieces| - 1;
      StoredPiecesHold(mem, pieces[..n]);
      forall p | p in pieces ensures At(StoreAll(mem, pieces), p) {
        if p in pieces[..n] {
          SpliceKeepsPiece(StoreAll(mem, pieces[..n]), p, pieces[n]);
        }
      }
    }
  }

  lemma Field32Reads(mem: seq<Byte>, a: nat, n: nat)
    requires At(mem, Field32(a, n)) && n < U32
    ensures a + 4 <= |mem| && U32At(mem, a) == n
  {
    Widths();
    LeRoundTrip(n, 4);
  }

  lemma Field64Reads(mem: seq<Byte>, a: nat, n: nat)
    requires At(mem, Field64(a, n)) && n < U64
    ensures a + 8 <= |mem| && U64At(mem, a) == n
  {
    Widths();
    LeRoundTrip(n, 8);
  }

  // ---- Reading blocks ------------------------------------------------------------------

  predicate InBounds(mem: seq<Byte>, a: nat, size: nat) {
    a + size <= |mem|
  }

  /** A fixed-size guest object: its address must not be null. */
  predicate ObjectReadable(mem: seq<Byte>, a: nat, size: nat) {
    a != 0 && InBounds(mem, a, size)
  }

  /** A guest array: an empty one needs no address. */
  predicate ArrayReadable(mem: seq<Byte>, a: nat, count: nat, size: nat) {
    count == 0 || (a != 0 && InBounds(mem, a, count * size))
  }

  // ---- Strings and string lists ----------------------------------------------------------

  type Text = seq<Byte>

  const STRING_VIEW_SIZE: nat := 16

  /** An empty string needs no address, any other must be in bounds; address 0 is an address. */
  predicate TextReadable(mem: seq<Byte>, view: nat) {
    && InBounds(mem, view, STRING_VIEW_SIZE)
    && (U32At(mem, view + 8) == 0 || InBounds(mem, U64At(mem, view), U32At(mem, view + 8)))
  }

  function TextOf(mem: seq<Byte>, view: nat): Text
    requires TextReadable(mem, view)
  {
    if U32At(mem, view + 8) == 0 then [] else mem[U64At(mem, view)..U64At(mem, view) + U32At(mem, view + 8)]
  }

  function ViewAt(views: nat, i: nat): nat {
    views + i * STRING_VIEW_SIZE
  }

  predicate TextsReadable(mem: seq<Byte>, views: nat, count: nat) {
    && ArrayReadable(mem, views, count, STRING_VIEW_SIZE)
    && forall i: nat :: i < count ==> TextReadable(mem, ViewAt(views, i))
  }

  function TextsOf(mem: seq<Byte>, views: nat, count: nat): (texts: seq<Text>)
    requires TextsReadable(mem, views, count)
    ensures |texts| == count
  {
    seq(count, i requires 0 <= i < count => TextOf(mem, ViewAt(views, i)))
  }

  method ReadStringView(mem: seq<Byte>, view: nat) returns (text: Option<Text>)
    requires InBounds(mem, view, STRING_VIEW_SIZE)
    ensures text.Some? <==> TextReadable(mem, view)
    ensures text.Some? ==> text.value == TextOf(mem, view)
  {
    text := PlainRead(mem, U64At(mem, view), U32At(mem, view + 8));
  }

  /** The list is read whole, in order, or not at all. */
  method ReadStringViewList(mem: seq<Byte>, views: nat, count: nat) returns (texts: Option<seq<Text>>)
    ensures texts.Some? <==> TextsReadable(mem, views, count)
    ensures texts.Some? ==> texts.value == TextsOf(mem, views, count)
  {
    if count == 0 {
      return Some([]);
    }
    if !ArrayReadable(mem, views, count, STRING_VIEW_SIZE) {
      return None;
    }
    var out: seq<Text> := [];
    for i := 0 to count
      invariant |out| == i
      invariant forall j: nat :: j < i ==>
        TextReadable(mem, ViewAt(views, j)) && out[j] == TextOf(mem, ViewAt(views, j))
    {
      assert ViewAt(views, i) + STRING_VIEW_SIZE <= views + count * STRING_VIEW_SIZE;
      var text := ReadStringView(mem, ViewAt(views, i));
      if text.None? {
        return None;
      }
      out := out + [text.value];
    }
    texts := Some(out);
  }

  /** What a driver reads through a NUL-terminated pointer to the text. */
  function CString(text: Text): (c: Text)
    ensures c <= text && 0 !in c
    ensures |c| < |text| ==> text[|c|] == 0
  {
    if text == [] || text[0] == 0 then [] else [text[0]] + CString(text[1..])
  }

  lemma CStringIsWholeIff(text: Text)
    ensures CString(text) == text <==> 0 !in text
  {
  }

  method PointersTo(texts: seq<Text>) returns (ptrs: seq<Text>)
    ensures ptrs == MapSeq(CString, texts)
  {
    ptrs := [];
    for i := 0 to |texts|
      invariant |ptrs| == i && forall j :: 0 <= j < i ==> ptrs[j] == CString(texts[j])
    {
      ptrs := ptrs + [CString(texts[i])];
    }
  }

  function TextPieces(view: nat, at: nat, text: Text): seq<Piece> {
    [Field64(view, at), Field32(view + 8, |text|), Field32(view + 12, 0), Piece(at, text)]
  }

  /** The views of a list, one after the other, and the bytes of each text wherever ats says. */
  function TextsPieces(views: nat, ats: seq<nat>, texts: seq<Text>): seq<Piece>
    requires |ats| == |texts|
  {
    if texts == [] then []
    else
      var n := |texts| - 1;
      TextsPieces(views, ats[..n], texts[..n]) + TextPieces(ViewAt(views, n), ats[n], texts[n])
  }

  predicate Placeable(at: nat, text: Text) {
    at < U64 && |text| < U32
  }

  predicate AllPlaceable(views: nat, ats: seq<nat>, texts: seq<Text>) {
    && |ats| == |texts| < U32 && views < U64 && (texts != [] ==> views != 0)
    && forall i :: 0 <= i < |texts| ==> Placeable(ats[i], texts[i])
  }

  lemma TextReads(mem: seq<Byte>, view: nat, at: nat, text: Text)
    requires Holds(mem, TextPieces(view, at, text)) && Placeable(at, text)
    ensures InBounds(mem, view, STRING_VIEW_SIZE) && TextReadable(mem, view) && TextOf(mem, view) == text
  {
    assert At(mem, TextPieces(view, at, text)[0]) && At(mem, TextPieces(view, at, text)[1]);
    assert At(mem, TextPieces(view, at, text)[2]) && At(mem, TextPieces(view, at, text)[3]);
    Field64Reads(mem, view, at);
    Field32Reads(mem, view + 8, |text|);
  }

  /** A readable list grows by the readable view behind it. */
  lemma ViewsGrow(mem: seq<Byte>, views: nat, n: nat)
    requires views != 0 && TextsReadable(mem, views, n) && TextReadable(mem, ViewAt(views, n))
    requires InBounds(mem, ViewAt(views, n), STRING_VIEW_SIZE)
    ensures TextsReadable(mem, views, n + 1)
    ensures TextsOf(mem, views, n + 1) == TextsOf(mem, views, n) + [TextOf(mem, ViewAt(views, n))]
  {
    hide TextReadable, TextOf;
  }

  lemma NoTexts(mem: seq<Byte>, views: nat)
    ensures TextsReadable(mem, views, 0) && TextsOf(mem, views, 0) == []
  {
  }

  lemma TextsPiecesSplit(mem: seq<Byte>, views: nat, ats: seq<nat>, texts: seq<Text>)
    requires |ats| == |texts| > 0 && Holds(mem, TextsPieces(views, ats, texts))
    ensures var n := |texts| - 1;
      && Holds(mem, TextsPieces(views, ats[..n], texts[..n]))
      && Holds(mem, TextPieces(ViewAt(views, n), ats[n], texts[n]))
  {
    hide TextPieces, At;
  }

  lemma {:induction false} TextsRead(mem: seq<Byte>, views: nat, ats: seq<nat>, texts: seq<Text>)
    requires AllPlaceable(views, ats, texts) && Holds(mem, TextsPieces(views, ats, texts))
    ensures TextsReadable(mem, views, |texts|) && TextsOf(mem, views, |texts|) == texts
    decreases |texts|
  {
    hide ViewAt, TextReadable, TextsReadable, TextOf, TextsOf;
    if texts == [] {
      NoTexts(mem, views);
    } else {
      var n := |texts| - 1;
      TextsPiecesSplit(mem, views, ats, texts);
      hide Holds, TextsPieces, TextPieces;
      TextsRead(mem, views, ats[..n], texts[..n]);
      TextReads(mem, ViewAt(views, n), ats[n], texts[n]);
      ViewsGrow(mem, views, n);
      assert texts == texts[..n] + [texts[n]];
    }
  }
}
