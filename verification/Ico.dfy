/**
  The multi-image icon file (assets/ico.go) and its reader (icoFrames of
  cmd/genico/main.go). A frame is its straight-alpha pixels, row by row from the
  top; PNG compression is a pair of inverse functions.
 */
module Ico {

  type byte = b: int | 0 <= b < 256

  datatype Pixel = Pixel(r: byte, g: byte, b: byte, a: byte)

  datatype Image = Image(w: nat, h: nat, pixels: seq<Pixel>)

  ghost predicate Sized(f: Image) { |f.pixels| == f.w * f.h }

  /** Frames this wide are stored as PNG. */
  const PNG_WIDTH := 256
  const MAGIC: seq<byte> := [0x89, 0x50, 0x4E, 0x47]

  /** png.Encode and png.Decode: inverse on pictures of some size, and told apart from a bitmap by the magic. */
  ghost predicate Codec(enc: Image -> seq<byte>, dec: seq<byte> -> Image) {
    forall f :: Sized(f) && f.w > 0 && f.h > 0 ==> dec(enc(f)) == f && MAGIC <= enc(f)
  }

  /** A frame stored as PNG has some height: png.Encode writes nothing of an empty picture. */
  predicate Drawn(f: Image) { f.w >= PNG_WIDTH ==> f.h > 0 }

  // ---- Little-endian numbers ---------------------------------------------------------

  function Bytes16(n: nat): (b: seq<byte>)
    requires n < 0x1_0000
    ensures |b| == 2
  {
    [n % 256, n / 256]
  }

  function Bytes32(n: nat): (b: seq<byte>)
    requires n < 0x1_0000_0000
    ensures |b| == 4
  {
    Bytes16(n % 0x1_0000) + Bytes16(n / 0x1_0000)
  }

  function U16(b: seq<byte>, o: nat): nat
    requires o + 2 <= |b|
  {
    (b[o] as int) + 256 * (b[o + 1] as int)
  }

  function U32(b: seq<byte>, o: nat): nat
    requires o + 4 <= |b|
  {
    U16(b, o) + 0x1_0000 * U16(b, o + 2)
  }

  lemma Reads16(n: nat, b: seq<byte>, o: nat)
    requires n < 0x1_0000 && o + 2 <= |b| && b[o..o + 2] == Bytes16(n)
    ensures U16(b, o) == n
  {
    assert b[o] == b[o..o + 2][0] && b[o + 1] == b[o..o + 2][1];
  }

  lemma Reads32(n: nat, b: seq<byte>, o: nat)
    requires n < 0x1_0000_0000 && o + 4 <= |b| && b[o..o + 4] == Bytes32(n)
    ensures U32(b, o) == n
  {
    hide U16, Bytes16;
    assert b[o..o + 2] == b[o..o + 4][..2] && b[o + 2..o + 4] == b[o..o + 4][2..];
    Reads16(n % 0x1_0000, b, o);
    Reads16(n / 0x1_0000, b, o + 2);
  }

  function Area(w: nat, h: nat): (n: nat)
    ensures n == w * h
  {
    w * h
  }

  // ---- A bitmap frame ------------------------------------------------------------------

  /** The bytes of one row of the mask. */
  function Stride(w: nat): (s: nat)
    ensures 8 * s >= w
  {
    (w + 31) / 32 * 4
  }

  /** The k-th pixel in a bitmap's order, its rows from the bottom up. */
  function BottomUp(f: Image, k: nat): Pixel
    requires Sized(f) && k < f.w * f.h
  {
    PixelBound(f.w, f.h, k);
    f.pixels[(f.h - 1 - k / f.w) * f.w + k % f.w]
  }

  lemma PixelBound(w: nat, h: nat, k: nat)
    requires k < w * h
    ensures w > 0 && k / w < h && 0 <= (h - 1 - k / w) * w + k % w < w * h
  {
    var q := k / w;
    assert k == q * w + k % w;
    assert q < h by { if q >= h { MulUp(h, q, w); } }
    assert (h - 1 - q) * w + k % w < (h - 1 - q) * w + w == (h - q) * w;
    MulUp(h - q, h, w);
  }

  lemma MulUp(a: int, b: int, w: nat)
    requires a <= b
    ensures a * w <= b * w
  {
  }

  function PixelBytes(p: Pixel): seq<byte> { [p.b, p.g, p.r, p.a] }

  /** The colour bytes of the first k pixels in a bitmap's order. */
  function XorBytes(f: Image, k: nat): (b: seq<byte>)
    requires Sized(f) && k <= f.w * f.h
    ensures |b| == 4 * k
  {
    if k == 0 then [] else XorBytes(f, k - 1) + PixelBytes(BottomUp(f, k - 1))
  }

  lemma {:induction false} XorAt(f: Image, n: nat, k: nat)
    requires Sized(f) && k < n <= f.w * f.h
    ensures XorBytes(f, n)[4 * k..4 * k + 4] == PixelBytes(BottomUp(f, k))
  {
    if k < n - 1 {
      XorAt(f, n - 1, k);
      assert XorBytes(f, n)[4 * k..4 * k + 4] == XorBytes(f, n - 1)[4 * k..4 * k + 4];
    }
  }

  function Bits(b: byte): bv8 { b as bv8 }
  function OfBits(v: bv8): byte { v as int }

  predicate BitAt(v: bv8, k: nat)
    requires k < 8
  {
    (v << k) & 0x80 != 0
  }

  /** Bit k of a byte, the highest first. */
  predicate BitSet(b: byte, k: nat)
    requires k < 8
  {
    BitAt(Bits(b), k)
  }

  function Or(v: bv8, k: nat): bv8
    requires k < 8
  {
    v | (0x80 >> k)
  }

  /** The byte with bit k set, whatever it was. */
  function WithBit(b: byte, k: nat): byte
    requires k < 8
  {
    OfBits(Or(Bits(b), k))
  }

  lemma BitsKept(v: bv8)
    ensures Bits(OfBits(v)) == v
  {
  }

  lemma OrBit(v: bv8, k: nat, j: nat)
    requires k < 8 && j < 8
    ensures BitAt(Or(v, k), j) <==> j == k || BitAt(v, j)
  {
  }

  lemma WithBitIs(b: byte, k: nat, j: nat)
    requires k < 8 && j < 8
    ensures BitSet(WithBit(b, k), j) <==> j == k || BitSet(b, j)
  {
    hide Bits, OfBits, BitAt, Or;
    BitsKept(Or(Bits(b), k));
    OrBit(Bits(b), k, j);
  }

  lemma MultipleIsLarge(d: int, w: nat)
    ensures d >= 1 ==> d * w >= w
    ensures d <= -1 ==> d * w + w <= 0
  {
    if d >= 1 { MulUp(1, d, w); }
    if d <= -1 { MulUp(d, -1, w); }
  }

  /** A quotient and a remainder are told from their sum. */
  lemma DivIs(q: nat, w: nat, x: nat)
    requires x < w
    ensures (q * w + x) / w == q && (q * w + x) % w == x
  {
    var n := q * w + x;
    var d := n / w - q;
    assert n == n / w * w + n % w;
    assert d * w == n / w * w - q * w == x - n % w;
    MultipleIsLarge(d, w);
  }

  lemma CellBound(q: nat, h: nat, w: nat, x: nat)
    requires q < h && x < w
    ensures q * w + x < h * w && q * w + w <= h * w
  {
    MulUp(q + 1, h, w);
    assert (q + 1) * w == q * w + w;
  }

  /** The row of the mask byte i is in, and where in it. */
  function RowOf(w: nat, i: nat): int
    requires w > 0
  {
    i / Stride(w)
  }

  function InRow(w: nat, i: nat): nat
    requires w > 0
  {
    i % Stride(w)
  }

  lemma RowsAre(w: nat, i: nat)
    requires w > 0
    ensures i == RowOf(w, i) * Stride(w) + InRow(w, i) && InRow(w, i) < Stride(w) && RowOf(w, i) >= 0
  {
    hide Stride;
    MultipleIsLarge(RowOf(w, i), Stride(w));
  }

  /** The column, and the place in a bitmap's order, that bit k of byte i of the mask stands for. */
  function Column(w: nat, i: nat, k: nat): nat
    requires w > 0
  {
    8 * InRow(w, i) + k
  }

  function Place(w: nat, i: nat, k: nat): int
    requires w > 0
  {
    RowOf(w, i) * w + Column(w, i, k)
  }

  /** Bit k of byte i of the mask stands for one of the first n pixels, and that pixel is fully transparent. */
  ghost predicate Marked(f: Image, n: nat, i: nat, k: nat)
    requires Sized(f) && n <= f.w * f.h && f.w > 0
  {
    Column(f.w, i, k) < f.w && 0 <= Place(f.w, i, k) < n && BottomUp(f, Place(f.w, i, k)).a == 0
  }

  /** The mask of the first n pixels. */
  ghost predicate MaskOf(f: Image, n: nat, mask: seq<byte>)
    requires Sized(f) && n <= f.w * f.h && f.w > 0
  {
    && |mask| == Stride(f.w) * f.h
    && forall i: nat, k: nat :: i < |mask| && k < 8 ==> (BitSet(mask[i], k) <==> Marked(f, n, i, k))
  }

  /** The one bit that stands for the pixel in column x of row y. */
  lemma PlaceIs(w: nat, y: nat, x: nat, i: nat, k: nat)
    requires x < w && k < 8
    ensures Column(w, i, k) < w && Place(w, i, k) == y * w + x <==> i == y * Stride(w) + x / 8 && k == x % 8
  {
    var s, q, r := Stride(w), RowOf(w, i), InRow(w, i);
    RowsAre(w, i);
    hide Stride, RowOf, InRow;
    DivIs(y, s, x / 8);
    DivIs(q, s, r);
    DivIs(y, w, x);
    if 8 * r + k < w { DivIs(q, w, 8 * r + k); }
  }

  /** Only the bit of pixel n tells the masks of n and of n + 1 pixels apart. */
  lemma MarkedMore(f: Image, y: nat, x: nat, i: nat, k: nat)
    requires Sized(f) && x < f.w && y < f.h && k < 8
    ensures y * f.w + x < f.w * f.h
    ensures var n := y * f.w + x;
            if i == y * Stride(f.w) + x / 8 && k == x % 8
            then !Marked(f, n, i, k) && (Marked(f, n + 1, i, k) <==> BottomUp(f, n).a == 0)
            else Marked(f, n + 1, i, k) == Marked(f, n, i, k)
  {
    CellBound(y, f.h, f.w, x);
    PlaceIs(f.w, y, x, i, k);
    hide Place, Column, BottomUp, Stride;
  }

  const ZEROS: seq<byte> := [0, 0, 0, 0, 0, 0, 0, 0, 0, 0, 0, 0, 0, 0, 0, 0, 0, 0, 0, 0, 0, 0, 0, 0]

  /** The frame's sizes fit the header's fields. */
  predicate Fits(f: Image) { f.w < 0x1_0000_0000 && 2 * f.h < 0x1_0000_0000 }

  /** BITMAPINFOHEADER: the height counts the mask's rows too. */
  function HeaderBytes(f: Image): (b: seq<byte>)
    requires Fits(f)
    ensures |b| == 40
  {
    Bytes32(40) + Bytes32(f.w) + Bytes32(2 * f.h) + Bytes16(1) + Bytes16(32) + ZEROS
  }

  lemma HeaderRead(f: Image, b: seq<byte>)
    requires Fits(f) && |b| >= 40 && b[..40] == HeaderBytes(f)
    ensures U32(b, 0) == 40 && U32(b, 4) == f.w && U32(b, 8) == 2 * f.h && U16(b, 12) == 1 && U16(b, 14) == 32
  {
    hide Bytes32, Bytes16, U32, U16;
    assert b[0..4] == b[..40][0..4] == Bytes32(40);
    assert b[4..8] == b[..40][4..8] == Bytes32(f.w);
    assert b[8..12] == b[..40][8..12] == Bytes32(2 * f.h);
    assert b[12..14] == b[..40][12..14] == Bytes16(1);
    assert b[14..16] == b[..40][14..16] == Bytes16(32);
    Reads32(40, b, 0);
    Reads32(f.w, b, 4);
    Reads32(2 * f.h, b, 8);
    Reads16(1, b, 12);
    Reads16(32, b, 14);
  }

  /** The resource of a frame below 256 pixels: header, colours from the bottom row up, and the mask of the transparent. */
  ghost predicate IsBitmap(f: Image, d: seq<byte>)
    requires Sized(f) && Fits(f)
  {
    var n := Area(f.w, f.h);
    && |d| == 40 + 4 * n + Area(Stride(f.w), f.h) && d[..40] == HeaderBytes(f) && d[40..40 + 4 * n] == XorBytes(f, n)
    && (f.w > 0 ==> MaskOf(f, n, d[40 + 4 * n..]))
  }

  method PutColour(xorData: array<byte>, n: nat, c: Pixel)
    requires 4 * n + 4 <= xorData.Length
    modifies xorData
    ensures xorData[..4 * n + 4] == old(xorData[..4 * n]) + PixelBytes(c)
  {
    var i := n * 4;
    xorData[i] := c.b;
    xorData[i + 1] := c.g;
    xorData[i + 2] := c.r;
    xorData[i + 3] := c.a;
  }

  /** The pixel the loops of toICOResource come to at row y, column x. */
  function PixelAt(f: Image, y: nat, x: nat): Pixel
    requires Sized(f) && y < f.h && x < f.w
  {
    CellBound(f.h - 1 - y, f.h, f.w, x);
    f.pixels[(f.h - 1 - y) * f.w + x]
  }

  function PixelIndex(f: Image, y: nat, x: nat): nat { Area(y, f.w) + x }

  function MaskIndex(f: Image, y: nat, x: nat): nat { Area(y, Stride(f.w)) + x / 8 }

  /** The byte of the mask once pixel c has had its say at bit k. */
  function Shaded(b: byte, k: nat, c: Pixel): byte
    requires k < 8
  {
    if c.a == 0 then WithBit(b, k) else b
  }

  method PutMask(andData: array<byte>, at: nat, k: nat, c: Pixel)
    requires at < andData.Length && k < 8
    modifies andData
    ensures andData[..] == old(andData[..])[at := Shaded(old(andData[at]), k, c)]
  {
    if c.a == 0 { andData[at] := WithBit(andData[at], k); }
  }

  lemma PixelAtIs(f: Image, y: nat, x: nat)
    requires Sized(f) && y < f.h && x < f.w
    ensures PixelIndex(f, y, x) < Area(f.w, f.h) && BottomUp(f, PixelIndex(f, y, x)) == PixelAt(f, y, x)
    ensures MaskIndex(f, y, x) < Area(Stride(f.w), f.h)
  {
    CellBound(y, f.h, f.w, x);
    CellBound(y, f.h, Stride(f.w), x / 8);
    DivIs(y, f.w, x);
  }

  lemma MaskPut(f: Image, y: nat, x: nat, before: seq<byte>, at: nat, n: nat)
    requires Sized(f) && y < f.h && x < f.w && n == PixelIndex(f, y, x) < Area(f.w, f.h) && at == MaskIndex(f, y, x)
    requires MaskOf(f, n, before) && at < |before|
    ensures MaskOf(f, n + 1, before[at := Shaded(before[at], x % 8, PixelAt(f, y, x))])
  {
    var after := before[at := Shaded(before[at], x % 8, PixelAt(f, y, x))];
    PixelAtIs(f, y, x);
    hide BitSet, WithBit, Marked, BottomUp, PixelAt, Stride;
    forall i: nat, k: nat | i < |after| && k < 8 ensures BitSet(after[i], k) <==> Marked(f, n + 1, i, k) {
      MarkedMore(f, y, x, i, k);
      WithBitIs(before[at], x % 8, k);
    }
  }

  method PutPixel(f: Image, y: nat, x: nat, xorData: array<byte>, andData: array<byte>, ghost n: nat)
    requires Sized(f) && y < f.h && x < f.w && n == PixelIndex(f, y, x) < Area(f.w, f.h)
    requires xorData != andData && xorData.Length == 4 * Area(f.w, f.h) && andData.Length == Area(Stride(f.w), f.h)
    requires xorData[..4 * n] == XorBytes(f, n) && MaskOf(f, n, andData[..])
    modifies xorData, andData
    ensures xorData[..4 * n + 4] == XorBytes(f, n + 1) && MaskOf(f, n + 1, andData[..])
  {
    PixelAtIs(f, y, x);
    var c := PixelAt(f, y, x);
    var i, at := PixelIndex(f, y, x), MaskIndex(f, y, x);
    MaskPut(f, y, x, andData[..], at, i);
    hide *;
    XorMore(f, i);
    PutColour(xorData, i, c);
    PutMask(andData, at, x % 8, c);
  }

  lemma XorMore(f: Image, n: nat)
    requires Sized(f) && n < Area(f.w, f.h)
    ensures XorBytes(f, n + 1) == XorBytes(f, n) + PixelBytes(BottomUp(f, n))
  {
  }

  method PutRow(f: Image, y: nat, xorData: array<byte>, andData: array<byte>)
    requires Sized(f) && y < f.h && f.w > 0
    requires xorData != andData && xorData.Length == 4 * Area(f.w, f.h) && andData.Length == Area(Stride(f.w), f.h)
    requires Area(y, f.w) <= Area(f.w, f.h)
    requires xorData[..4 * Area(y, f.w)] == XorBytes(f, Area(y, f.w)) && MaskOf(f, Area(y, f.w), andData[..])
    modifies xorData, andData
    ensures Area(y + 1, f.w) <= Area(f.w, f.h)
    ensures xorData[..4 * Area(y + 1, f.w)] == XorBytes(f, Area(y + 1, f.w)) && MaskOf(f, Area(y + 1, f.w), andData[..])
  {
    RowEnds(f, y);
    for x := 0 to f.w
      invariant PixelIndex(f, y, x) <= Area(f.w, f.h)
      invariant xorData[..4 * PixelIndex(f, y, x)] == XorBytes(f, PixelIndex(f, y, x))
      invariant MaskOf(f, PixelIndex(f, y, x), andData[..])
    {
      NextPixel(f, y, x);
      hide *;
      PutPixel(f, y, x, xorData, andData, PixelIndex(f, y, x));
    }
  }

  method PutRows(f: Image, xorData: array<byte>, andData: array<byte>)
    requires Sized(f) && f.w > 0
    requires xorData != andData && xorData.Length == 4 * Area(f.w, f.h) && andData.Length == Area(Stride(f.w), f.h)
    requires forall i :: 0 <= i < andData.Length ==> andData[i] == 0
    modifies xorData, andData
    ensures xorData[..] == XorBytes(f, Area(f.w, f.h)) && MaskOf(f, Area(f.w, f.h), andData[..])
  {
    NothingMarked(f, andData[..]);
    NoRows(f);
    hide *;
    for y := 0 to f.h
      invariant Area(y, f.w) <= Area(f.w, f.h)
      invariant xorData[..4 * Area(y, f.w)] == XorBytes(f, Area(y, f.w)) && MaskOf(f, Area(y, f.w), andData[..])
    {
      PutRow(f, y, xorData, andData);
    }
    AllRows(f);
    assert xorData[..] == xorData[..4 * Area(f.w, f.h)];
  }

  lemma NoRows(f: Image)
    requires Sized(f)
    ensures Area(0, f.w) == 0 && XorBytes(f, 0) == []
  {
  }

  lemma AllRows(f: Image)
    ensures Area(f.h, f.w) == Area(f.w, f.h)
  {
  }

  /** toICOResource: the rows from the bottom up, and the mask bit of every transparent pixel set in place. */
  method ToIcoResource(f: Image) returns (d: seq<byte>)
    requires Sized(f) && Fits(f)
    ensures IsBitmap(f, d)
  {
    var xorData := new byte[4 * Area(f.w, f.h)](i => 0);
    var andData := new byte[Area(Stride(f.w), f.h)](i => 0);
    if f.w > 0 { PutRows(f, xorData, andData); }
    hide MaskOf, Stride, IsBitmap, HeaderBytes;
    Assembled(f, xorData[..], andData[..]);
    d := HeaderBytes(f) + xorData[..] + andData[..];
  }

  lemma Assembled(f: Image, xorData: seq<byte>, andData: seq<byte>)
    requires Sized(f) && Fits(f) && |xorData| == 4 * Area(f.w, f.h) && |andData| == Area(Stride(f.w), f.h)
    requires xorData == XorBytes(f, Area(f.w, f.h)) && (f.w > 0 ==> MaskOf(f, Area(f.w, f.h), andData))
    ensures IsBitmap(f, HeaderBytes(f) + xorData + andData)
  {
    var d, n := HeaderBytes(f) + xorData + andData, Area(f.w, f.h);
    hide MaskOf, XorBytes, HeaderBytes;
    assert d[..40] == HeaderBytes(f) && d[40..40 + 4 * n] == xorData && d[40 + 4 * n..] == andData;
  }

  lemma NextPixel(f: Image, y: nat, x: nat)
    requires Sized(f) && y < f.h && x < f.w
    ensures PixelIndex(f, y, x) < Area(f.w, f.h) && PixelIndex(f, y, x + 1) == PixelIndex(f, y, x) + 1
  {
    PixelAtIs(f, y, x);
  }

  lemma RowEnds(f: Image, y: nat)
    requires y < f.h
    ensures PixelIndex(f, y, 0) == Area(y, f.w) && PixelIndex(f, y, f.w) == Area(y + 1, f.w) <= Area(f.w, f.h)
  {
    MulUp(y + 1, f.h, f.w);
  }

  lemma NothingMarked(f: Image, mask: seq<byte>)
    requires Sized(f) && f.w > 0 && |mask| == Area(Stride(f.w), f.h) && forall i :: 0 <= i < |mask| ==> mask[i] == 0
    ensures MaskOf(f, 0, mask)
  {
    forall i: nat, k: nat | i < |mask| && k < 8 ensures !BitSet(mask[i], k) { NoBit(k); }
  }

  lemma NoBit(k: nat)
    requires k < 8
    ensures !BitSet(0, k)
  {
  }

  // ---- The file ---------------------------------------------------------------------------

  /** What one frame is stored as. */
  ghost predicate IsData(enc: Image -> seq<byte>, f: Image, d: seq<byte>) {
    Sized(f) && Fits(f) && if f.w >= PNG_WIDTH then d == enc(f) else IsBitmap(f, d)
  }

  function Joined(datas: seq<seq<byte>>): seq<byte>
    decreases |datas|
  {
    if datas == [] then [] else Joined(datas[..|datas| - 1]) + datas[|datas| - 1]
  }

  /** Where the i-th frame's data begins: behind the directory and the data before it. */
  function OffsetOf(datas: seq<seq<byte>>, i: nat): nat
    requires i <= |datas|
  {
    6 + 16 * |datas| + |Joined(datas[..i])|
  }

  /** A directory entry; a width or height of 256 is written as 0. */
  function EntryBytes(f: Image, length: nat, offset: nat): (b: seq<byte>)
    requires length < 0x1_0000_0000 && offset < 0x1_0000_0000
    ensures |b| == 16
  {
    [f.w % 256, f.h % 256, 0, 0] + Bytes16(1) + Bytes16(32) + Bytes32(length) + Bytes32(offset)
  }

  ghost predicate InRange(fs: seq<Image>, datas: seq<seq<byte>>) {
    |fs| == |datas| < 0x1_0000 && OffsetOf(datas, |datas|) < 0x1_0000_0000
  }

  lemma {:induction false} JoinedGrows(datas: seq<seq<byte>>, i: nat, j: nat)
    requires i <= j <= |datas|
    ensures |Joined(datas[..i])| <= |Joined(datas[..j])|
    ensures i < j ==> |Joined(datas[..i])| + |datas[i]| <= |Joined(datas[..j])|
    decreases j
  {
    if i < j {
      assert datas[..j][..j - 1] == datas[..j - 1];
      JoinedGrows(datas, i, j - 1);
    }
  }

  lemma OffsetsFit(fs: seq<Image>, datas: seq<seq<byte>>, i: nat)
    requires InRange(fs, datas) && i < |fs|
    ensures OffsetOf(datas, i) + |datas[i]| < 0x1_0000_0000
  {
    JoinedGrows(datas, i, |datas|);
  }

  ghost function EntryOf(fs: seq<Image>, datas: seq<seq<byte>>, i: nat): (b: seq<byte>)
    requires InRange(fs, datas) && i < |fs|
    ensures |b| == 16
  {
    OffsetsFit(fs, datas, i);
    EntryBytes(fs[i], |datas[i]|, OffsetOf(datas, i))
  }

  ghost function Entries(fs: seq<Image>, datas: seq<seq<byte>>, k: nat): (b: seq<byte>)
    requires InRange(fs, datas) && k <= |fs|
    ensures |b| == 16 * k
  {
    if k == 0 then [] else Entries(fs, datas, k - 1) + EntryOf(fs, datas, k - 1)
  }

  ghost function FileBytes(fs: seq<Image>, datas: seq<seq<byte>>): seq<byte>
    requires InRange(fs, datas)
  {
    [0, 0, 1, 0] + Bytes16(|fs|) + Entries(fs, datas, |fs|) + Joined(datas)
  }

  /** The frames' data tile the file behind the directory: no overlap, no hole. */
  lemma DataTile(fs: seq<Image>, datas: seq<seq<byte>>, i: nat)
    requires InRange(fs, datas) && i < |fs|
    ensures OffsetOf(datas, 0) == 6 + 16 * |fs|
    ensures OffsetOf(datas, i + 1) == OffsetOf(datas, i) + |datas[i]|
    ensures OffsetOf(datas, |fs|) == |FileBytes(fs, datas)|
  {
    assert datas[..i + 1][..i] == datas[..i] && datas[..|datas|] == datas && datas[..0] == [];
  }

  lemma EntriesStep(fs: seq<Image>, datas: seq<seq<byte>>, k: nat)
    requires InRange(fs, datas) && 0 < k <= |fs|
    ensures Entries(fs, datas, k) == Entries(fs, datas, k - 1) + EntryOf(fs, datas, k - 1)
  {
  }

  lemma {:induction false} EntryAt(fs: seq<Image>, datas: seq<seq<byte>>, k: nat, i: nat)
    requires InRange(fs, datas) && i < k <= |fs|
    ensures Entries(fs, datas, k)[16 * i..16 * i + 16] == EntryOf(fs, datas, i)
    decreases k
  {
    hide *;
    EntriesStep(fs, datas, k);
    if i < k - 1 {
      EntryAt(fs, datas, k - 1, i);
      EarlySlice(Entries(fs, datas, k - 1), EntryOf(fs, datas, k - 1), 16 * i, 16 * i + 16);
    } else {
      LastSlice(Entries(fs, datas, k - 1), EntryOf(fs, datas, k - 1));
    }
  }

  lemma EarlySlice(a: seq<byte>, b: seq<byte>, i: nat, j: nat)
    requires i <= j <= |a|
    ensures (a + b)[i..j] == a[i..j]
  {
  }

  lemma LastSlice(a: seq<byte>, b: seq<byte>)
    ensures (a + b)[|a|..|a| + |b|] == b
  {
  }

  lemma {:induction false} JoinedAt(datas: seq<seq<byte>>, k: nat, i: nat)
    requires i < k <= |datas|
    ensures |Joined(datas[..i])| + |datas[i]| <= |Joined(datas[..k])|
    ensures Joined(datas[..k])[|Joined(datas[..i])|..|Joined(datas[..i])| + |datas[i]|] == datas[i]
    decreases k
  {
    JoinedGrows(datas, i, k);
    assert datas[..k][..k - 1] == datas[..k - 1];
    if i < k - 1 {
      JoinedAt(datas, k - 1, i);
      var at := |Joined(datas[..i])|;
      assert Joined(datas[..k])[at..at + |datas[i]|] == Joined(datas[..k - 1])[at..at + |datas[i]|];
    }
  }

  /** The directory leads to each frame's data. */
  lemma FrameFound(fs: seq<Image>, datas: seq<seq<byte>>, i: nat)
    requires InRange(fs, datas) && i < |fs|
    ensures var b, e := FileBytes(fs, datas), 6 + 16 * i;
            && U16(b, 4) == |fs| && e + 16 <= |b|
            && U32(b, e + 8) == |datas[i]| && U32(b, e + 12) == OffsetOf(datas, i)
            && OffsetOf(datas, i) + |datas[i]| <= |b|
            && b[OffsetOf(datas, i)..OffsetOf(datas, i) + |datas[i]|] == datas[i]
  {
    hide *;
    FileIs(fs, datas, i);
    var b, n, e, at := FileBytes(fs, datas), |fs|, 6 + 16 * i, |Joined(datas[..i])|;
    assert datas[..n] == datas;
    var count, entries, joined := Bytes16(n), Entries(fs, datas, n), Joined(datas);
    EntryAt(fs, datas, n, i);
    JoinedAt(datas, n, i);
    FileSlices(count, entries, joined, 16 * i, at, |datas[i]|, b);
    EntryRead(fs[i], |datas[i]|, OffsetOf(datas, i), b, e);
    Reads16(n, b, 4);
  }

  lemma FileIs(fs: seq<Image>, datas: seq<seq<byte>>, i: nat)
    requires InRange(fs, datas) && i < |fs|
    ensures |fs| == |datas| < 0x1_0000
    ensures FileBytes(fs, datas) == [0, 0, 1, 0] + Bytes16(|fs|) + Entries(fs, datas, |fs|) + Joined(datas)
    ensures OffsetOf(datas, i) == 6 + 16 * |fs| + |Joined(datas[..i])|
    ensures |datas[i]| < 0x1_0000_0000 && OffsetOf(datas, i) < 0x1_0000_0000
    ensures EntryOf(fs, datas, i) == EntryBytes(fs[i], |datas[i]|, OffsetOf(datas, i))
  {
    OffsetsFit(fs, datas, i);
  }

  lemma FileSlices(count: seq<byte>, entries: seq<byte>, joined: seq<byte>, p: nat, q: nat, length: nat, b: seq<byte>)
    requires |count| == 2 && p + 16 <= |entries| && q + length <= |joined|
    requires b == [0, 0, 1, 0] + count + entries + joined
    ensures |b| == 6 + |entries| + |joined| && b[4..6] == count
    ensures b[6 + p..6 + p + 16] == entries[p..p + 16]
    ensures b[6 + |entries| + q..6 + |entries| + q + length] == joined[q..q + length]
  {
    var head := [0, 0, 1, 0] + count;
    assert b == head + (entries + joined);
    SliceAfter(head, entries + joined, b, p, p + 16);
    EarlySlice(entries, joined, p, p + 16);
    SliceAfter(head + entries, joined, b, q, q + length);
  }

  lemma SliceAfter(a: seq<byte>, c: seq<byte>, b: seq<byte>, i: nat, j: nat)
    requires b == a + c && i <= j <= |c|
    ensures b[|a| + i..|a| + j] == c[i..j]
  {
    forall k | 0 <= k < j - i ensures b[|a| + i..|a| + j][k] == c[i..j][k] {
      assert b[|a| + (i + k)] == c[i + k];
    }
  }

  lemma SliceOfSlice(b: seq<byte>, e: nat, n: nat, i: nat, j: nat)
    requires i <= j <= n && e + n <= |b|
    ensures b[e..e + n][i..j] == b[e + i..e + j]
  {
    var s, t := b[e..e + n][i..j], b[e + i..e + j];
    forall k | 0 <= k < j - i ensures s[k] == t[k] {
      assert s[k] == b[e..e + n][i + k] == b[e + (i + k)];
    }
  }

  lemma Fields(first: seq<byte>, length: seq<byte>, offset: seq<byte>)
    requires |first| == 8 && |length| == 4 && |offset| == 4
    ensures (first + length + offset)[8..12] == length && (first + length + offset)[12..16] == offset
  {
  }

  lemma EntryRead(f: Image, length: nat, offset: nat, b: seq<byte>, e: nat)
    requires length < 0x1_0000_0000 && offset < 0x1_0000_0000 && e + 16 <= |b|
    requires b[e..e + 16] == EntryBytes(f, length, offset)
    ensures U32(b, e + 8) == length && U32(b, e + 12) == offset
  {
    var first := [f.w % 256, f.h % 256, 0, 0] + Bytes16(1) + Bytes16(32);
    assert b[e..e + 16] == first + Bytes32(length) + Bytes32(offset);
    hide U32, Bytes32, Bytes16;
    Fields(first, Bytes32(length), Bytes32(offset));
    SliceOfSlice(b, e, 16, 8, 12);
    SliceOfSlice(b, e, 16, 12, 16);
    Reads32(length, b, e + 8);
    Reads32(offset, b, e + 12);
  }

  // ---- Writing -----------------------------------------------------------------------------

  ghost predicate ByWidth(fs: seq<Image>) {
    forall i, j :: 0 <= i < j < |fs| ==> fs[i].w <= fs[j].w
  }

  method Swap(a: array<Image>, i: nat, j: nat)
    requires i < j < a.Length
    modifies a
    ensures a[..] == old(a[..])[i := old(a[j])][j := old(a[i])] && multiset(a[..]) == old(multiset(a[..]))
  {
    a[i], a[j] := a[j], a[i];
  }

  /** Of the first k + 1 widths all but a[j]'s are in order, and none behind j is smaller. */
  ghost predicate Sinking(fs: seq<Image>, j: nat, k: nat) {
    && j <= k < |fs|
    && (forall p, q :: 0 <= p < q <= k && q != j ==> fs[p].w <= fs[q].w)
  }

  lemma Sinks(fs: seq<Image>, j: nat, k: nat)
    requires Sinking(fs, j, k) && j > 0 && fs[j - 1].w > fs[j].w
    ensures Sinking(fs[j - 1 := fs[j]][j := fs[j - 1]], j - 1, k)
  {
  }

  lemma Sunk(fs: seq<Image>, j: nat, k: nat)
    requires Sinking(fs, j, k) && (j == 0 || fs[j - 1].w <= fs[j].w)
    ensures ByWidth(fs[..k + 1])
  {
    forall p, q | 0 <= p < q <= k ensures fs[p].w <= fs[q].w {
      if q == j && p < j - 1 { assert fs[p].w <= fs[j - 1].w; }
    }
  }

  /** sort.Slice by width, in place; which of two frames of one width comes first is left to it. */
  method SortByWidth(a: array<Image>)
    modifies a
    ensures ByWidth(a[..]) && multiset(a[..]) == old(multiset(a[..]))
  {
    for k := 0 to a.Length
      invariant ByWidth(a[..k]) && multiset(a[..]) == old(multiset(a[..]))
    {
      var j := k;
      assert Sinking(a[..], k, k) by {
        forall p, q | 0 <= p < q < k ensures a[p].w <= a[q].w { assert a[..k][p].w <= a[..k][q].w; }
      }
      while j > 0 && a[j - 1].w > a[j].w
        invariant Sinking(a[..], j, k) && multiset(a[..]) == old(multiset(a[..]))
      {
        hide Sinking;
        Sinks(a[..], j, k);
        Swap(a, j - 1, j);
        j := j - 1;
      }
      Sunk(a[..], j, k);
      assert a[..][..k + 1] == a[..k + 1];
    }
    assert a[..a.Length] == a[..];
  }

  ghost predicate AllData(enc: Image -> seq<byte>, fs: seq<Image>, datas: seq<seq<byte>>) {
    |fs| == |datas| && forall i :: 0 <= i < |fs| ==> IsData(enc, fs[i], datas[i])
  }

  method EncodeFrames(frames: array<Image>, enc: Image -> seq<byte>) returns (datas: seq<seq<byte>>)
    requires forall i :: 0 <= i < frames.Length ==> Sized(frames[i]) && Fits(frames[i])
    ensures AllData(enc, frames[..], datas)
  {
    datas := [];
    for i := 0 to frames.Length
      invariant |datas| == i && forall k :: 0 <= k < i ==> IsData(enc, frames[k], datas[k])
    {
      var f := frames[i];
      if f.w >= PNG_WIDTH {
        datas := datas + [enc(f)];
      } else {
        var d := ToIcoResource(f);
        datas := datas + [d];
      }
    }
  }

  /** The directory, its numbers cut to their fields. */
  method Directory(fs: seq<Image>, datas: seq<seq<byte>>) returns (b: seq<byte>)
    requires |datas| == |fs|
    ensures InRange(fs, datas) ==> |fs| < 0x1_0000 && b == [0, 0, 1, 0] + Bytes16(|fs|) + Entries(fs, datas, |fs|)
  {
    var head := [0, 0, 1, 0] + Bytes16(|fs| % 0x1_0000);
    b := head;
    var offset: nat := 6 + 16 * |fs|;
    DirectoryStart(fs, datas, head);
    hide *;
    for i := 0 to |fs|
      invariant offset == OffsetOf(datas, i)
      invariant InRange(fs, datas) ==> b == head + Entries(fs, datas, i)
    {
      var entry := EntryBytes(fs[i], |datas[i]| % 0x1_0000_0000, offset % 0x1_0000_0000);
      DirectoryStep(fs, datas, i, head, b, entry);
      b := b + entry;
      offset := offset + |datas[i]|;
    }
  }

  lemma DirectoryStart(fs: seq<Image>, datas: seq<seq<byte>>, head: seq<byte>)
    requires |datas| == |fs| && head == [0, 0, 1, 0] + Bytes16(|fs| % 0x1_0000)
    ensures OffsetOf(datas, 0) == 6 + 16 * |fs|
    ensures InRange(fs, datas) ==> |fs| < 0x1_0000 && head == [0, 0, 1, 0] + Bytes16(|fs|) && head == head + Entries(fs, datas, 0)
  {
    assert datas[..0] == [];
    if InRange(fs, datas) {
      assert |fs| % 0x1_0000 == |fs| && Entries(fs, datas, 0) == [];
      hide *;
      Appended(head, head, [], []);
    }
  }

  lemma Appended(b: seq<byte>, head: seq<byte>, es: seq<byte>, entry: seq<byte>)
    ensures b == head + es ==> b + entry == head + (es + entry)
    ensures head == head + []
  {
  }

  lemma OffsetStep(datas: seq<seq<byte>>, i: nat)
    requires i < |datas|
    ensures OffsetOf(datas, i + 1) == OffsetOf(datas, i) + |datas[i]|
  {
    assert datas[..i + 1][..i] == datas[..i];
  }

  lemma DirectoryStep(fs: seq<Image>, datas: seq<seq<byte>>, i: nat, head: seq<byte>, b: seq<byte>, entry: seq<byte>)
    requires i < |fs| == |datas|
    requires InRange(fs, datas) ==> b == head + Entries(fs, datas, i)
    requires entry == EntryBytes(fs[i], |datas[i]| % 0x1_0000_0000, OffsetOf(datas, i) % 0x1_0000_0000)
    ensures OffsetOf(datas, i + 1) == OffsetOf(datas, i) + |datas[i]|
    ensures InRange(fs, datas) ==> b + entry == head + Entries(fs, datas, i + 1)
  {
    hide *;
    OffsetStep(datas, i);
    if InRange(fs, datas) {
      FileIs(fs, datas, i);
      EntriesStep(fs, datas, i + 1);
      Appended(b, head, Entries(fs, datas, i), entry);
    }
  }

  method AppendAll(b: seq<byte>, datas: seq<seq<byte>>) returns (c: seq<byte>)
    ensures c == b + Joined(datas)
  {
    c := b;
    assert datas[..0] == [];
    for i := 0 to |datas|
      invariant c == b + Joined(datas[..i])
    {
      assert datas[..i + 1][..i] == datas[..i];
      c := c + datas[i];
    }
    assert datas[..|datas|] == datas;
  }

  /** EncodeICO: the frames sorted in place, then the directory, then the data in the same order. */
  method EncodeIco(frames: array<Image>, enc: Image -> seq<byte>) returns (b: seq<byte>, ghost datas: seq<seq<byte>>)
    requires forall f :: f in frames[..] ==> Sized(f) && Fits(f)
    modifies frames
    ensures ByWidth(frames[..]) && multiset(frames[..]) == old(multiset(frames[..]))
    ensures AllData(enc, frames[..], datas)
    ensures InRange(frames[..], datas) ==> b == FileBytes(frames[..], datas)
  {
    SortByWidth(frames);
    forall i | 0 <= i < frames.Length ensures Sized(frames[i]) && Fits(frames[i]) {
      assert frames[..][i] in multiset(frames[..]);
    }
    var imgs := EncodeFrames(frames, enc);
    DataCounts(enc, frames[..], imgs);
    hide AllData, InRange, FileBytes, Entries, ByWidth;
    datas := imgs;
    b := Directory(frames[..], imgs);
    b := AppendAll(b, imgs);
    if InRange(frames[..], datas) { Complete(frames[..], datas); }
  }

  lemma DataCounts(enc: Image -> seq<byte>, fs: seq<Image>, datas: seq<seq<byte>>)
    requires AllData(enc, fs, datas)
    ensures |datas| == |fs|
  {
  }

  lemma Complete(fs: seq<Image>, datas: seq<seq<byte>>)
    requires InRange(fs, datas)
    ensures |fs| < 0x1_0000
    ensures FileBytes(fs, datas) == [0, 0, 1, 0] + Bytes16(|fs|) + Entries(fs, datas, |fs|) + Joined(datas)
  {
  }

  // ---- Reading -------------------------------------------------------------------------------

  /** A bitmap does not begin like a PNG. */
  lemma BitmapIsNoPng(f: Image, d: seq<byte>)
    requires Sized(f) && Fits(f) && IsBitmap(f, d)
    ensures !(MAGIC <= d)
  {
    assert d[0] == d[..40][0] == 40;
    hide IsBitmap, HeaderBytes;
    assert 40 != 0x89;
  }

  function PixelFrom(d: seq<byte>, p: nat): Pixel
    requires p + 4 <= |d|
  {
    Pixel(d[p + 2], d[p + 1], d[p], d[p + 3])
  }

  /** The bytes the reader takes for column x of row y are that pixel's. */
  lemma PixelFound(f: Image, d: seq<byte>, y: nat, x: nat)
    requires Sized(f) && Fits(f) && IsBitmap(f, d) && y < f.h && x < f.w
    ensures var n := PixelIndex(f, f.h - 1 - y, x);
            40 + 4 * n + 4 <= |d| && PixelIndex(f, y, x) < |f.pixels|
            && PixelFrom(d, 40 + 4 * n) == f.pixels[PixelIndex(f, y, x)]
  {
    hide *;
    var n, area := PixelIndex(f, f.h - 1 - y, x), Area(f.w, f.h);
    var i := PixelIndexIn(f, y, x);
    BitmapColours(f, d);
    BottomIsTop(f, y, x);
    XorAt(f, area, n);
    SliceOfSlice(d, 40, 4 * area, 4 * n, 4 * n + 4);
    PixelRead(d, 40 + 4 * n, f.pixels[i]);
  }

  lemma BitmapColours(f: Image, d: seq<byte>)
    requires Sized(f) && Fits(f) && IsBitmap(f, d)
    ensures |d| >= 40 + 4 * Area(f.w, f.h) && d[40..40 + 4 * Area(f.w, f.h)] == XorBytes(f, Area(f.w, f.h))
  {
  }

  function PixelIndexIn(f: Image, y: nat, x: nat): (n: nat)
    requires Sized(f) && y < f.h && x < f.w
    ensures n == PixelIndex(f, y, x) < |f.pixels|
  {
    PixelAtIs(f, y, x);
    PixelIndex(f, y, x)
  }

  lemma BottomIsTop(f: Image, y: nat, x: nat)
    requires Sized(f) && y < f.h && x < f.w
    ensures PixelIndex(f, f.h - 1 - y, x) < Area(f.w, f.h)
    ensures BottomUp(f, PixelIndex(f, f.h - 1 - y, x)) == f.pixels[PixelIndexIn(f, y, x)]
  {
    PixelAtIs(f, f.h - 1 - y, x);
  }

  lemma PixelRead(d: seq<byte>, at: nat, p: Pixel)
    requires at + 4 <= |d| && d[at..at + 4] == PixelBytes(p)
    ensures PixelFrom(d, at) == p
  {
    var b := d[at..at + 4];
    assert d[at] == b[0] && d[at + 1] == b[1] && d[at + 2] == b[2] && d[at + 3] == b[3];
  }

  method ReadPixel(d: seq<byte>, pixels: array<Pixel>, w: nat, h: nat, y: nat, x: nat, ghost f: Image)
    requires Sized(f) && Fits(f) && IsBitmap(f, d) && f.w == w && f.h == h && y < h && x < w
    requires pixels.Length == |f.pixels| && PixelIndex(f, y, x) < |f.pixels|
    requires pixels[..PixelIndex(f, y, x)] == f.pixels[..PixelIndex(f, y, x)]
    modifies pixels
    ensures pixels[..PixelIndex(f, y, x) + 1] == f.pixels[..PixelIndex(f, y, x) + 1]
  {
    PixelFound(f, d, y, x);
    var i, p := Area(y, w) + x, 40 + (Area(h - 1 - y, w) + x) * 4;
    assert i == PixelIndex(f, y, x) && p == 40 + 4 * PixelIndex(f, h - 1 - y, x);
    hide *;
    pixels[i] := PixelFrom(d, p);
    assert f.pixels[..i + 1] == f.pixels[..i] + [f.pixels[i]];
    assert pixels[..i + 1] == pixels[..i] + [f.pixels[i]];
  }

  /** One row of a bitmap frame, set pixel by pixel. */
  method ReadRow(d: seq<byte>, pixels: array<Pixel>, w: nat, h: nat, y: nat, ghost f: Image)
    requires Sized(f) && Fits(f) && IsBitmap(f, d) && f.w == w && f.h == h && y < h && pixels.Length == |f.pixels|
    requires Area(y, w) <= |f.pixels| && pixels[..Area(y, w)] == f.pixels[..Area(y, w)]
    modifies pixels
    ensures Area(y + 1, w) <= |f.pixels| && pixels[..Area(y + 1, w)] == f.pixels[..Area(y + 1, w)]
  {
    RowEnds(f, y);
    PixelsAre(f);
    hide *;
    for x := 0 to w
      invariant PixelIndex(f, y, x) <= |f.pixels| && pixels[..PixelIndex(f, y, x)] == f.pixels[..PixelIndex(f, y, x)]
    {
      NextPixel(f, y, x);
      ReadPixel(d, pixels, w, h, y, x, f);
    }
  }

  lemma PixelsAre(f: Image)
    requires Sized(f)
    ensures |f.pixels| == Area(f.w, f.h)
  {
  }

  method ReadRows(d: seq<byte>, pixels: array<Pixel>, w: nat, h: nat, ghost f: Image)
    requires Sized(f) && Fits(f) && IsBitmap(f, d) && f.w == w && f.h == h && pixels.Length == |f.pixels|
    modifies pixels
    ensures pixels[..] == f.pixels
  {
    NoRows(f);
    AllRows(f);
    PixelsAre(f);
    hide *;
    for y := 0 to h
      invariant Area(y, w) <= |f.pixels| && pixels[..Area(y, w)] == f.pixels[..Area(y, w)]
    {
      ReadRow(d, pixels, w, h, y, f);
    }
    assert pixels[..] == pixels[..|f.pixels|] && f.pixels == f.pixels[..|f.pixels|];
  }

  /** The reader's half of a bitmap: what comes back of the resource of f is f. */
  method ReadBitmap(d: seq<byte>, ghost f: Image) returns (img: Image)
    requires Sized(f) && Fits(f) && IsBitmap(f, d)
    ensures img == f
  {
    hide XorBytes, MaskOf;
    HeaderRead(f, d);
    PixelsAre(f);
    hide *;
    BitmapColours(f, d);
    var w, h := U32(d, 4), U32(d, 8) / 2;
    var pixels := new Pixel[Area(w, h)](i => Pixel(0, 0, 0, 0));
    ReadRows(d, pixels, w, h, f);
    img := Image(w, h, pixels[..]);
  }

  /**
    icoFrames on a file EncodeICO wrote: each frame comes back pixel for pixel,
    in the order of the directory.
   */
  method IcoFrames(ico: seq<byte>, dec: seq<byte> -> Image,
                   ghost enc: Image -> seq<byte>, ghost fs: seq<Image>, ghost datas: seq<seq<byte>>)
    returns (frames: seq<Image>)
    requires Codec(enc, dec) && AllData(enc, fs, datas) && InRange(fs, datas) && ico == FileBytes(fs, datas)
    requires forall f :: f in fs ==> Drawn(f)
    ensures frames == fs
  {
    hide *;
    FileStarts(fs, datas);
    var count := U16(ico, 4);
    frames := [];
    for i := 0 to count
      invariant frames == fs[..i]
    {
      var img := ReadEntry(ico, i, dec, enc, fs, datas);
      frames := frames + [img];
    }
  }

  method ReadEntry(ico: seq<byte>, i: nat, dec: seq<byte> -> Image,
                   ghost enc: Image -> seq<byte>, ghost fs: seq<Image>, ghost datas: seq<seq<byte>>)
    returns (img: Image)
    requires Codec(enc, dec) && AllData(enc, fs, datas) && InRange(fs, datas) && ico == FileBytes(fs, datas)
    requires i < |fs| && Drawn(fs[i])
    ensures img == fs[i]
  {
    hide *;
    FrameData(enc, fs, datas, i);
    FrameFound(fs, datas, i);
    var e := 6 + 16 * i;
    var off, length := U32(ico, e + 12), U32(ico, e + 8);
    img := ReadFrame(ico[off..off + length], dec, enc, fs[i]);
  }

  lemma FrameData(enc: Image -> seq<byte>, fs: seq<Image>, datas: seq<seq<byte>>, i: nat)
    requires AllData(enc, fs, datas) && i < |fs|
    ensures |datas| == |fs| && IsData(enc, fs[i], datas[i])
  {
  }

  lemma FileStarts(fs: seq<Image>, datas: seq<seq<byte>>)
    requires InRange(fs, datas)
    ensures |FileBytes(fs, datas)| >= 6 && U16(FileBytes(fs, datas), 4) == |fs|
  {
    var b := FileBytes(fs, datas);
    Complete(fs, datas);
    hide *;
    CountSlice(Bytes16(|fs|), Entries(fs, datas, |fs|), Joined(datas), b);
    Reads16(|fs|, b, 4);
  }

  lemma CountSlice(count: seq<byte>, entries: seq<byte>, joined: seq<byte>, b: seq<byte>)
    requires |count| == 2 && b == [0, 0, 1, 0] + count + entries + joined
    ensures |b| >= 6 && b[4..6] == count
  {
    assert b == [0, 0, 1, 0] + (count + (entries + joined));
    SliceAfter([0, 0, 1, 0], count + (entries + joined), b, 0, 2);
    EarlySlice(count, entries + joined, 0, 2);
  }

  method ReadFrame(d: seq<byte>, dec: seq<byte> -> Image, ghost enc: Image -> seq<byte>, ghost f: Image) returns (img: Image)
    requires Codec(enc, dec) && IsData(enc, f, d) && Drawn(f)
    ensures img == f
  {
    FrameIs(d, dec, enc, f);
    if MAGIC <= d { return dec(d); }
    img := ReadBitmap(d, f);
  }

  lemma FrameIs(d: seq<byte>, dec: seq<byte> -> Image, enc: Image -> seq<byte>, f: Image)
    requires Codec(enc, dec) && IsData(enc, f, d) && Drawn(f)
    ensures Sized(f) && Fits(f) && if MAGIC <= d then dec(d) == f else IsBitmap(f, d)
  {
    if f.w < PNG_WIDTH { BitmapIsNoPng(f, d); }
    hide IsBitmap;
  }

  /** Bit x of row y of a bitmap's mask is set exactly where the pixel is fully transparent, and no bit beside the picture is. */
  lemma MaskTellsTransparent(f: Image, d: seq<byte>, y: nat, x: nat)
    requires Sized(f) && Fits(f) && IsBitmap(f, d) && f.w > 0 && y < f.h && x < 8 * Stride(f.w)
    ensures var at := 40 + 4 * Area(f.w, f.h) + Area(f.h - 1 - y, Stride(f.w)) + x / 8;
            at < |d| && (BitSet(d[at], x % 8) <==> x < f.w && f.pixels[PixelIndexIn(f, y, x)].a == 0)
  {
    var s, i := Stride(f.w), Area(f.h - 1 - y, Stride(f.w)) + x / 8;
    var mask := d[40 + 4 * Area(f.w, f.h)..];
    CellBound(f.h - 1 - y, f.h, s, x / 8);
    assert MaskOf(f, Area(f.w, f.h), mask) && i < |mask|;
    assert mask[i] == d[40 + 4 * Area(f.w, f.h) + i];
    DivIs(f.h - 1 - y, s, x / 8);
    if x < f.w {
      PlaceIs(f.w, f.h - 1 - y, x, i, x % 8);
      BottomIsTop(f, y, x);
    }
    hide IsBitmap, BitSet, BottomUp;
  }
}
