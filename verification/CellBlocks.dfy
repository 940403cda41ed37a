/** Cells of 1 to 16 bits over a byte stream (src/cell.cpp) whose width
    need not divide 8. */
module CellBlocks {
  // A cell may straddle up to three bytes, and the last one may be partial.

  import opened Bytes
  import opened Radix

  /** Counts of cells and bits are 32-bit numbers, and wrap. */
  datatype CellBlock = CellBlock(cells: seq<byte>, cellCount: nat, bitsPerCell: nat, originalBits: nat)
  {
    ghost predicate Valid() {
      cellCount < U32 && originalBits < U32 && (if bitsPerCell > 8 then 2 * cellCount else cellCount) <= |cells|
    }
  }

  datatype Result = Ok(block: CellBlock) | Unsupported

  /** How many bytes a cell can touch, and how many it is stored in. */
  function Span(w: nat): nat {
    if w < 8 then 2 else 3
  }

  function Wrap(v: nat): (r: nat)
    ensures r < U32 && (v < U32 ==> r == v)
  {
    v % U32
  }

  function BitCount(len: nat): nat {
    Wrap(8 * len)
  }

  function CellCount(bits: nat, w: nat): nat
    requires 0 < w
  {
    Wrap(bits + w - 1) / w
  }

  /** The first `n` cells of `data`, each the next `w` bits of its value. */
  function CellsOf(data: seq<byte>, w: nat, n: nat): (s: seq<byte>)
    requires 0 < w <= 16 && w != 8
    ensures |s| == if w > 8 then 2 * n else n
  {
    if n == 0 then []
    else
      var cell := Field(FromLE(data), w * (n - 1), w);
      CellsOf(data, w, n - 1) + if w > 8 then LE(cell, 2) else (PowMono(2, w, 8); assert Pow(2, 8) == 256; [cell])
  }

  /** `CellBlock::pack`. */
  function Pack(data: seq<byte>, w: nat): Result
  {
    var bits := BitCount(|data|);
    if w == 8 then Ok(CellBlock(data, Wrap(|data|), 8, bits))
    else if 0 < w <= 16 then Ok(CellBlock(CellsOf(data, w, CellCount(bits, w)), CellCount(bits, w), w, bits))
    else Unsupported
  }

  function CellAt(b: CellBlock, c: nat): nat
    requires b.Valid() && c < b.cellCount
  {
    if b.bitsPerCell > 8 then FromLE(b.cells[2 * c..2 * c + 2]) else b.cells[c]
  }

  /** A cell moved to its bit offset within the first byte it touches. */
  function Shifted(cell: nat, off: nat): nat {
    Pow(2, off) * cell
  }

  function Zeros(n: nat): (s: seq<byte>)
    ensures |s| == n && forall i :: 0 <= i < n ==> s[i] == 0
  {
    seq(n, _ => 0)
  }

  /** OR the cells from `c` on into place. */
  function PlaceFrom(b: CellBlock, c: nat, out: seq<byte>): (r: seq<byte>)
    requires b.Valid()
    ensures |r| == |out|
    decreases b.cellCount - c
  {
    var at := Wrap(b.bitsPerCell * c);
    if c >= b.cellCount || at >= b.originalBits then out
    else PlaceFrom(b, c + 1, OrBytes(out, at / 8, Span(b.bitsPerCell), Shifted(CellAt(b, c), at % 8)))
  }

  /** `CellBlock::unpack`. */
  function Unpack(b: CellBlock): (out: seq<byte>)
    requires b.Valid()
  {
    var total := Wrap(b.originalBits + 7) / 8;
    if b.bitsPerCell == 8 then
      var n := if b.cellCount < total then b.cellCount else total;
      b.cells[..n] + Zeros(total - n)
    else if 0 < b.bitsPerCell <= 16 then PlaceFrom(b, 0, Zeros(total))
    else Zeros(total)
  }

  // -------------------------------------------------------------- round trip

  lemma {:induction false} ZeroValue(s: seq<byte>)
    ensures FromLE(s) == 0 <==> forall i :: 0 <= i < |s| ==> s[i] == 0
  {
    if |s| > 0 {
      ZeroValue(s[1..]);
      assert forall i :: 1 <= i < |s| ==> s[i] == s[1..][i - 1];
      assert (forall i :: 0 <= i < |s| ==> s[i] == 0) ==> forall i :: 0 <= i < |s[1..]| ==> s[1..][i] == s[i + 1] == 0;
    }
  }

  /** A value below 2^at has no bit set from position `at` on. */
  lemma NoHighBits(s: seq<byte>, at: nat)
    requires at / 8 <= |s| && FromLE(s) < Pow(2, at)
    ensures at / 8 < |s| ==> s[at / 8] < Pow(2, at % 8)
    ensures forall j :: at / 8 < j < |s| ==> s[j] == 0
  {
    var i, off := at / 8, at % 8;
    var lo, hi := s[..i], s[i..];
    assert s == lo + hi;
    ValAppend(lo, hi, 256);
    BytePow(i);
    PowAdd(2, 8 * i, off);
    PowPosPair(2, 8 * i, off);
    PowMono(2, off, 8);
    assert Pow(2, 8) == 256;
    if FromLE(hi) >= Pow(2, off) { MulLe(Pow(256, i), Pow(2, off), FromLE(hi)); }
    if i < |s| {
      assert FromLE(hi) == hi[0] + 256 * FromLE(hi[1..]);
      ZeroValue(hi[1..]);
      assert forall j :: i < j < |s| ==> s[j] == hi[1..][j - i - 1];
    }
  }

  lemma CellsStep(data: seq<byte>, w: nat, n: nat)
    requires 0 < w <= 16 && w != 8 && n > 0
    ensures var cell := Field(FromLE(data), w * (n - 1), w);
            if w > 8 then CellsOf(data, w, n) == CellsOf(data, w, n - 1) + LE(cell, 2)
            else cell < 256 && CellsOf(data, w, n) == CellsOf(data, w, n - 1) + [cell]
  {
    PowMono(2, w, if w < 8 then 8 else 16);
    TwoPowers();
    hide Field, FromLE, LE, Pow;
  }

  lemma {:induction false} CellAtOf(data: seq<byte>, w: nat, n: nat, c: nat)
    requires 0 < w <= 16 && w != 8 && c < n < U32 && 8 * |data| < U32
    ensures CellAt(CellBlock(CellsOf(data, w, n), n, w, 8 * |data|), c) == Field(FromLE(data), w * c, w)
    decreases n
  {
    hide Field, FromLE, LE, CellsOf;
    var shorter, cell := CellsOf(data, w, n - 1), Field(FromLE(data), w * (n - 1), w);
    CellsStep(data, w, n);
    if c == n - 1 {
      CellFits(FromLE(data), w * (n - 1), w);
      if w > 8 { SliceMiddle(shorter, LE(cell, 2), []); Unit(shorter + LE(cell, 2)); }
    } else {
      CellAtOf(data, w, n - 1, c);
      if w > 8 { SlicePrefix(shorter, LE(cell, 2), 2 * c, 2 * c + 2); }
    }
  }

  lemma CellFits(v: nat, at: nat, w: nat)
    requires 0 < w <= 16
    ensures FromLE(LE(Field(v, at, w), 2)) == Field(v, at, w)
  {
    hide Field, FromLE, LE;
    PowMono(2, w, 16);
    TwoPowers();
    U16RoundTrip(Field(v, at, w));
  }

  /** Placing one cell extends the recovered low bits of the value by `w`. */
  lemma PlaceOne(data: seq<byte>, out: seq<byte>, w: nat, c: nat)
    requires 0 < w <= 16 && w != 8 && |out| == |data| && w * c < 8 * |data|
    requires 0 < Pow(2, w * c) && FromLE(out) == FromLE(data) % Pow(2, w * c)
    ensures 0 < Pow(2, w * (c + 1))
    ensures var at := w * c;
            FromLE(OrBytes(out, at / 8, Span(w), Shifted(Field(FromLE(data), at, w), at % 8)))
            == FromLE(data) % Pow(2, w * (c + 1))
  {
    hide Field, OrBytes, FromLE, Pow;
    var v, at := FromLE(data), w * c;
    var i, off, cell, k := at / 8, at % 8, Field(v, at, w), Span(w);
    MulDistributes(w, c, 1);
    FieldSplit(v, at, w);
    NoHighBits(out, at);
    BytePow(i);
    PowAdd(2, 8 * i, off);
    PowPosPair(2, off, w);
    PowAdd(2, off, w);
    PowMono(2, off + w, 8 * k);
    BytePow(k);
    var x := Pow(2, off) * cell;
    assert x < Pow(256, k) by { BelowProduct(Pow(2, off), Pow(2, w), cell, 0); }
    assert x * Pow(256, i) == Pow(2, at) * cell by { MulAssoc(Pow(256, i), Pow(2, off), cell); }
    assert x < Pow(256, |out| - i) by {
      FromLEBound(data);
      PowAdd(256, i, |out| - i);
      PowPositive(2, w * (c + 1));
      ModAtMost(v, Pow(2, w * (c + 1)));
      FactorBelow(x, Pow(256, i), Pow(256, |out| - i));
    }
    OrBytesAdds(out, i, k, x, off, cell);
  }

  lemma ModAtMost(v: nat, m: nat)
    requires 0 < m
    ensures v % m <= v
  {
  }

  lemma FactorBelow(x: nat, p: nat, q: nat)
    requires x * p < p * q
    ensures x < q
  {
    if x >= q { MulLe(p, q, x); }
  }

  /** One step of unpacking, at a position that has not wrapped. */
  lemma PlaceStep(b: CellBlock, c: nat, out: seq<byte>)
    requires b.Valid() && b.bitsPerCell * c < U32
    ensures var at := b.bitsPerCell * c;
            PlaceFrom(b, c, out)
            == if c >= b.cellCount || at >= b.originalBits then out
               else PlaceFrom(b, c + 1, OrBytes(out, at / 8, Span(b.bitsPerCell), Shifted(CellAt(b, c), at % 8)))
  {
    hide OrBytes, CellAt, Shifted, Span;
  }

  lemma {:induction false} PlaceRestores(data: seq<byte>, b: CellBlock, w: nat, c: nat, out: seq<byte>)
    requires 0 < w <= 16 && w != 8 && |out| == |data| && 8 * |data| + w - 1 < U32
    requires b.Valid() && c <= b.cellCount == CellCount(8 * |data|, w)
    requires b == CellBlock(CellsOf(data, w, b.cellCount), b.cellCount, w, 8 * |data|)
    requires 0 < Pow(2, w * c) && FromLE(out) == FromLE(data) % Pow(2, w * c)
    ensures PlaceFrom(b, c, out) == data
    decreases b.cellCount - c
  {
    hide Field, OrBytes, FromLE, Pow, CellAt, CellsOf, CellCount, PlaceFrom, Wrap, Span, Shifted;
    var at := w * c;
    PlaceBounds(|data|, w, c);
    PlaceStep(b, c, out);
    if c < b.cellCount && at < 8 * |data| {
      PlaceNext(data, b, w, c, out);
      PlaceRestores(data, b, w, c + 1, OrBytes(out, at / 8, Span(w), Shifted(CellAt(b, c), at % 8)));
    } else {
      AllPlaced(data, out, at);
    }
  }

  /** No position wraps, and the last cell reaches the end. */
  lemma PlaceBounds(len: nat, w: nat, c: nat)
    requires 0 < w && 8 * len + w - 1 < U32 && c <= CellCount(8 * len, w)
    ensures w * c < U32 && (c == CellCount(8 * len, w) ==> w * c >= 8 * len)
  {
    hide CellCount, Wrap;
    CellsEnd(8 * len, w, c);
    CellsReachEnd(len, w);
  }

  lemma PlaceNext(data: seq<byte>, b: CellBlock, w: nat, c: nat, out: seq<byte>)
    requires 0 < w <= 16 && w != 8 && |out| == |data| && 8 * |data| < U32 && w * c < 8 * |data|
    requires c < b.cellCount < U32
    requires b == CellBlock(CellsOf(data, w, b.cellCount), b.cellCount, w, 8 * |data|)
    requires 0 < Pow(2, w * c) && FromLE(out) == FromLE(data) % Pow(2, w * c)
    ensures 0 < Pow(2, w * (c + 1))
    ensures var at := w * c;
            var more := OrBytes(out, at / 8, Span(w), Shifted(CellAt(b, c), at % 8));
            |more| == |data| && FromLE(more) == FromLE(data) % Pow(2, w * (c + 1))
  {
    hide Field, OrBytes, FromLE, Pow, CellAt, CellsOf, Span, Shifted;
    CellAtOf(data, w, b.cellCount, c);
    PlaceOne(data, out, w, c);
  }

  lemma AllPlaced(data: seq<byte>, out: seq<byte>, at: nat)
    requires |out| == |data| && at >= 8 * |data|
    requires 0 < Pow(2, at) && FromLE(out) == FromLE(data) % Pow(2, at)
    ensures out == data
  {
    hide FromLE, Pow;
    FromLEBound(data);
    BytePow(|data|);
    PowMono(2, 8 * |data|, at);
    ModSmall(FromLE(data), Pow(2, at));
    FromLEInjective(out, data);
  }

  lemma ModSmall(v: nat, m: nat)
    requires v < m
    ensures v % m == v
  {
  }

  lemma FromLEInjective(s: seq<byte>, t: seq<byte>)
    requires |s| == |t| && FromLE(s) == FromLE(t)
    ensures s == t
  {
    ValInjective(s, t, 256);
  }

  lemma CellsReachEnd(len: nat, w: nat)
    requires 0 < w && 8 * len + w - 1 < U32
    ensures w * CellCount(8 * len, w) >= 8 * len
  {
    DivModDef(8 * len + w - 1, w);
  }

  /** The position behind a cell never wraps. */
  lemma CellsEnd(bits: nat, w: nat, c: nat)
    requires 0 < w && c <= CellCount(bits, w)
    ensures w * c <= Wrap(bits + w - 1) < U32
    ensures CellCount(bits, w) < U32
  {
    hide Wrap;
    DivModDef(Wrap(bits + w - 1), w);
    MulLe(w, c, CellCount(bits, w));
    MulLe(w, 1, w);
  }

  lemma PackedBlock(data: seq<byte>, w: nat)
    requires 0 < w <= 16 && w != 8
    ensures var n := CellCount(BitCount(|data|), w);
            Pack(data, w) == Ok(CellBlock(CellsOf(data, w, n), n, w, BitCount(|data|))) && Pack(data, w).block.Valid()
  {
    hide Wrap, CellsOf, CellCount;
    CellsEnd(BitCount(|data|), w, 0);
  }

  /** Every cell width from 1 to 16 gives back the bytes it was given exactly when
      the 32-bit bit count, rounded up to a cell, does not wrap. From 2^29 bytes on
      bytes are lost; at one byte less, widths above 8 leave no cell at all, and
      only zeros come back. */
  lemma CellRoundTrip(data: seq<byte>, w: nat)
    requires 0 < w <= 16
    ensures Pack(data, w).Ok? && Pack(data, w).block.Valid()
    ensures Unpack(Pack(data, w).block) == data
            <==> 8 * |data| + w - 1 < U32 || (|data| < 0x2000_0000 && data == Zeros(|data|))
  {
    hide CellsOf, PlaceFrom, CellCount, Wrap;
    UnpackedLength(|data|);
    if w == 8 {
      WholeBytes(data);
    } else {
      PackedBlock(data, w);
      var b := Pack(data, w).block;
      UnpackedFrom(b);
      if 8 * |data| + w - 1 < U32 {
        ZeroValue(Zeros(|data|));
        assert Pow(2, w * 0) == 1;
        PlaceRestores(data, b, w, 0, Zeros(|data|));
      } else if |data| < 0x2000_0000 {
        NoCells(|data|, w);
        PlaceStep(b, 0, Zeros(|data|));
      }
    }
  }

  lemma UnpackedFrom(b: CellBlock)
    requires b.Valid() && 0 < b.bitsPerCell <= 16 && b.bitsPerCell != 8
    ensures Unpack(b) == PlaceFrom(b, 0, Zeros(Wrap(b.originalBits + 7) / 8))
  {
    hide PlaceFrom, Wrap;
  }

  lemma WholeBytes(data: seq<byte>)
    ensures Pack(data, 8).block.Valid()
    ensures |data| < 0x2000_0000 ==> Unpack(Pack(data, 8).block) == data
    ensures |Unpack(Pack(data, 8).block)| == Wrap(BitCount(|data|) + 7) / 8
  {
    UnpackedLength(|data|);
    WrapBelow(|data|);
    hide Wrap;
    if |data| < 0x2000_0000 { assert data[..|data|] + Zeros(0) == data; }
  }

  lemma WrapBelow(v: nat)
    ensures Wrap(v) <= v
  {
  }

  lemma UnpackedLength(len: nat)
    ensures Wrap(BitCount(len) + 7) / 8 == len % 0x2000_0000
    ensures len < 0x2000_0000 ==> BitCount(len) == 8 * len
  {
  }

  lemma NoCells(len: nat, w: nat)
    requires 0 < w <= 16 && len < 0x2000_0000 && 8 * len + w - 1 >= U32
    ensures CellCount(BitCount(len), w) == 0
  {
  }

  // ----------------------------------------------------------------- methods

  /** Gather up to `k` bytes from `i` into one word. */
  method ReadWindow(data: seq<byte>, i: nat, k: nat) returns (window: nat)
    ensures window == Window(data, i, k)
  {
    window := 0;
    var b := 0;
    while b < k && i + b < |data|
      invariant 0 <= b <= k
      invariant window + Pow(256, b) * Window(data, i + b, k - b) == Window(data, i, k)
    {
      WindowStep(Pow(256, b), data[i + b], Window(data, i + b + 1, k - b - 1));
      window := window + Pow(256, b) * data[i + b];
      b := b + 1;
    }
    assert Window(data, i + b, k - b) == 0;
  }

  lemma WindowStep(p: int, d: int, rest: int)
    ensures p * (d + 256 * rest) == p * d + (256 * p) * rest
  {
  }

  /** Shift and mask: the `w` bits from position `at` on. */
  method ReadCell(data: seq<byte>, at: nat, w: nat) returns (cell: nat)
    requires 0 < w <= 16 && w != 8 && at / 8 <= |data|
    ensures cell == Field(FromLE(data), at, w)
  {
    hide Field, Window, Pow, FromLE;
    var window := ReadWindow(data, at / 8, Span(w));
    WindowField(data, at, w, Span(w));
    cell := Field(window, at % 8, w);
  }

  /** `CellBlock::pack`: two-byte windows below eight bits, three-byte above. */
  method PackCells(data: seq<byte>, w: nat) returns (r: Result)
    ensures r == Pack(data, w)
  {
    var bits := Wrap(8 * |data|);
    if w == 8 { return Ok(CellBlock(data, Wrap(|data|), 8, bits)); }
    if w == 0 || w > 16 { return Unsupported; }
    var n := Wrap(bits + w - 1) / w;
    assert n == CellCount(BitCount(|data|), w);
    NoneYet(data, w);
    hide Field, Window, Pow, Wrap, CellsOf, LE, FromLE, CellCount, BitCount;
    var cells := [];
    var at: nat := 0;
    for c := 0 to n
      invariant at == w * c && cells == CellsOf(data, w, c)
    {
      PackStep(data, w, c);
      var cell := ReadCell(data, at, w);
      if w > 8 {
        cells := cells + LE(cell, 2);
      } else {
        cells := cells + [cell];
      }
      at := Wrap(at + w);
    }
    r := Ok(CellBlock(cells, n, w, bits));
  }

  /** One more cell: where it starts, what is stored of it, and where the next one is. */
  lemma PackStep(data: seq<byte>, w: nat, c: nat)
    requires 0 < w <= 16 && w != 8 && c < CellCount(BitCount(|data|), w)
    ensures w * c / 8 <= |data| && Wrap(w * c + w) == w * (c + 1)
    ensures var cell := Field(FromLE(data), w * c, w);
            && (w < 8 ==> cell < 256)
            && CellsOf(data, w, c + 1) == CellsOf(data, w, c) + if w > 8 then LE(cell, 2) else [cell]
  {
    hide CellCount, BitCount, Wrap, Field, FromLE, CellsOf, LE;
    CellStartsInside(|data|, w, c);
    CellsStep(data, w, c + 1);
    NextCellAt(BitCount(|data|), w, c);
  }

  lemma NextCellAt(bits: nat, w: nat, c: nat)
    requires 0 < w && c < CellCount(bits, w)
    ensures Wrap(w * c + w) == w * (c + 1)
  {
    hide CellCount, Wrap;
    CellsEnd(bits, w, c + 1);
    MulDistributes(w, c, 1);
  }

  lemma NoneYet(data: seq<byte>, w: nat)
    requires 0 < w <= 16 && w != 8
    ensures CellsOf(data, w, 0) == []
  {
  }

  lemma TwoPowers()
    ensures Pow(2, 8) == 0x100 && Pow(2, 16) == 0x1_0000
  {
    PowMul(2, 8, 2);
    assert Pow(2, 8) == 256;
    assert Pow(256, 2) == 0x1_0000;
  }

  lemma CellStartsInside(len: nat, w: nat, c: nat)
    requires 0 < w && c < CellCount(BitCount(len), w)
    ensures w * c < 8 * len
  {
    CellsEnd(BitCount(len), w, c + 1);
    WrapBelow(8 * len);
    WrapBelow(BitCount(len) + w - 1);
    MulDistributes(w, c, 1);
    hide Wrap;
  }

  method OrInto(out: array<byte>, i: nat, k: nat, v: nat)
    modifies out
    ensures out[..] == OrBytes(old(out[..]), i, k, v)
  {
    hide OrByte;
    ghost var before := out[..];
    var rest, b := v, 0;
    while b < k && i + b < out.Length
      invariant 0 <= b <= k
      invariant OrBytes(out[..], i + b, k - b, rest) == OrBytes(before, i, k, v)
    {
      ghost var s := out[..];
      out[i + b] := OrByte(out[i + b], rest % 256);
      assert out[..] == s[i + b := OrByte(s[i + b], rest % 256)];
      rest := rest / 256;
      b := b + 1;
    }
  }

  /** `CellBlock::unpack`. */
  method UnpackCells(b: CellBlock) returns (out: seq<byte>)
    requires b.Valid()
    ensures out == Unpack(b)
  {
    hide OrBytes, CellAt, Pow, Wrap;
    var total := Wrap(b.originalBits + 7) / 8;
    var buffer := new byte[total](_ => 0);
    assert buffer[..] == Zeros(total);
    var w := b.bitsPerCell;
    if w == 8 {
      var n := if b.cellCount < total then b.cellCount else total;
      for i := 0 to n
        invariant forall j :: 0 <= j < total ==> buffer[j] == if j < i then b.cells[j] else 0
      {
        buffer[i] := b.cells[i];
      }
      assert buffer[..] == b.cells[..n] + Zeros(total - n);
    } else if 0 < w <= 16 {
      var c, at := 0, 0;
      while c < b.cellCount && at < b.originalBits
        invariant 0 <= c <= b.cellCount && at == Wrap(w * c)
        invariant PlaceFrom(b, c, buffer[..]) == PlaceFrom(b, 0, Zeros(total))
        decreases b.cellCount - c
      {
        OrInto(buffer, at / 8, Span(w), Shifted(CellAt(b, c), at % 8));
        NextPosition(w, c);
        c := c + 1;
        at := Wrap(at + w);
      }
    }
    out := buffer[..];
  }

  lemma NextPosition(w: nat, c: nat)
    ensures Wrap(w * (c + 1)) == Wrap(Wrap(w * c) + w)
  {
    hide Wrap;
    MulDistributes(w, c, 1);
    WrapAdd(w * c, w);
  }

  lemma WrapAdd(v: nat, w: nat)
    ensures Wrap(v + w) == Wrap(Wrap(v) + w)
  {
  }
}
