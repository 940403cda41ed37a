/** Bit strings as numbers: reading and OR-ing fields that straddle bytes. The bit
    packers and cell blocks share these facts about digits in any base. */
module Radix {
  import opened Bytes

  lemma DivDiv(x: nat, a: nat, b: nat)
    requires 0 < a && 0 < b
    ensures 0 < a * b && x / (a * b) == x / a / b
  {
    var q, r := x / a / b, x / a % b;
    var s := x % a;
    assert x / a == b * q + r && x == a * (x / a) + s;
    assert a * b > 0;
    assert a * (b * q + r) == (a * b) * q + a * r by { MulDistributes(a, b * q, r); MulAssoc(a, b, q); }
    assert a * r + s < a * b by {
      MulLe(a, r + 1, b);
      MulDistributes(a, r, 1);
    }
    DivModOf(a * r + s, q, a * b);
  }

  lemma DivModDef(x: nat, a: nat)
    requires 0 < a
    ensures x == x % a + a * (x / a) && x % a < a
  {
  }

  lemma ModAddMultiple(q: nat, b: nat, y: nat)
    requires 0 < b
    ensures (q + b * y) % b == q % b
  {
    DivModDef(q, b);
    MulDistributes(b, q / b, y);
    DivModOf(q % b, q / b + y, b);
  }

  lemma DivAddMultiple(x: nat, a: nat, z: nat)
    requires 0 < a
    ensures (x + a * z) / a == x / a + z
  {
    DivModDef(x, a);
    MulDistributes(a, x / a, z);
    DivModOf(x % a, x / a + z, a);
  }

  /** Adding a multiple of a * b changes neither digit below it. */
  lemma AddMultiple(x: nat, a: nat, b: nat, y: nat)
    requires 0 < a && 0 < b
    ensures (x + (a * b) * y) / a % b == x / a % b
  {
    MulAssoc(a, b, y);
    DivAddMultiple(x, a, b * y);
    ModAddMultiple(x / a, b, y);
  }

  lemma BelowProduct(a: nat, b: nat, f: nat, r: nat)
    requires f < b && r < a
    ensures a * f + r < a * b
  {
    MulLe(a, f + 1, b);
    MulDistributes(a, f, 1);
  }

  lemma Factor(a: int, b: int, u: int, f: int, r: int)
    ensures r + a * (f + b * u) == (a * f + r) + (a * b) * u
  {
    MulDistributes(a, f, b * u);
    MulAssoc(a, b, u);
  }

  lemma PowPosPair(b: nat, m: nat, n: nat)
    requires 0 < b
    ensures 0 < Pow(b, m) && 0 < Pow(b, n)
  {
    PowPositive(b, m);
    PowPositive(b, n);
  }

  /** Bytes are groups of eight bits. */
  lemma BytePow(n: nat)
    ensures Pow(256, n) == Pow(2, 8 * n)
  {
    PowMul(2, 8, n);
    assert Pow(2, 8) == 256;
  }

  /** `w` bits of `v` from bit `at`. */
  function Field(v: nat, at: nat, w: nat): (f: nat)
    ensures f < Pow(2, w)
  {
    PowPosPair(2, at, w);
    v / Pow(2, at) % Pow(2, w)
  }

  /** Shifting first and reading at the rest of the offset is the same field. */
  lemma FieldShift(v: nat, a: nat, b: nat, w: nat)
    ensures 0 < Pow(2, a) && Field(v, a + b, w) == Field(v / Pow(2, a), b, w)
  {
    PowPosPair(2, a, b);
    PowAdd(2, a, b);
    DivDiv(v, Pow(2, a), Pow(2, b));
  }

  /** Bits at or above `top` do not show in a field that ends by `top`. */
  lemma FieldBelow(x: nat, top: nat, y: nat, at: nat, w: nat)
    requires at + w <= top
    ensures Field(x + Pow(2, top) * y, at, w) == Field(x, at, w)
  {
    PowPosPair(2, at, w);
    PowAdd(2, at, w);
    PowAdd(2, at + w, top - at - w);
    MulAssoc(Pow(2, at) * Pow(2, w), Pow(2, top - at - w), y);
    AddMultiple(x, Pow(2, at), Pow(2, w), Pow(2, top - at - w) * y);
  }

  /** Splitting a value at a field: what lies below plus the field itself. */
  lemma FieldSplit(v: nat, at: nat, w: nat)
    ensures 0 < Pow(2, at) && 0 < Pow(2, at + w)
    ensures v % Pow(2, at + w) == v % Pow(2, at) + Pow(2, at) * Field(v, at, w)
  {
    PowPosPair(2, at, w);
    PowAdd(2, at, w);
    SplitAt(v, Pow(2, at), Pow(2, w));
  }

  lemma SplitAt(v: nat, a: nat, b: nat)
    requires 0 < a && 0 < b
    ensures 0 < a * b && v % (a * b) == v % a + a * (v / a % b)
  {
    var q, r := v / a, v % a;
    var u, f := q / b, q % b;
    DivModDef(v, a);
    DivModDef(q, b);
    Factor(a, b, u, f, r);
    BelowProduct(a, b, f, r);
    DivModOf(a * f + r, u, a * b);
  }

  // --------------------------------------------------------------------- OR

  /** Bitwise OR. */
  function Or(a: nat, b: nat): nat
    decreases a + b
  {
    if a == 0 && b == 0 then 0
    else (if a % 2 == 1 || b % 2 == 1 then 1 else 0) + 2 * Or(a / 2, b / 2)
  }

  lemma {:induction false} OrZero(a: nat)
    ensures Or(a, 0) == a && Or(0, a) == a
  {
    if a > 0 { OrZero(a / 2); }
  }

  /** OR of values without a common bit is their sum. */
  lemma {:induction false} OrAdds(a: nat, k: nat, m: nat)
    requires a < Pow(2, k)
    ensures Or(a, Pow(2, k) * m) == a + Pow(2, k) * m
    decreases k
  {
    if k == 0 {
      OrZero(m);
    } else {
      var p := Pow(2, k - 1);
      MulAssoc(2, p, m);
      OrAdds(a / 2, k - 1, m);
      assert (2 * (p * m)) / 2 == p * m;
    }
  }

  lemma {:induction false} OrBound(a: nat, b: nat, k: nat)
    requires a < Pow(2, k) && b < Pow(2, k)
    ensures Or(a, b) < Pow(2, k)
    decreases k
  {
    if k > 0 { OrBound(a / 2, b / 2, k - 1); }
  }

  function OrByte(a: byte, b: byte): byte {
    assert Pow(2, 8) == 256;
    OrBound(a, b, 8);
    Or(a, b)
  }

  // ----------------------------------------------------- windows over bytes

  /** Up to `k` bytes from `i`, little-endian; bytes past the end read as zero. */
  function Window(s: seq<byte>, i: nat, k: nat): nat
    decreases k
  {
    if k == 0 || i >= |s| then 0 else s[i] + 256 * Window(s, i + 1, k - 1)
  }

  lemma {:induction false} WindowIsSlice(s: seq<byte>, i: nat, k: nat)
    requires i <= |s|
    ensures exists y: nat :: FromLE(s[i..]) == Window(s, i, k) + Pow(256, k) * y
    decreases k
  {
    if k == 0 {
      assert FromLE(s[i..]) == Window(s, i, k) + Pow(256, k) * FromLE(s[i..]);
    } else if i == |s| {
      assert FromLE(s[i..]) == Window(s, i, k) + Pow(256, k) * 0;
    } else {
      WindowIsSlice(s, i + 1, k - 1);
      var y: nat :| FromLE(s[i + 1..]) == Window(s, i + 1, k - 1) + Pow(256, k - 1) * y;
      assert s[i..][1..] == s[i + 1..];
      MulAssoc(256, Pow(256, k - 1), y);
      assert FromLE(s[i..]) == Window(s, i, k) + Pow(256, k) * y;
    }
  }

  /** A `k`-byte window shows any field that ends within it. */
  lemma WindowField(s: seq<byte>, at: nat, w: nat, k: nat)
    requires at / 8 <= |s| && at % 8 + w <= 8 * k
    ensures Field(Window(s, at / 8, k), at % 8, w) == Field(FromLE(s), at, w)
  {
    hide Window, Field;
    var i, off := at / 8, at % 8;
    WindowIsSlice(s, i, k);
    var y: nat :| FromLE(s[i..]) == Window(s, i, k) + Pow(256, k) * y;
    BytePow(k);
    FieldBelow(Window(s, i, k), 8 * k, y, off, w);
    assert s == s[..i] + s[i..];
    ValAppend(s[..i], s[i..], 256);
    FromLEBound(s[..i]);
    DivModOf(FromLE(s[..i]), FromLE(s[i..]), Pow(256, i));
    BytePow(i);
    FieldShift(FromLE(s), 8 * i, off, w);
  }

  /** OR the low `k` bytes of `v` into `s` from `i`, dropping those past the end. */
  function OrBytes(s: seq<byte>, i: nat, k: nat, v: nat): (r: seq<byte>)
    ensures |r| == |s|
    decreases k
  {
    if k == 0 || i >= |s| then s
    else OrBytes(s[i := OrByte(s[i], v % 256)], i + 1, k - 1, v / 256)
  }

  /** If `s` has no bit at or above the field, OR-ing the field in adds it. */
  lemma {:induction false} OrBytesAdds(s: seq<byte>, i: nat, k: nat, v: nat, off: nat, m: nat)
    requires v == Pow(2, off) * m && off <= 8
    requires i < |s| ==> s[i] < Pow(2, off)
    requires forall j :: i < j < |s| ==> s[j] == 0
    requires v < Pow(256, k) && i <= |s| && v < Pow(256, |s| - i)
    ensures FromLE(OrBytes(s, i, k, v)) == FromLE(s) + v * Pow(256, i)
    decreases k
  {
    hide Or, OrByte, Val;
    if k == 0 || i == |s| {
      assert v == 0;
    } else {
      var low, high := v % 256, v / 256;
      OrByteAdds(s[i], v, off, m);
      var t := s[i := OrByte(s[i], low)];
      ValUpdate(s, i, s[i] + low, 256);
      DivIsBelow(v, 256, Pow(256, k - 1));
      DivIsBelow(v, 256, Pow(256, |s| - i - 1));
      assert Pow(2, 0) == 1;
      OrBytesAdds(t, i + 1, k - 1, high, 0, high);
      Weighted(low, high, Pow(256, i));
    }
  }

  lemma OrByteAdds(b: byte, v: nat, off: nat, m: nat)
    requires v == Pow(2, off) * m && off <= 8 && b < Pow(2, off)
    ensures OrByte(b, v % 256) == b + v % 256
  {
    LowBits(v, off, m);
    OrAdds(b, off, v % 256 / Pow(2, off));
  }

  lemma Weighted(low: int, high: int, p: int)
    ensures low * p + high * (256 * p) == (low + 256 * high) * p
  {
  }

  /** The low byte of a shifted value keeps the shift. */
  lemma LowBits(v: nat, off: nat, m: nat)
    requires v == Pow(2, off) * m && off <= 8
    ensures 0 < Pow(2, off) && v % 256 == Pow(2, off) * (v % 256 / Pow(2, off))
  {
    PowPosPair(2, off, 8 - off);
    PowAdd(2, off, 8 - off);
    assert Pow(2, 8) == 256;
    ShiftedLow(m, Pow(2, off), Pow(2, 8 - off));
  }

  lemma ShiftedLow(m: nat, a: nat, b: nat)
    requires 0 < a && 0 < b
    ensures 0 < a * b && (a * m) % (a * b) == a * ((a * m) % (a * b) / a)
  {
    var q, r := m / b, m % b;
    DivModDef(m, b);
    Factor(a, b, q, r, 0);
    BelowProduct(a, b, r, 0);
    DivModOf(a * r, q, a * b);
    DivModOf(0, r, a);
  }
}
