/** Bytes, positional values and little-endian fields, shared by every codec, with
    the few facts about sequences and products that the proofs need. */
module Bytes {

  type byte = x: int | 0 <= x < 256

  const U16 := 0x1_0000
  const U32 := 0x1_0000_0000
  const U64 := 0x1_0000_0000_0000_0000

  function Min(a: nat, b: nat): nat {
    if a < b then a else b
  }

  /** A product that is known to be a natural number. */
  function Times(x: nat, y: nat): nat {
    x * y
  }

  /** b to the power n. */
  function Pow(b: nat, n: nat): nat
  {
    if n == 0 then 1 else b * Pow(b, n - 1)
  }

  lemma {:induction false} PowPositive(b: nat, n: nat)
    requires 0 < b
    ensures 0 < Pow(b, n)
  {
    if n > 0 { PowPositive(b, n - 1); }
  }

  lemma {:induction false} PowAdd(b: nat, m: nat, n: nat)
    ensures Pow(b, m + n) == Pow(b, m) * Pow(b, n)
  {
    if m > 0 {
      PowAdd(b, m - 1, n);
      MulAssoc(b, Pow(b, m - 1), Pow(b, n));
    }
  }

  lemma MulAssoc(x: int, y: int, z: int)
    ensures x * (y * z) == (x * y) * z
  {
  }

  lemma MulDistributes(x: int, y: int, z: int)
    ensures x * (y + z) == x * y + x * z
  {
  }

  lemma {:induction false} PowMul(b: nat, m: nat, n: nat)
    ensures Pow(Pow(b, m), n) == Pow(b, m * n)
  {
    if n > 0 {
      PowMul(b, m, n - 1);
      MulDistributes(m, 1, n - 1);
      PowAdd(b, m, m * (n - 1));
    }
  }

  lemma {:induction false} PowMono(b: nat, m: nat, n: nat)
    requires 1 <= b && m <= n
    ensures Pow(b, m) <= Pow(b, n)
  {
    PowAdd(b, m, n - m);
    PowPositive(b, n - m);
    PowPositive(b, m);
    MulAtLeast(Pow(b, m), Pow(b, n - m));
  }

  lemma MulAtLeast(x: nat, y: nat)
    requires 1 <= y
    ensures x <= x * y
  {
  }

  /** The number whose digits in base `b`, least significant first, are `ds`. */
  function Val(ds: seq<nat>, b: nat): nat
  {
    if |ds| == 0 then 0 else ds[0] + b * Val(ds[1..], b)
  }

  ghost predicate DigitsBelow(ds: seq<nat>, b: nat) {
    forall i :: 0 <= i < |ds| ==> ds[i] < b
  }

  lemma AppendStep(x: int, b: int, t: int, p: int, v: int)
    ensures x + b * (t + p * v) == (x + b * t) + (b * p) * v
  {
    MulAssoc(b, p, v);
    MulDistributes(b, t, p * v);
  }

  lemma {:induction false} ValAppend(xs: seq<nat>, ys: seq<nat>, b: nat)
    ensures Val(xs + ys, b) == Val(xs, b) + Pow(b, |xs|) * Val(ys, b)
  {
    if |xs| == 0 {
      assert xs + ys == ys;
    } else {
      assert (xs + ys)[1..] == xs[1..] + ys;
      ValAppend(xs[1..], ys, b);
      AppendStep(xs[0], b, Val(xs[1..], b), Pow(b, |xs| - 1), Val(ys, b));
    }
  }

  lemma ValSingle(d: nat, b: nat)
    ensures Val([d], b) == d
  {
    assert Val([d][1..], b) == 0;
  }

  lemma ValSnoc(ds: seq<nat>, d: nat, b: nat)
    ensures Val(ds + [d], b) == Val(ds, b) + d * Pow(b, |ds|)
  {
    hide Val, Pow;
    ValAppend(ds, [d], b);
    ValSingle(d, b);
  }

  lemma {:induction false} ValBound(ds: seq<nat>, b: nat)
    requires 0 < b && DigitsBelow(ds, b)
    ensures Val(ds, b) < Pow(b, |ds|)
  {
    if |ds| > 0 {
      ValBound(ds[1..], b);
      var v, p := Val(ds[1..], b), Pow(b, |ds| - 1);
      assert b * v <= b * (p - 1) by { MulLe(b, v, p - 1); }
      assert b * (p - 1) == b * p - b;
    }
  }

  lemma MulLe(x: nat, y: int, z: int)
    requires y <= z
    ensures x * y <= x * z
  {
  }

  /** Changing one digit changes the value by the difference times its weight. */
  lemma {:induction false} ValUpdate(ds: seq<nat>, i: nat, d: nat, b: nat)
    requires i < |ds|
    ensures Val(ds[i := d], b) == Val(ds, b) + (d - ds[i]) * Pow(b, i)
  {
    var xs, ys := ds[..i], ds[i + 1..];
    assert ds == xs + ([ds[i]] + ys);
    assert ds[i := d] == xs + ([d] + ys);
    ValAppend(xs, [ds[i]] + ys, b);
    ValAppend(xs, [d] + ys, b);
    assert ([d] + ys)[1..] == ys && ([ds[i]] + ys)[1..] == ys;
    var p, t, e := Pow(b, i), b * Val(ys, b), ds[i];
    assert p * (d + t) - p * (e + t) == (d - e) * p;
  }

  /** Equal-length digit strings below the base with one value are equal. */
  lemma {:induction false} ValInjective(xs: seq<nat>, ys: seq<nat>, b: nat)
    requires |xs| == |ys| && 0 < b && DigitsBelow(xs, b) && DigitsBelow(ys, b)
    requires Val(xs, b) == Val(ys, b)
    ensures xs == ys
  {
    if |xs| > 0 {
      DivModOf(xs[0], Val(xs[1..], b), b);
      DivModOf(ys[0], Val(ys[1..], b), b);
      ValInjective(xs[1..], ys[1..], b);
      assert xs == [xs[0]] + xs[1..] && ys == [ys[0]] + ys[1..];
    }
  }

  /** Quotient and remainder of r + b * q. */
  lemma DivModOf(r: nat, q: nat, b: nat)
    requires r < b
    ensures (r + b * q) % b == r && (r + b * q) / b == q
  {
    var x := r + b * q;
    assert x == b * (x / b) + x % b;
    assert b * (x / b - q) == r - x % b;
    if x / b - q >= 1 {
      MulLe(b, 1, x / b - q);
    } else if x / b - q <= -1 {
      MulLe(b, x / b - q, -1);
    }
  }

  lemma DivIsBelow(x: nat, b: nat, c: nat)
    requires 0 < b && x < b * c
    ensures x / b < c
  {
    if c <= x / b { MulLe(b, c, x / b); }
  }

  /** The `n`-byte little-endian field holding `v` (its low 8n bits). */
  function LE(v: nat, n: nat): (s: seq<byte>)
    ensures |s| == n
    decreases n
  {
    if n == 0 then [] else [v % 256] + LE(v / 256, n - 1)
  }

  function FromLE(s: seq<byte>): nat {
    Val(s, 256)
  }

  lemma {:induction false} FromLEOfLE(v: nat, n: nat)
    requires v < Pow(256, n)
    ensures FromLE(LE(v, n)) == v
    decreases n
  {
    if n > 0 {
      DivIsBelow(v, 256, Pow(256, n - 1));
      FromLEOfLE(v / 256, n - 1);
      assert LE(v, n)[1..] == LE(v / 256, n - 1);
    }
  }

  lemma PowValues()
    ensures Pow(256, 1) == 256 && Pow(256, 2) == U16 && Pow(256, 4) == U32 && Pow(256, 8) == U64
  {
    assert Pow(256, 3) == 0x100_0000;
    assert Pow(256, 5) == 0x100_0000_0000;
    assert Pow(256, 6) == 0x1_0000_0000_0000;
    assert Pow(256, 7) == 0x100_0000_0000_0000;
  }

  lemma U16RoundTrip(v: nat)
    requires v < U16
    ensures FromLE(LE(v, 2)) == v
  {
    PowValues();
    FromLEOfLE(v, 2);
  }

  lemma U32RoundTrip(v: nat)
    requires v < U32
    ensures FromLE(LE(v, 4)) == v
  {
    PowValues();
    FromLEOfLE(v, 4);
  }

  /** The value of a fixed-size field never exceeds its width. */
  lemma FromLEBound(s: seq<byte>)
    ensures FromLE(s) < Pow(256, |s|)
  {
    ValBound(s, 256);
  }

  /** The middle of a three-part string. */
  lemma SliceMiddle<T>(a: seq<T>, b: seq<T>, c: seq<T>)
    ensures (a + b + c)[|a|..|a| + |b|] == b
  {
  }

  lemma SlicePrefix<T>(a: seq<T>, b: seq<T>, i: nat, j: nat)
    requires i <= j <= |a|
    ensures (a + b)[i..j] == a[i..j]
  {
  }

  lemma Unit<T>(a: seq<T>)
    ensures a + [] == a
  {
  }

  lemma Assoc<T>(a: seq<T>, b: seq<T>, c: seq<T>)
    ensures (a + b) + c == a + (b + c)
  {
  }

  lemma Regroup<T>(a: seq<T>, b: seq<T>, c: seq<T>, d: seq<T>)
    ensures a + (b + c) + d == (a + b) + c + d
    ensures a + (b + c) + d == a + b + (c + d)
  {
  }

  /** Reading one digit back out of a value. */
  lemma {:induction false} DigitAt(ds: seq<nat>, b: nat, i: nat)
    requires 0 < b && DigitsBelow(ds, b) && i < |ds|
    ensures 0 < Pow(b, i) && Val(ds, b) / Pow(b, i) % b == ds[i]
  {
    PowPositive(b, i);
    var lo, hi := ds[..i], ds[i..];
    assert ds == lo + hi;
    ValAppend(lo, hi, b);
    ValBound(lo, b);
    DivModOf(Val(lo, b), Val(hi, b), Pow(b, i));
    DivModOf(hi[0], Val(hi[1..], b), b);
  }
}
