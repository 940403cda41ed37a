/** The byte transposition of src/shuffle.cpp. */
module Shuffle {
  import opened Bytes

  lemma SplitIndex(q: nat, r: nat, n: nat, m: nat)
    requires r < n && q < m
    ensures 0 <= q * n + r < m * n && (q * n + r) % n == r && (q * n + r) / n == q
  {
    DivModOf(r, q, n);
    MulLe(n, q + 1, m);
    MulDistributes(n, q, 1);
  }

  lemma JoinIndex(i: nat, n: nat, m: nat)
    requires 0 < n && i < m * n
    ensures i / n < m && i == (i / n) * n + i % n
  {
    assert m * n == n * m;
    DivIsBelow(i, n, m);
  }

  lemma PlaneBound(len: nat, size: nat)
    requires 0 < size
    ensures len / size * size <= len && size * (len / size) == len / size * size
    ensures len >= size ==> len / size > 0
  {
  }

  /** Byte `i` of the planes: plane i / n, element i % n. */
  function ShuffledAt(data: seq<byte>, size: nat, i: nat): byte
    requires 1 < size <= |data| && i < |data|
  {
    var n := |data| / size;
    PlaneBound(|data|, size);
    if i < size * n then
      JoinIndex(i, n, size);
      SplitIndex(i % n, i / n, size, n);
      data[i % n * size + i / n]
    else data[i]
  }

  function UnshuffledAt(data: seq<byte>, size: nat, j: nat): byte
    requires 1 < size <= |data| && j < |data|
  {
    var n := |data| / size;
    PlaneBound(|data|, size);
    if j < n * size then
      JoinIndex(j, size, n);
      SplitIndex(j % size, j / size, n, size);
      data[j % size * n + j / size]
    else data[j]
  }

  /** `shuffle`: all first bytes, then all second bytes, ... then the remainder. */
  function Shuffled(data: seq<byte>, size: nat): (s: seq<byte>)
    ensures |s| == |data|
  {
    if size <= 1 || |data| < size then data
    else seq(|data|, i requires 0 <= i < |data| => ShuffledAt(data, size, i))
  }

  /** `unshuffle`. */
  function Unshuffled(data: seq<byte>, size: nat): (s: seq<byte>)
    ensures |s| == |data|
  {
    if size <= 1 || |data| < size then data
    else seq(|data|, j requires 0 <= j < |data| => UnshuffledAt(data, size, j))
  }

  lemma ElementRestored(data: seq<byte>, size: nat, j: nat)
    requires 1 < size <= |data| && j < |data|
    ensures UnshuffledAt(Shuffled(data, size), size, j) == data[j]
  {
    var n := |data| / size;
    PlaneBound(|data|, size);
    if j < n * size {
      JoinIndex(j, size, n);
      SplitIndex(j % size, j / size, n, size);
      var i := j % size * n + j / size;
      assert Shuffled(data, size)[i] == ShuffledAt(data, size, i) == data[i % n * size + i / n];
    }
  }

  /** Shuffling is undone by unshuffling with the same element size. */
  lemma ShuffleRoundTrip(data: seq<byte>, size: nat)
    ensures Unshuffled(Shuffled(data, size), size) == data
  {
    hide UnshuffledAt;
    if !(size <= 1 || |data| < size) {
      forall j | 0 <= j < |data| ensures Unshuffled(Shuffled(data, size), size)[j] == data[j] {
        ElementRestored(data, size, j);
      }
    }
  }

  method ShuffleBytes(data: seq<byte>, size: nat) returns (s: seq<byte>)
    ensures s == Shuffled(data, size)
  {
    if size <= 1 || |data| < size { return data; }
    hide ShuffledAt;
    var n := |data| / size;
    PlaneBound(|data|, size);
    var out := new byte[|data|];
    ghost var base := 0;
    for plane := 0 to size
      invariant 0 <= base == plane * n <= |data|
      invariant forall i :: 0 <= i < base ==> out[i] == ShuffledAt(data, size, i)
    {
      MulDistributes(n, plane, 1);
      MulLe(n, plane + 1, size);
      ShufflePlane(data, size, plane, out, base);
      base := base + n;
    }
    var main := n * size;
    for i := main to |data|
      invariant forall k :: 0 <= k < i ==> out[k] == ShuffledAt(data, size, k)
    {
      ShuffledRest(data, size, i);
      out[i] := data[i];
    }
    s := out[..];
  }

  /** One byte of every element, one after the other. */
  method ShufflePlane(data: seq<byte>, size: nat, plane: nat, out: array<byte>, ghost base: nat)
    requires 1 < size <= |data| == out.Length && plane < size
    requires base == plane * (|data| / size) && base + |data| / size <= |data|
    requires forall i :: 0 <= i < base ==> out[i] == ShuffledAt(data, size, i)
    modifies out
    ensures forall i :: 0 <= i < base + |data| / size ==> out[i] == ShuffledAt(data, size, i)
  {
    hide ShuffledAt;
    var n := |data| / size;
    for e := 0 to n
      invariant forall i :: 0 <= i < base + e ==> out[i] == ShuffledAt(data, size, i)
    {
      ShuffledElement(data, size, plane, e);
      var to := plane * n + e;
      assert to == base + e;
      out[to] := data[e * size + plane];
    }
  }

  lemma ShuffledElement(data: seq<byte>, size: nat, plane: nat, e: nat)
    requires 1 < size <= |data| && plane < size && e < |data| / size
    ensures var n := |data| / size;
            && 0 <= plane * n + e < |data| && 0 <= e * size + plane < |data|
            && ShuffledAt(data, size, plane * n + e) == data[e * size + plane]
            && UnshuffledAt(data, size, e * size + plane) == data[plane * n + e]
  {
    var n := |data| / size;
    PlaneBound(|data|, size);
    SplitIndex(plane, e, n, size);
    SplitIndex(e, plane, size, n);
  }

  lemma ShuffledRest(data: seq<byte>, size: nat, i: nat)
    requires 1 < size <= |data| && |data| / size * size <= i < |data|
    ensures ShuffledAt(data, size, i) == data[i] && UnshuffledAt(data, size, i) == data[i]
  {
    PlaneBound(|data|, size);
  }

  /** Where byte `plane` of element `e` belongs. */
  function Place(size: nat, e: nat, plane: nat): nat {
    e * size + plane
  }

  lemma PlacesDiffer(size: nat, e: nat, plane: nat, d: nat, other: nat)
    requires plane < size && other < size && Place(size, e, plane) == Place(size, d, other)
    ensures e == d && plane == other
  {
    SplitIndex(e, plane, size, e + 1);
    SplitIndex(d, other, size, d + 1);
  }

  /** All planes before `plane` are in place, and of this one `e` elements. */
  ghost predicate InPlace(data: seq<byte>, size: nat, s: seq<byte>, plane: nat, e: nat)
    requires 1 < size <= |data| == |s|
  {
    forall d: nat, p: nat :: d < |data| / size && p < size && (p < plane || (p == plane && d < e))
      ==> Place(size, d, p) < |data| && s[Place(size, d, p)] == UnshuffledAt(data, size, Place(size, d, p))
  }

  lemma OneInPlace(data: seq<byte>, size: nat, s: seq<byte>, plane: nat, e: nat, v: byte)
    requires 1 < size <= |data| == |s| && InPlace(data, size, s, plane, e) && plane < size
    requires Place(size, e, plane) < |data| && v == UnshuffledAt(data, size, Place(size, e, plane))
    ensures InPlace(data, size, s[Place(size, e, plane) := v], plane, e + 1)
  {
    hide UnshuffledAt, Place;
    forall d: nat, p: nat | d < |data| / size && p < size && Place(size, d, p) == Place(size, e, plane)
      ensures d == e && p == plane
    {
      PlacesDiffer(size, e, plane, d, p);
    }
  }

  lemma AllInPlace(data: seq<byte>, size: nat, s: seq<byte>, j: nat)
    requires 1 < size <= |data| == |s| && InPlace(data, size, s, size, 0) && j < |data| / size * size
    ensures j < |data| && s[j] == UnshuffledAt(data, size, j)
  {
    hide UnshuffledAt;
    JoinIndex(j, size, |data| / size);
    assert Place(size, j / size, j % size) == j;
  }

  method UnshuffleBytes(data: seq<byte>, size: nat) returns (s: seq<byte>)
    ensures s == Unshuffled(data, size)
  {
    if size <= 1 || |data| < size { return data; }
    hide UnshuffledAt, InPlace;
    var n := |data| / size;
    PlaneBound(|data|, size);
    var out := new byte[|data|];
    assert InPlace(data, size, out[..], 0, 0) by { NoneInPlace(data, size, out[..]); }
    for plane := 0 to size
      invariant InPlace(data, size, out[..], plane, 0)
    {
      for e := 0 to n
        invariant InPlace(data, size, out[..], plane, e)
      {
        ShuffledElement(data, size, plane, e);
        ghost var before := out[..];
        out[e * size + plane] := data[plane * n + e];
        assert out[..] == before[Place(size, e, plane) := data[plane * n + e]];
        OneInPlace(data, size, before, plane, e, data[plane * n + e]);
      }
      NextPlane(data, size, out[..], plane);
    }
    forall j | 0 <= j < n * size ensures j < |data| && out[j] == UnshuffledAt(data, size, j) {
      AllInPlace(data, size, out[..], j);
    }
    var main := n * size;
    for i := main to |data|
      invariant forall k :: 0 <= k < i ==> out[k] == UnshuffledAt(data, size, k)
    {
      ShuffledRest(data, size, i);
      out[i] := data[i];
    }
    s := out[..];
  }

  lemma NoneInPlace(data: seq<byte>, size: nat, s: seq<byte>)
    requires 1 < size <= |data| == |s|
    ensures InPlace(data, size, s, 0, 0)
  {
  }

  lemma NextPlane(data: seq<byte>, size: nat, s: seq<byte>, plane: nat)
    requires 1 < size <= |data| == |s| && InPlace(data, size, s, plane, |data| / size)
    ensures InPlace(data, size, s, plane + 1, 0)
  {
    hide UnshuffledAt, Place;
  }
}
