/** Symbol counts and their quantisation to a sum of 4096. */
module FrequencyTable {
  // Any counts become frequencies that sum to 4096 (src/entropy.cpp:12-72), and the
  // cumulative table cuts the slots below 4096 into intervals.

  import opened Bytes

  const PROB_SCALE := 4096
  const SYMBOLS := 256

  type u16 = x: int | 0 <= x < 0x1_0000

  function Sum(s: seq<nat>): nat
  {
    if |s| == 0 then 0 else Sum(s[..|s| - 1]) + s[|s| - 1]
  }

  /** cum_freq[i]: the total weight of the symbols before `i`. */
  function Cum(f: seq<nat>, i: nat): nat
    requires i <= |f|
  {
    Sum(f[..i])
  }

  lemma CumStep(f: seq<nat>, i: nat)
    requires i < |f|
    ensures Cum(f, i + 1) == Cum(f, i) + f[i]
  {
    assert f[..i + 1][..i] == f[..i];
  }

  lemma CumEnds(f: seq<nat>)
    ensures Cum(f, 0) == 0 && Cum(f, |f|) == Sum(f)
  {
    assert f[..|f|] == f;
  }

  lemma {:induction false} CumMono(f: seq<nat>, i: nat, j: nat)
    requires i <= j <= |f|
    ensures Cum(f, i) <= Cum(f, j)
    decreases j
  {
    if i < j {
      CumMono(f, i, j - 1);
      CumStep(f, j - 1);
    }
  }

  lemma {:induction false} SumUpdate(s: seq<nat>, i: nat, v: nat)
    requires i < |s|
    ensures Sum(s[i := v]) == Sum(s) + v - s[i]
  {
    var n := |s| - 1;
    if i < n {
      SumUpdate(s[..n], i, v);
      assert s[i := v][..n] == s[..n][i := v];
    } else {
      assert s[i := v][..n] == s[..n];
    }
  }

  lemma {:induction false} EntryAtMostSum(s: seq<nat>, i: nat)
    requires i < |s|
    ensures s[i] <= Sum(s)
  {
    if i < |s| - 1 { EntryAtMostSum(s[..|s| - 1], i); }
  }

  lemma {:induction false} SmallEntriesSmallSum(s: seq<nat>)
    requires forall i :: 0 <= i < |s| ==> s[i] <= 1
    ensures Sum(s) <= |s|
  {
    if |s| > 0 { SmallEntriesSmallSum(s[..|s| - 1]); }
  }

  lemma {:induction false} PositiveSumHasEntry(s: seq<nat>) returns (i: nat)
    requires 0 < Sum(s)
    ensures i < |s| && 0 < s[i]
  {
    if s[|s| - 1] > 0 {
      i := |s| - 1;
    } else {
      i := PositiveSumHasEntry(s[..|s| - 1]);
    }
  }

  // ---------------------------------------------------------------- counting

  function NoCounts(): (c: seq<nat>)
    ensures |c| == SYMBOLS
  {
    seq(SYMBOLS, _ => 0)
  }

  /** How often each byte value occurs in `data`. */
  function Counts(data: seq<byte>): (c: seq<nat>)
    ensures |c| == SYMBOLS
  {
    if |data| == 0 then NoCounts()
    else
      var c := Counts(data[..|data| - 1]);
      var b := data[|data| - 1];
      c[b := c[b] + 1]
  }

  lemma {:induction false} SumOfZeros(s: seq<nat>)
    requires forall i :: 0 <= i < |s| ==> s[i] == 0
    ensures Sum(s) == 0
  {
    if |s| > 0 { SumOfZeros(s[..|s| - 1]); }
  }

  lemma {:induction false} CountsProperties(data: seq<byte>)
    ensures Sum(Counts(data)) == |data|
    ensures forall b: byte :: 0 < Counts(data)[b] <==> b in data
  {
    if |data| == 0 {
      SumOfZeros(NoCounts());
    } else {
      var n := |data| - 1;
      CountsProperties(data[..n]);
      var c := Counts(data[..n]);
      SumUpdate(c, data[n], c[data[n]] + 1);
      assert data == data[..n] + [data[n]];
    }
  }

  ghost function Places(data: seq<byte>, b: byte): set<int> {
    set i | 0 <= i < |data| && data[i] == b
  }

  /** A count is the number of places where the byte stands. */
  lemma {:induction false} CountsExact(data: seq<byte>, b: byte)
    ensures Counts(data)[b] == |Places(data, b)|
  {
    if |data| == 0 {
      assert Places(data, b) == {};
    } else {
      var n := |data| - 1;
      CountsExact(data[..n], b);
      assert Places(data, b) == Places(data[..n], b) + if data[n] == b then {n} else {};
    }
  }

  // ------------------------------------------------------------ quantisation

  /** The share of `PROB_SCALE` a count is worth, rounded, but at least one. */
  function Rounded(count: nat, total: nat): nat
    requires 0 < total
  {
    if count == 0 then 0
    else
      var r := (count * PROB_SCALE + total / 2) / total;
      if r < 1 then 1 else r
  }

  lemma RoundedBound(count: nat, total: nat)
    requires 0 < total && count <= total
    ensures Rounded(count, total) <= PROB_SCALE
  {
    var x := count * PROB_SCALE + total / 2;
    MulLe(PROB_SCALE, count, total);
    assert x < total * (PROB_SCALE + 1) by { MulDistributes(total, PROB_SCALE, 1); }
    DivIsBelow(x, total, PROB_SCALE + 1);
  }

  /** Index of the first largest entry above `floor` among the first `n`, or -1. */
  function LargestAbove(f: seq<nat>, floor: nat, n: nat): (b: int)
    requires n <= |f|
    ensures -1 <= b < n
  {
    if n == 0 then -1
    else
      var b := LargestAbove(f, floor, n - 1);
      if f[n - 1] > floor && (b < 0 || f[n - 1] > f[b]) then n - 1 else b
  }

  ghost predicate IsFirstLargest(f: seq<nat>, floor: nat, n: nat, b: int)
    requires n <= |f| && -1 <= b < n
  {
    if b < 0 then forall i :: 0 <= i < n ==> f[i] <= floor
    else f[b] > floor
         && (forall i :: 0 <= i < n ==> f[i] <= f[b])
         && (forall i :: 0 <= i < b ==> f[i] < f[b])
  }

  lemma {:induction false} LargestAboveIsLargest(f: seq<nat>, floor: nat, n: nat)
    requires n <= |f|
    ensures IsFirstLargest(f, floor, n, LargestAbove(f, floor, n))
  {
    if n > 0 { LargestAboveIsLargest(f, floor, n - 1); }
  }

  function Distance(s: nat): nat {
    if s < PROB_SCALE then PROB_SCALE - s else s - PROB_SCALE
  }

  /** Move the total to 4096 one step at a time, always at the first largest
      entry, never taking an entry to zero. */
  function Rebalance(f: seq<nat>): seq<nat>
    decreases Distance(Sum(f))
  {
    if Sum(f) == PROB_SCALE then f
    else if Sum(f) < PROB_SCALE then
      var b := LargestAbove(f, 0, |f|);
      if b < 0 then f else SumUpdate(f, b, f[b] + 1); Rebalance(f[b := f[b] + 1])
    else
      var b := LargestAbove(f, 1, |f|);
      if b < 0 then f
      else LargestAboveIsLargest(f, 1, |f|); SumUpdate(f, b, f[b] - 1); Rebalance(f[b := f[b] - 1])
  }

  ghost predicate SameSupport(f: seq<nat>, g: seq<nat>) {
    |f| == |g| && forall i :: 0 <= i < |f| ==> (0 < f[i] <==> 0 < g[i])
  }

  lemma {:induction false} RebalanceReaches(f: seq<nat>)
    requires |f| == SYMBOLS && 0 < Sum(f)
    ensures Sum(Rebalance(f)) == PROB_SCALE && SameSupport(f, Rebalance(f))
    decreases Distance(Sum(f))
  {
    if Sum(f) < PROB_SCALE {
      var k := PositiveSumHasEntry(f);
      LargestAboveIsLargest(f, 0, |f|);
      var b := LargestAbove(f, 0, |f|);
      SumUpdate(f, b, f[b] + 1);
      RebalanceReaches(f[b := f[b] + 1]);
    } else if Sum(f) > PROB_SCALE {
      LargestAboveIsLargest(f, 1, |f|);
      var b := LargestAbove(f, 1, |f|);
      if b < 0 { SmallEntriesSmallSum(f); }
      SumUpdate(f, b, f[b] - 1);
      RebalanceReaches(f[b := f[b] - 1]);
    }
  }

  function RoundedAll(raw: seq<nat>, total: nat): (f: seq<nat>)
    requires 0 < total
    ensures |f| == |raw|
  {
    seq(|raw|, i requires 0 <= i < |raw| => Rounded(raw[i], total))
  }

  /** The table that `quantize_freqs` computes. */
  function Quantized(raw: seq<nat>, total: nat): seq<nat>
    requires |raw| == SYMBOLS
  {
    if total == 0 then Flat()
    else Rebalance(RoundedAll(raw, total))
  }

  lemma {:induction false} SumOfConstant(s: seq<nat>, c: nat)
    requires forall i :: 0 <= i < |s| ==> s[i] == c
    ensures Sum(s) == c * |s|
  {
    if |s| > 0 {
      SumOfConstant(s[..|s| - 1], c);
      MulDistributes(c, |s| - 1, 1);
    }
  }

  function Flat(): (f: seq<nat>)
    ensures |f| == SYMBOLS && Sum(f) == PROB_SCALE
  {
    var f := seq(SYMBOLS, _ => PROB_SCALE / SYMBOLS);
    SumOfConstant(f, PROB_SCALE / SYMBOLS);
    f
  }

  /** A decodable table: 256 weights that share out 4096. */
  type Table = f: seq<nat> | |f| == SYMBOLS && Sum(f) == PROB_SCALE
    ghost witness Flat()

  /** Quantised weights always share out exactly 4096, and a symbol keeps a
      weight exactly when it occurs. */
  lemma QuantizedIsTable(raw: seq<nat>, total: nat)
    requires |raw| == SYMBOLS && Sum(raw) == total
    ensures |Quantized(raw, total)| == SYMBOLS && Sum(Quantized(raw, total)) == PROB_SCALE
    ensures 0 < total ==> SameSupport(raw, Quantized(raw, total))
    ensures total == 0 ==> forall i :: 0 <= i < SYMBOLS ==> Quantized(raw, total)[i] == PROB_SCALE / SYMBOLS
  {
    if total > 0 {
      var f := RoundedAll(raw, total);
      var k := PositiveSumHasEntry(raw);
      EntryAtMostSum(f, k);
      RebalanceReaches(f);
    }
  }

  /** `r` is the nearest share of `PROB_SCALE` for a count: 4096 * count / total rounded
      half up, except that an occurring symbol gets at least 1. */
  ghost predicate NearestShare(r: nat, count: nat, total: nat) {
    var x := PROB_SCALE * count + total / 2;
    if count == 0 then r == 0
    else r * total <= x < (r + 1) * total || (r == 1 && x < total)
  }

  lemma RoundedIsNearest(count: nat, total: nat)
    requires 0 < total
    ensures NearestShare(Rounded(count, total), count, total)
  {
    var x := PROB_SCALE * count + total / 2;
    assert x == total * (x / total) + x % total;
  }

  /** What becomes of the shares `r` when their total is moved to 4096: what is missing
      goes to the first largest share; what is too much comes off the top, so that
      no entry stands more than one above a lowered one, nor above it at all when
      it comes first. */
  ghost predicate Corrected(r: seq<nat>, q: seq<nat>) {
    && |q| == |r| && Sum(q) == PROB_SCALE
    && (Sum(r) <= PROB_SCALE ==>
          exists b :: 0 <= b < |r| && IsFirstLargest(r, 0, |r|, b) && q == r[b := r[b] + PROB_SCALE - Sum(r)])
    && (Sum(r) > PROB_SCALE ==> TopLowered(r, q))
  }

  ghost predicate TopLowered(r: seq<nat>, q: seq<nat>)
    requires |q| == |r|
  {
    && (forall i :: 0 <= i < |r| ==> q[i] <= r[i])
    && (forall i, j :: 0 <= i < |r| && 0 <= j < |r| && q[i] < r[i] ==> q[j] <= q[i] + (if j < i then 0 else 1))
  }

  lemma {:induction false} FirstLargestGrows(f: seq<nat>, b: nat)
    requires b < |f| && IsFirstLargest(f, 0, |f|, b) && Sum(f) <= PROB_SCALE
    ensures Rebalance(f) == f[b := f[b] + PROB_SCALE - Sum(f)]
    decreases PROB_SCALE - Sum(f)
  {
    if Sum(f) < PROB_SCALE {
      LargestAboveIsLargest(f, 0, |f|);
      assert LargestAbove(f, 0, |f|) == b;
      SumUpdate(f, b, f[b] + 1);
      FirstLargestGrows(f[b := f[b] + 1], b);
    }
  }

  lemma {:induction false} LargestShrink(r: seq<nat>, f: seq<nat>)
    requires |f| == |r| == SYMBOLS && Sum(f) >= PROB_SCALE && TopLowered(r, f)
    ensures |Rebalance(f)| == SYMBOLS && TopLowered(r, Rebalance(f))
    decreases Sum(f)
  {
    if Sum(f) > PROB_SCALE {
      var b := LargestAbove(f, 1, |f|);
      LargestAboveIsLargest(f, 1, |f|);
      if b < 0 { SmallEntriesSmallSum(f); }
      SumUpdate(f, b, f[b] - 1);
      LargestShrink(r, f[b := f[b] - 1]);
    }
  }

  /** Weights follow the counts: every symbol has its nearest share, up to the one-sided
      correction that brings the total to 4096. */
  lemma QuantizedFollowsCounts(raw: seq<nat>, total: nat) returns (r: seq<nat>)
    requires |raw| == SYMBOLS && Sum(raw) == total && 0 < total
    ensures |r| == SYMBOLS && forall i :: 0 <= i < SYMBOLS ==> NearestShare(r[i], raw[i], total)
    ensures Corrected(r, Quantized(raw, total))
  {
    r := RoundedAll(raw, total);
    forall i | 0 <= i < SYMBOLS ensures NearestShare(r[i], raw[i], total) { RoundedIsNearest(raw[i], total); }
    var k := PositiveSumHasEntry(raw);
    hide NearestShare, RoundedAll, Rebalance, Corrected;
    EntryAtMostSum(r, k);
    RebalanceCorrects(r);
  }

  lemma HasFirstLargest(f: seq<nat>) returns (b: nat)
    requires 0 < Sum(f)
    ensures b < |f| && IsFirstLargest(f, 0, |f|, b)
  {
    var k := PositiveSumHasEntry(f);
    LargestAboveIsLargest(f, 0, |f|);
    b := LargestAbove(f, 0, |f|);
  }

  lemma RebalanceCorrects(r: seq<nat>)
    requires |r| == SYMBOLS && 0 < Sum(r)
    ensures Corrected(r, Rebalance(r))
  {
    hide Rebalance, Sum, LargestAbove, IsFirstLargest;
    RebalanceReaches(r);
    if Sum(r) <= PROB_SCALE {
      var b := HasFirstLargest(r);
      FirstLargestGrows(r, b);
    } else {
      LargestShrink(r, r);
    }
  }

  /** One pass of the correction loop leaves the outcome unchanged. */
  lemma RebalanceStep(f: seq<nat>, b: nat, step: int)
    requires Sum(f) != PROB_SCALE && step == (if Sum(f) < PROB_SCALE then 1 else -1)
    requires LargestAbove(f, if step > 0 then 0 else 1, |f|) == b
    ensures 0 <= f[b] + step && (f[b] <= PROB_SCALE || step < 0)
    ensures Sum(f[b := f[b] + step]) == Sum(f) + step
    ensures Rebalance(f[b := f[b] + step]) == Rebalance(f)
  {
    EntryAtMostSum(f, b);
    LargestAboveIsLargest(f, if step > 0 then 0 else 1, |f|);
    SumUpdate(f, b, f[b] + step);
  }

  lemma RebalanceStuck(f: seq<nat>)
    requires LargestAbove(f, if Sum(f) < PROB_SCALE then 0 else 1, |f|) < 0
    ensures Rebalance(f) == f
  {
  }

  /** The scan both correction loops make: the first largest entry above `floor`. */
  method FindLargest(f: array<u16>, floor: nat) returns (best: int)
    requires f.Length == SYMBOLS
    ensures best == LargestAbove(f[..], floor, SYMBOLS)
  {
    best := -1;
    for i := 0 to SYMBOLS
      invariant best == LargestAbove(f[..], floor, i)
    {
      if f[i] > floor && (best < 0 || f[i] > f[best]) { best := i; }
    }
  }

  method RoundInto(raw: seq<nat>, total: nat, out: array<u16>) returns (sum: nat)
    requires |raw| == SYMBOLS && Sum(raw) == total && out.Length == SYMBOLS && 0 < total
    modifies out
    ensures out[..] == RoundedAll(raw, total) && sum == Sum(out[..])
  {
    ghost var f := RoundedAll(raw, total);
    sum := 0;
    for i := 0 to SYMBOLS
      invariant forall j :: 0 <= j < i ==> out[j] == f[j]
      invariant sum == Cum(f, i)
    {
      EntryAtMostSum(raw, i);
      RoundedBound(raw[i], total);
      if raw[i] > 0 {
        var r := (raw[i] * PROB_SCALE + total / 2) / total;
        out[i] := if r < 1 then 1 else r;
      } else {
        out[i] := 0;
      }
      sum := sum + out[i];
      CumStep(f, i);
    }
    CumEnds(f);
    assert out[..] == f;
  }

  /** `quantize_freqs`: no 16-bit entry wraps on the way. */
  method QuantizeFreqs(raw: seq<nat>, total: nat, out: array<u16>)
    requires |raw| == SYMBOLS && Sum(raw) == total && out.Length == SYMBOLS
    modifies out
    ensures out[..] == Quantized(raw, total)
  {
    if total == 0 {
      for i := 0 to SYMBOLS
        invariant forall j :: 0 <= j < i ==> out[j] == PROB_SCALE / SYMBOLS
      {
        out[i] := PROB_SCALE / SYMBOLS;
      }
      out[0] := out[0] + (PROB_SCALE - SYMBOLS * (PROB_SCALE / SYMBOLS));
      assert out[..] == Flat();
      return;
    }

    hide Sum, Rebalance, LargestAbove;
    var sum := RoundInto(raw, total, out);
    var diff := PROB_SCALE - sum;
    while diff != 0
      invariant diff == PROB_SCALE - Sum(out[..])
      invariant Rebalance(out[..]) == Quantized(raw, total)
      decreases if diff < 0 then -diff else diff
    {
      ghost var before := out[..];
      var best := FindLargest(out, if diff > 0 then 0 else 1);
      if best < 0 { RebalanceStuck(before); break; }
      var step: int := if diff > 0 then 1 else -1;
      RebalanceStep(before, best, step);
      out[best] := out[best] + step;
      assert out[..] == before[best := before[best] + step];
      diff := diff - step;
    }
  }

  // --------------------------------------------------------- slots to symbols

  /** The symbol whose interval of slots contains `slot`, searched below `n`. */
  function SymbolBelow(f: seq<nat>, slot: nat, n: nat): (s: nat)
    requires 0 < n <= |f| && slot < Cum(f, n)
    ensures s < n && Cum(f, s) <= slot < Cum(f, s + 1)
  {
    CumStep(f, n - 1);
    CumEnds(f);
    if n == 1 || Cum(f, n - 1) <= slot then n - 1
    else SymbolBelow(f, slot, n - 1)
  }

  function SymbolAt(f: Table, slot: nat): (s: byte)
    requires slot < PROB_SCALE
    ensures Cum(f, s) <= slot < Cum(f, s + 1)
  {
    CumEnds(f);
    SymbolBelow(f, slot, SYMBOLS)
  }

  /** The intervals partition the slots: each slot belongs to one symbol only. */
  lemma SymbolAtUnique(f: Table, slot: nat, s: byte)
    requires slot < PROB_SCALE && Cum(f, s) <= slot < Cum(f, s + 1)
    ensures SymbolAt(f, slot) == s
  {
    var t := SymbolAt(f, slot);
    if t < s { CumMono(f, t + 1, s); }
    if s < t { CumMono(f, s + 1, t); }
  }
}
