/** How short rANS output is (src/entropy.cpp). */
module RansLength {
  // The bytes pushed while coding a string come to no more than the ideal code length
  // under the tables, up to a factor of 2049/2048 for every symbol.

  import opened Bytes
  import opened FrequencyTable
  import opened Rans
  import Entropy

  /** The number that state and stack make together. */
  ghost function Weight(c: Coder): nat {
    Times(c.state, Pow(256, |c.stack|))
  }

  lemma {:induction false} RenormWeight(c: Coder, freq: nat)
    requires 0 < freq
    ensures Weight(Renorm(c, freq)) <= Weight(c)
    decreases c.state
  {
    if c.state >= RENORM * freq {
      var d, p := Coder(c.state / 256, c.stack + [c.state % 256]), Pow(256, |c.stack|);
      RenormWeight(d, freq);
      assert Pow(256, |d.stack|) == 256 * p;
      MulAssoc(d.state, 256, p);
      MulLe(p, d.state * 256, c.state);
    }
  }

  /** Absorbing a symbol of weight `freq` multiplies the state by 4096 / freq, and by a
      little more for the remainder that does not divide. */
  lemma AbsorbGrowth(x: nat, freq: nat, cum: nat)
    requires 0 < freq && cum + freq <= PROB_SCALE && 0x800 * freq <= x
    ensures Absorb(x, freq, cum) * (0x800 * freq) <= 0x801_000 * x
  {
    var q, r := x / freq, x % freq;
    var s := Absorb(x, freq, cum);
    assert x == freq * q + r;
    assert s * freq == PROB_SCALE * (freq * q) + freq * (r + cum) by { Spread(freq, q, r + cum); }
    MulLe(freq, r + cum, PROB_SCALE);
    assert s * freq <= PROB_SCALE * x + PROB_SCALE * freq;
    assert s * (0x800 * freq) == 0x800 * (s * freq) by { Swap(s, 0x800, freq); }
  }

  lemma Spread(f: nat, q: nat, rest: nat)
    ensures (q * PROB_SCALE + rest) * f == PROB_SCALE * (f * q) + f * rest
  {
  }

  lemma Swap(a: nat, b: nat, c: nat)
    ensures a * (b * c) == b * (a * c)
  {
  }

  lemma PutGrowth(c: Coder, freq: nat, cum: nat)
    requires Normal(c) && 0 < freq && cum + freq <= PROB_SCALE
    ensures Weight(Put(c, freq, cum)) * (0x800 * freq) <= 0x801_000 * Weight(c)
  {
    RenormRange(c, freq);
    RenormWeight(c, freq);
    var r, d := Renorm(c, freq), Put(c, freq, cum);
    AbsorbGrowth(r.state, freq, cum);
    var p := Pow(256, |r.stack|);
    hide Renorm, Absorb;
    Scaled(d.state, p, 0x800 * freq, r.state);
  }

  lemma Scaled(s: nat, p: nat, f: nat, x: nat)
    requires s * f <= 0x801_000 * x
    ensures (s * p) * f <= 0x801_000 * (x * p)
  {
    assert (s * p) * f == p * (s * f);
    MulLe(p, s * f, 0x801_000 * x);
    assert p * (0x801_000 * x) == 0x801_000 * (x * p);
  }

  /** The product of the weights of the symbols of data[i..], each taken 2048 times. */
  ghost function Weights(m: Model, data: seq<byte>, i: nat): nat
    requires Covers(m, data) && i <= |data|
    decreases |data| - i
  {
    if i == |data| then 1 else Times(0x800 * m.For(Prev(data, i))[data[i]], Weights(m, data, i + 1))
  }

  lemma {:induction false} WeightBound(m: Model, data: seq<byte>, i: nat)
    requires Covers(m, data) && i <= |data|
    ensures Weight(EncodeFrom(m, data, i)) * Weights(m, data, i) <= RANS_L * Pow(0x801_000, |data| - i)
    decreases |data| - i
  {
    hide Put, Cum, Sum, Weight;
    if i == |data| {
      InitialWeight();
    } else {
      WeightBound(m, data, i + 1);
      DecodeInvertsEncode(m, data, i + 1);
      var c, t, s := EncodeFrom(m, data, i + 1), m.For(Prev(data, i)), data[i];
      assert EncodeFrom(m, data, i) == Put(c, t[s], Cum(t, s));
      IntervalFits(t, s);
      PutGrowth(c, t[s], Cum(t, s));
      OneMoreSymbol(Weight(EncodeFrom(m, data, i)), Weight(c), 0x800 * t[s], Weights(m, data, i + 1),
                    RANS_L * Pow(0x801_000, |data| - i - 1));
      assert 0x801_000 * (RANS_L * Pow(0x801_000, |data| - i - 1)) == RANS_L * Pow(0x801_000, |data| - i);
    }
  }

  lemma InitialWeight()
    ensures Weight(Initial) == RANS_L && Pow(0x801_000, 0) == 1
  {
  }

  lemma OneMoreSymbol(after: nat, before: nat, f: nat, rest: nat, bound: nat)
    requires after * f <= 0x801_000 * before && before * rest <= bound
    ensures after * (f * rest) <= 0x801_000 * bound
  {
    MulLe(rest, after * f, 0x801_000 * before);
    assert after * (f * rest) == rest * (after * f);
    assert rest * (0x801_000 * before) == 0x801_000 * (before * rest);
    MulLe(0x801_000, before * rest, bound);
  }

  /** The code length: with `b` bytes on the stack after the symbols of data[i..], whose
      weights are f, 256^b is at most the product of 4096 / f * 2049 / 2048. So the
      bytes are those of the ideal code, and less than a thousandth of a bit more for
      every symbol. */
  lemma CodeLength(m: Model, data: seq<byte>, i: nat)
    requires Covers(m, data) && i <= |data|
    ensures Pow(256, |EncodeFrom(m, data, i).stack|) * Weights(m, data, i) <= Pow(PROB_SCALE * 0x801, |data| - i)
  {
    hide EncodeFrom, Weights;
    WeightBound(m, data, i);
    DecodeInvertsEncode(m, data, i);
    var c := EncodeFrom(m, data, i);
    Divided(c.state, Pow(256, |c.stack|), Weights(m, data, i), Pow(0x801_000, |data| - i));
  }

  lemma Divided(state: nat, p: nat, w: nat, bound: nat)
    requires RANS_L <= state && (state * p) * w <= RANS_L * bound
    ensures p * w <= bound
  {
    assert (state * p) * w == (p * w) * state;
    MulLe(p * w, RANS_L, state);
  }

  /** An order-0 stream is its header of 520 bytes, the final state, and the code under
      the quantised counts of its own bytes. */
  lemma Order0Length(data: seq<byte>)
    requires 0 < |data|
    ensures Sum(Counts(data)) == |data| && Sum(Quantized(Counts(data), |data|)) == PROB_SCALE
            && |Quantized(Counts(data), |data|)| == SYMBOLS
    ensures var m := Order0(Quantized(Counts(data), |data|));
            && Covers(m, data) && |Entropy.Encode0(data)| >= 524
            && Pow(256, |Entropy.Encode0(data)| - 524) * Weights(m, data, 0) <= Pow(PROB_SCALE * 0x801, |data|)
  {
    hide EncodeFrom, Weights, Covers, LE, Counts, Quantized, Sum;
    CountsProperties(data);
    QuantizedIsTable(Counts(data), |data|);
    Entropy.StatsCover(data);
    CodeLength(Order0(Entropy.Stats(data)), data, 0);
    StreamLength(data);
  }

  lemma StreamLength(data: seq<byte>)
    requires 0 < |data|
    ensures |Entropy.Encode0(data)| == 524 + |EncodeFrom(Order0(Entropy.Stats(data)), data, 0).stack|
  {
    hide EncodeFrom, Entropy.Stats, LE, Entropy.TableBytes;
  }

  // ------------------------------------------------------------------- order 1

  /** Where the byte stands after a byte `c`. */
  ghost function PlacesAfter(data: seq<byte>, c: byte, b: byte): set<int> {
    set i | 0 <= i < |data| && Prev(data, i) == c && data[i] == b
  }

  lemma {:induction false} FollowersExact(data: seq<byte>, c: byte, b: byte)
    ensures Counts(Entropy.Followers(data, c))[b] == |PlacesAfter(data, c, b)|
  {
    hide Counts;
    if |data| == 0 {
      NothingCounted(b);
      assert PlacesAfter(data, c, b) == {};
    } else {
      var n := |data| - 1;
      var before := Entropy.Followers(data[..n], c);
      FollowersExact(data[..n], c, b);
      PlacesOneMore(data, c, b);
      if Prev(data, n) == c { CountsOneMore(before, data[n], b); } else { Unit(before); }
    }
  }

  lemma NothingCounted(b: byte)
    ensures Counts([])[b] == 0
  {
  }

  lemma CountsOneMore(xs: seq<byte>, x: byte, b: byte)
    ensures Counts(xs + [x])[b] == Counts(xs)[b] + if x == b then 1 else 0
  {
    assert (xs + [x])[..|xs|] == xs;
  }

  lemma PlacesOneMore(data: seq<byte>, c: byte, b: byte)
    requires |data| > 0
    ensures var n := |data| - 1;
            |PlacesAfter(data, c, b)|
            == |PlacesAfter(data[..n], c, b)| + if Prev(data, n) == c && data[n] == b then 1 else 0
  {
    var n := |data| - 1;
    assert forall i :: 0 <= i < n ==> Prev(data[..n], i) == Prev(data, i);
    assert PlacesAfter(data, c, b)
           == PlacesAfter(data[..n], c, b) + if Prev(data, n) == c && data[n] == b then {n} else {};
  }

  /** The table of a context: the quantised counts of the bytes that follow it. */
  ghost predicate CountsAfter(data: seq<byte>, c: byte, t: seq<nat>) {
    exists raw: seq<nat> :: |raw| == SYMBOLS && (forall b: byte :: raw[b] == |PlacesAfter(data, c, b)|)
                            && t == Quantized(raw, Sum(raw))
  }

  lemma ContextTable(data: seq<byte>, c: byte)
    requires c in Entropy.ContextTables(data)
    ensures CountsAfter(data, c, Entropy.ContextTables(data)[c])
  {
    hide Counts, Quantized, Sum;
    var f := Entropy.Followers(data, c);
    CountsProperties(f);
    forall b: byte ensures Counts(f)[b] == |PlacesAfter(data, c, b)| { FollowersExact(data, c, b); }
    assert Entropy.ContextTables(data)[c] == Quantized(Counts(f), Sum(Counts(f)));
  }

  lemma {:induction false} FollowedIff(data: seq<byte>, c: byte)
    ensures Entropy.Followers(data, c) != [] <==> exists i :: 0 <= i < |data| && Prev(data, i) == c
  {
    if |data| > 0 {
      var n := |data| - 1;
      FollowedIff(data[..n], c);
      assert forall i :: 0 <= i < n ==> Prev(data[..n], i) == Prev(data, i);
      if i :| 0 <= i < |data| && Prev(data, i) == c {
        if i < n { assert Prev(data[..n], i) == c; }
      }
    }
  }

  lemma {:induction false} ContextBytesLength(ts: map<byte, Table>, n: nat)
    requires n <= 256
    ensures |Entropy.ContextBytes(ts, n)| == 513 * |set c: byte | c in ts && c < n|
    ensures Entropy.Active(ts, n) == |set c: byte | c in ts && c < n|
  {
    hide Entropy.TableBytes;
    var some := set c: byte | c in ts && c < n;
    if n == 0 {
      assert some == {};
    } else {
      ContextBytesLength(ts, n - 1);
      var fewer := set c: byte | c in ts && c < n - 1;
      assert some == fewer + if n - 1 in ts then {n - 1} else {};
    }
  }

  /** An order-1 stream is 14 bytes, 513 for each context that occurs, and the code under
      the quantised counts of the bytes that follow each context. */
  lemma Order1Length(data: seq<byte>) returns (ts: map<byte, Table>)
    requires 0 < |data|
    ensures forall c: byte :: c in ts <==> exists i :: 0 <= i < |data| && Prev(data, i) == c
    ensures forall c :: c in ts ==> CountsAfter(data, c, ts[c])
    ensures Covers(Order1(ts), data) && |Entropy.Encode1(data)| >= 14 + 513 * |ts|
    ensures Pow(256, |Entropy.Encode1(data)| - 14 - 513 * |ts|) * Weights(Order1(ts), data, 0)
            <= Pow(PROB_SCALE * 0x801, |data|)
  {
    hide EncodeFrom, Weights, Covers, CountsAfter, Entropy.Stats, Entropy.Followers, LE;
    ts := Entropy.ContextTables(data);
    forall c: byte ensures c in ts <==> exists i :: 0 <= i < |data| && Prev(data, i) == c { FollowedIff(data, c); }
    forall c | c in ts ensures CountsAfter(data, c, ts[c]) { ContextTable(data, c); }
    Entropy.ContextsCover(data);
    CodeLength(Order1(ts), data, 0);
    Stream1Length(data);
  }

  lemma Stream1Length(data: seq<byte>)
    ensures var ts := Entropy.ContextTables(data);
            |Entropy.Encode1(data)| == 14 + 513 * |ts| + |EncodeFrom(Order1(ts), data, 0).stack|
  {
    hide EncodeFrom, Entropy.ContextTables, LE, Entropy.ContextBytes;
    var ts := Entropy.ContextTables(data);
    ContextBytesLength(ts, 256);
    assert (set c: byte | c in ts && c < 256) == ts.Keys;
    assert |ts.Keys| == |ts|;
  }
}
