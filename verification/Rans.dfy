/** The rANS state machine (src/entropy.cpp). */
module Rans {
  // One state word and a stack of renormalisation bytes, driven by frequency
  // tables chosen from the context.

  import opened Bytes
  import opened FrequencyTable

  const RANS_L := 0x80_0000       // 2^23, the lower end of the state interval
  const STATE_END := 0x8000_0000  // 2^31, the upper end
  const RENORM := 0x8_0000        // ((RANS_L >> 12) << 8), per unit of frequency

  type u32 = x: int | 0 <= x < 0x1_0000_0000

  /** The coder between two symbols: the top of the stack is its last byte. */
  datatype Coder = Coder(state: nat, stack: seq<byte>)

  const Initial := Coder(RANS_L, [])

  ghost predicate Normal(c: Coder) {
    RANS_L <= c.state < STATE_END
  }

  // -------------------------------------------------------------- one symbol

  /** The encoder's inner loop: push low bytes until the state has room. */
  function Renorm(c: Coder, freq: nat): Coder
    requires 0 < freq
    decreases c.state
  {
    if c.state >= RENORM * freq then
      Renorm(Coder(c.state / 256, c.stack + [c.state % 256]), freq)
    else c
  }

  function Absorb(state: nat, freq: nat, cum: nat): nat
    requires 0 < freq
  {
    (state / freq) * PROB_SCALE + state % freq + cum
  }

  /** Encode one symbol whose interval is [cum, cum + freq). */
  function Put(c: Coder, freq: nat, cum: nat): Coder
    requires 0 < freq
  {
    var r := Renorm(c, freq);
    Coder(Absorb(r.state, freq, cum), r.stack)
  }

  /** The decoder's inner loop: pull bytes back while the state is short. */
  function Refill(c: Coder): Coder
    decreases |c.stack|
  {
    if c.state < RANS_L && |c.stack| > 0 then
      var n := |c.stack| - 1;
      Refill(Coder(c.state * 256 + c.stack[n], c.stack[..n]))
    else c
  }

  function Release(state: nat, freq: nat, cum: nat): nat
    requires cum <= state % PROB_SCALE
  {
    freq * (state / PROB_SCALE) + state % PROB_SCALE - cum
  }

  /** Decode one symbol, once its interval is known. */
  function Take(c: Coder, freq: nat, cum: nat): Coder
    requires cum <= c.state % PROB_SCALE
  {
    Refill(Coder(Release(c.state, freq, cum), c.stack))
  }

  /** Renormalising leaves the state in [2^11 * freq, 2^19 * freq). */
  lemma {:induction false} RenormRange(c: Coder, freq: nat)
    requires 0 < freq <= PROB_SCALE && 0x800 * freq <= c.state < STATE_END
    ensures 0x800 * freq <= Renorm(c, freq).state < RENORM * freq
    decreases c.state
  {
    if c.state >= RENORM * freq {
      RenormRange(Coder(c.state / 256, c.stack + [c.state % 256]), freq);
    }
  }

  /** Refilling pulls back exactly the bytes that renormalising pushed. */
  lemma {:induction false} RefillUndoesRenorm(c: Coder, freq: nat)
    requires 0 < freq && c.state < STATE_END
    ensures Refill(Renorm(c, freq)) == Refill(c)
    decreases c.state
  {
    if c.state >= RENORM * freq {
      var d := Coder(c.state / 256, c.stack + [c.state % 256]);
      RefillUndoesRenorm(d, freq);
      assert d.stack[..|c.stack|] == c.stack;
      assert d.state < RANS_L && d.state * 256 + c.state % 256 == c.state;
    }
  }

  lemma AbsorbRelease(state: nat, freq: nat, cum: nat)
    requires 0 < freq && cum + freq <= PROB_SCALE
    ensures var s := Absorb(state, freq, cum);
            && s % PROB_SCALE == state % freq + cum
            && s / PROB_SCALE == state / freq
            && Release(s, freq, cum) == state
  {
    DivModOf(state % freq + cum, state / freq, PROB_SCALE);
  }

  lemma QuotientRange(x: nat, f: nat, lo: nat, hi: nat)
    requires 0 < f && lo * f <= x < hi * f
    ensures lo <= x / f < hi
  {
    DivIsBelow(x, f, hi);
    if x / f < lo { MulLe(f, x / f + 1, lo); }
  }

  /** One symbol: the state never leaves [2^23, 2^31), the slot the decoder
      reads lies in the symbol's interval, and taking the symbol restores the
      state and the stack exactly. */
  lemma PutTake(c: Coder, freq: nat, cum: nat)
    requires Normal(c) && 0 < freq && cum + freq <= PROB_SCALE
    ensures var d := Put(c, freq, cum);
            && Normal(d)
            && cum <= d.state % PROB_SCALE < cum + freq
            && Take(d, freq, cum) == c
  {
    RenormRange(c, freq);
    var r := Renorm(c, freq);
    AbsorbRelease(r.state, freq, cum);
    QuotientRange(r.state, freq, 0x800, RENORM);
    RefillUndoesRenorm(c, freq);
    assert Take(Put(c, freq, cum), freq, cum) == Refill(r);
  }

  /** Whatever state the decoder is in, its 32-bit arithmetic does not wrap. */
  lemma ReleaseFits(state: nat, freq: nat, cum: nat)
    requires state < U32 && cum <= state % PROB_SCALE < cum + freq && freq <= PROB_SCALE
    ensures Release(state, freq, cum) < U32
  {
    var q := state / PROB_SCALE;
    assert q <= 0xF_FFFF;
    assert freq * q + freq == freq * (q + 1) by { MulDistributes(freq, q, 1); }
    assert freq * (q + 1) <= PROB_SCALE * 0x10_0000 by {
      MulLe(freq, q + 1, 0x10_0000);
      MulLe(0x10_0000, freq, PROB_SCALE);
    }
  }

  // ------------------------------------------------------------ whole strings

  /** Which table codes the symbol after `prev`: order 0 has one for all
      contexts, order 1 one for each context in use. */
  datatype Model =
    | Order0(table: Table)
    | Order1(tables: map<byte, Table>)
  {
    predicate Knows(prev: byte) {
      Order0? || prev in tables
    }

    function For(prev: byte): Table
      requires Knows(prev)
    {
      if Order0? then table else tables[prev]
    }
  }

  /** The context of position `i`: the byte before it, 0 at the start. */
  function Prev(data: seq<byte>, i: nat): byte
    requires i <= |data|
  {
    if i == 0 then 0 else data[i - 1]
  }

  /** The coder after encoding data[i..], last symbol first; a symbol without
      weight is skipped, as the source skips it. */
  function EncodeFrom(m: Model, data: seq<byte>, i: nat): Coder
    requires i <= |data|
    decreases |data| - i
  {
    if i == |data| then Initial
    else
      var c := EncodeFrom(m, data, i + 1);
      var prev := Prev(data, i);
      if !m.Knows(prev) then c
      else
        var t := m.For(prev);
        if t[data[i]] == 0 then c else Put(c, t[data[i]], Cum(t, data[i]))
  }

  /** `n` symbols decoded from `c` after the byte `prev`, and the coder left.
      Decoding stops early at a context without a table. */
  function DecodeFrom(m: Model, c: Coder, prev: byte, n: nat): (r: (seq<byte>, Coder))
    ensures |r.0| <= n
    decreases n
  {
    if n == 0 || !m.Knows(prev) then ([], c)
    else
      var t := m.For(prev);
      var s := SymbolAt(t, c.state % PROB_SCALE);
      var (rest, last) := DecodeFrom(m, Take(c, t[s], Cum(t, s)), s, n - 1);
      ([s] + rest, last)
  }

  /** Every symbol of data[i..] has a weight in the table its context selects. */
  ghost predicate Covers(m: Model, data: seq<byte>) {
    forall i :: 0 <= i < |data| ==> m.Knows(Prev(data, i)) && 0 < m.For(Prev(data, i))[data[i]]
  }

  lemma IntervalFits(t: Table, s: byte)
    ensures Cum(t, s) + t[s] <= PROB_SCALE && t[s] <= PROB_SCALE
    ensures Cum(t, s + 1) == Cum(t, s) + t[s]
  {
    CumStep(t, s);
    CumEnds(t);
    CumMono(t, s + 1, SYMBOLS);
  }

  lemma PutPushes(c: Coder, freq: nat, cum: nat)
    requires 0 < freq && Normal(c)
    ensures |Put(c, freq, cum).stack| <= |c.stack| + 2
  {
    var c1 := Coder(c.state / 256, c.stack + [c.state % 256]);
    var c2 := Coder(c1.state / 256, c1.stack + [c1.state % 256]);
    if c.state >= RENORM * freq {
      assert Renorm(c, freq) == Renorm(c1, freq);
      if c1.state >= RENORM * freq {
        assert Renorm(c1, freq) == Renorm(c2, freq);
        assert c2.state < RENORM;
      }
    }
  }

  /** One encoding step seen from the decoder: it finds the symbol in the slot
      and returns to the coder before the step. */
  lemma SymbolRoundTrip(t: Table, c: Coder, s: byte)
    requires Normal(c) && 0 < t[s]
    ensures var d := Put(c, t[s], Cum(t, s));
            && Normal(d)
            && |d.stack| <= |c.stack| + 2
            && SymbolAt(t, d.state % PROB_SCALE) == s
            && Take(d, t[s], Cum(t, s)) == c
  {
    hide Put, Take, Cum, SymbolAt, Sum;
    IntervalFits(t, s);
    PutTake(c, t[s], Cum(t, s));
    PutPushes(c, t[s], Cum(t, s));
    SymbolAtUnique(t, Put(c, t[s], Cum(t, s)).state % PROB_SCALE, s);
  }

  /** Decoding from any point yields the rest of the input, ends in the state
      2^23 the encoder started from, and leaves no byte on the stack; the stack
      never grows by more than two bytes a symbol. */
  lemma {:induction false} DecodeInvertsEncode(m: Model, data: seq<byte>, i: nat)
    requires Covers(m, data) && i <= |data|
    ensures Normal(EncodeFrom(m, data, i))
    ensures |EncodeFrom(m, data, i).stack| <= 2 * (|data| - i)
    ensures DecodeFrom(m, EncodeFrom(m, data, i), Prev(data, i), |data| - i) == (data[i..], Initial)
    decreases |data| - i
  {
    hide Put, Take, Cum, SymbolAt, Sum;
    if i == |data| {
      assert data[i..] == [];
    } else {
      DecodeInvertsEncode(m, data, i + 1);
      var c, t, s := EncodeFrom(m, data, i + 1), m.For(Prev(data, i)), data[i];
      SymbolRoundTrip(t, c, s);
      assert EncodeFrom(m, data, i) == Put(c, t[s], Cum(t, s));
      assert data[i..] == [s] + data[i + 1..];
    }
  }
}
