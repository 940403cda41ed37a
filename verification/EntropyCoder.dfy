/** The loops of src/entropy.cpp, proved against the functions they compute. */
module EntropyCoder {
  // Each is proved to compute its function in `Entropy`, on 32-bit state words and
  // 16-bit tables.

  import opened Bytes
  import opened FrequencyTable
  import opened Rans
  import opened Entropy

  /** cum_freq as a whole: the weight before each symbol, and the total. */
  function CumTable(t: Table): (c: seq<nat>)
    ensures |c| == SYMBOLS + 1
  {
    seq(SYMBOLS + 1, i requires 0 <= i <= SYMBOLS => Cum(t, i))
  }

  function SlotTable(t: Table): (c: seq<byte>)
    ensures |c| == PROB_SCALE
  {
    seq(PROB_SCALE, k requires 0 <= k < PROB_SCALE => SymbolAt(t, k))
  }

  lemma CumFits(t: Table, i: nat)
    requires i <= SYMBOLS
    ensures Cum(t, i) <= PROB_SCALE
  {
    CumEnds(t);
    CumMono(t, i, SYMBOLS);
  }

  method Cumulate(t: Table) returns (cum: seq<u16>)
    ensures cum == CumTable(t)
  {
    hide Sum, Cum;
    var a := new u16[SYMBOLS + 1];
    CumEnds(t);
    a[0] := 0;
    for i := 0 to SYMBOLS
      invariant forall j :: 0 <= j <= i ==> a[j] == Cum(t, j)
    {
      IntervalFits(t, i);
      a[i + 1] := a[i] + t[i];
    }
    cum := a[..];
  }

  /** `build_stats`. */
  method BuildStats(data: seq<byte>) returns (freq: Table, cum: seq<u16>)
    requires |data| < U32
    ensures freq == Stats(data) && cum == CumTable(freq)
  {
    hide Sum, Quantized, Cum;
    var raw := NoCounts();
    for i := 0 to |data|
      invariant raw == Counts(data[..i])
    {
      assert data[..i + 1][..i] == data[..i];
      raw := raw[data[i] := raw[data[i]] + 1];
    }
    assert data[..|data|] == data;
    CountsProperties(data);
    QuantizedIsTable(raw, |data|);
    var out := new u16[SYMBOLS];
    QuantizeFreqs(raw, |data|, out);
    freq := out[..];
    cum := Cumulate(freq);
  }

  /** Renormalise, then absorb one symbol. */
  method PushSymbol(state: u32, bytes: seq<byte>, freq: u16, cum: u16) returns (s: u32, out: seq<byte>)
    requires Normal(Coder(state, bytes)) && 0 < freq && cum + freq <= PROB_SCALE
    ensures Coder(s, out) == Put(Coder(state, bytes), freq, cum) && Normal(Coder(s, out))
  {
    var xMax: nat := RENORM * freq;
    s, out := state, bytes;
    while s >= xMax
      invariant Renorm(Coder(s, out), freq) == Renorm(Coder(state, bytes), freq)
    {
      out := out + [s % 256];
      s := s / 256;
    }
    PutTake(Coder(state, bytes), freq, cum);
    assert Put(Coder(state, bytes), freq, cum).state == Absorb(s, freq, cum);
    s := (s / freq) * PROB_SCALE + s % freq + cum;
  }

  method FinishStream(head: seq<byte>, state: u32, bytes: seq<byte>) returns (out: seq<byte>)
    ensures out == head + Tail(Coder(state, bytes))
  {
    var payload := bytes + LE(state, 4);
    out := head + (LE(|payload|, 4) + payload);
  }

  method WriteTable(head: seq<byte>, freq: Table) returns (out: seq<byte>)
    ensures out == head + TableBytes(freq)
  {
    hide Sum;
    out := head;
    for i := 0 to SYMBOLS
      invariant out == head + TableBytes(freq[..i])
    {
      assert freq[..i + 1][..i] == freq[..i];
      out := out + LE(freq[i], 2);
    }
    assert freq[..SYMBOLS] == freq;
  }

  /** `RANSEncoder::encode`: symbols go in from the last to the first. */
  method EncodeOrder0(data: seq<byte>) returns (out: seq<byte>)
    requires |data| < U32
    ensures out == Encode0(data)
  {
    hide Sum, Cum, Quantized, Put;
    if |data| == 0 { return [0, 0, 0, 0]; }
    var freq, cum := BuildStats(data);
    ghost var m := Order0(freq);
    StatsCover(data);
    var state: u32, bytes: seq<byte> := RANS_L, [];
    var i := |data|;
    while i > 0
      invariant 0 <= i <= |data|
      invariant Coder(state, bytes) == EncodeFrom(m, data, i) && Normal(Coder(state, bytes))
    {
      var sym := data[i - 1];
      assert m.Knows(Prev(data, i - 1)) && m.For(Prev(data, i - 1)) == freq;
      if freq[sym] != 0 {
        IntervalFits(freq, sym);
        SymbolRoundTrip(freq, Coder(state, bytes), sym);
        state, bytes := PushSymbol(state, bytes, freq[sym], cum[sym]);
      }
      i := i - 1;
    }
    out := WriteTable(LE(|data|, 4), freq);
    out := FinishStream(out, state, bytes);
  }

  /** The slot table: every slot names the one symbol whose interval holds it. */
  method BuildSlots(t: Table, cum: seq<u16>) returns (slots: seq<byte>)
    requires cum == CumTable(t)
    ensures slots == SlotTable(t)
  {
    hide Sum, Cum, SymbolAt;
    var a := new byte[PROB_SCALE];
    CumEnds(t);
    for s := 0 to SYMBOLS
      invariant cum[s] <= PROB_SCALE
      invariant forall k :: 0 <= k < cum[s] ==> a[k] == SymbolAt(t, k)
    {
      IntervalFits(t, s);
      CumFits(t, s + 1);
      for j := cum[s] to cum[s + 1]
        invariant forall k :: 0 <= k < j ==> a[k] == SymbolAt(t, k)
      {
        SymbolAtUnique(t, j, s);
        a[j] := s;
      }
    }
    slots := a[..];
  }

  /** Release one symbol, then pull bytes back; `top` counts the bytes left. */
  method PullSymbol(state: u32, bytes: seq<byte>, top: nat, freq: u16, cum: u16) returns (s: u32, left: nat)
    requires top <= |bytes| && freq <= PROB_SCALE
    requires cum <= state % PROB_SCALE < cum + freq
    ensures left <= top && Coder(s, bytes[..left]) == Take(Coder(state, bytes[..top]), freq, cum)
  {
    ReleaseFits(state, freq, cum);
    var slot := state % PROB_SCALE;
    s := freq * (state / PROB_SCALE) + slot - cum;
    left := top;
    ghost var c := Coder(s, bytes[..top]);
    while s < RANS_L && left > 0
      invariant left <= top
      invariant Refill(Coder(s, bytes[..left])) == Refill(c)
    {
      assert bytes[..left][..left - 1] == bytes[..left - 1];
      s := s * 256 + bytes[left - 1];
      left := left - 1;
    }
  }

  method ReadTableAt(d: seq<byte>, pos: nat) returns (t: seq<nat>)
    requires pos + 2 * SYMBOLS <= |d|
    ensures t == ReadEntries(d, pos, SYMBOLS)
  {
    t := [];
    for i := 0 to SYMBOLS
      invariant t == ReadEntries(d, pos, i)
    {
      t := t + [FromLE(d[pos + 2 * i..pos + 2 * (i + 1)])];
    }
  }

  method Total(t: seq<nat>) returns (sum: nat)
    ensures sum == Sum(t)
  {
    sum := 0;
    for i := 0 to |t|
      invariant sum == Cum(t, i)
    {
      CumStep(t, i);
      sum := sum + t[i];
    }
    CumEnds(t);
  }

  /** `RANSEncoder::decode`, on every byte string. */
  method DecodeOrder0(d: seq<byte>) returns (out: seq<byte>)
    ensures out == Decode0(d)
  {
    hide Sum, Cum, SymbolAt, Take;
    if |d| < 4 { return []; }
    var orig := FromLE(d[..4]);
    if orig == 0 { return []; }
    if |d| < 520 { return []; }
    var entries := ReadTableAt(d, 4);
    var total := Total(entries);
    if total != PROB_SCALE { return []; }
    var freq: Table := entries;
    var n := FromLE(d[516..520]);
    if 520 + n > |d| || n < 4 || n >= 0x8000_0000 { return []; }
    var bytes := d[520..520 + n];
    FromLEBound(bytes[n - 4..]);
    PowValues();
    out := DecodeSymbols0(freq, bytes, orig);
  }

  /** The order-0 decoding loop. */
  method DecodeSymbols0(freq: Table, bytes: seq<byte>, orig: nat) returns (out: seq<byte>)
    requires |bytes| >= 4 && FromLE(bytes[|bytes| - 4..]) < U32
    ensures out == DecodeFrom(Order0(freq), Coder(FromLE(bytes[|bytes| - 4..]), bytes[..|bytes| - 4]), 0, orig).0
  {
    hide Sum, Cum, SymbolAt, Take, FromLE;
    var cum := Cumulate(freq);
    var slots := BuildSlots(freq, cum);
    ghost var m := Order0(freq);
    var n := |bytes|;
    var state: u32, top: nat := FromLE(bytes[n - 4..]), n - 4;
    ghost var start := Coder(state, bytes[..top]);
    out := [];
    ghost var prev: byte := 0;
    for i := 0 to orig
      invariant top <= n
      invariant out + DecodeFrom(m, Coder(state, bytes[..top]), prev, orig - i).0 == DecodeFrom(m, start, 0, orig).0
    {
      var sym := slots[state % PROB_SCALE];
      IntervalFits(freq, sym);
      out := out + [sym];
      state, top := PullSymbol(state, bytes, top, freq[sym], cum[sym]);
      prev := sym;
    }
  }

  ghost predicate Tallied(counts: seq<seq<nat>>, totals: seq<nat>, data: seq<byte>, i: nat)
    requires i <= |data|
  {
    |counts| == |totals| == 256
    && forall c: byte :: counts[c] == Counts(Followers(data[..i], c)) && totals[c] == |Followers(data[..i], c)|
  }

  lemma TallyStep(counts: seq<seq<nat>>, totals: seq<nat>, data: seq<byte>, i: nat)
    requires i < |data| && Tallied(counts, totals, data, i)
    ensures var ctx := Prev(data, i);
            Tallied(counts[ctx := counts[ctx][data[i] := counts[ctx][data[i]] + 1]],
                    totals[ctx := totals[ctx] + 1], data, i + 1)
  {
    hide Counts, Followers;
    forall c: byte { FollowersStep(data, i, c); }
  }

  lemma TalliedStart(counts: seq<seq<nat>>, totals: seq<nat>, data: seq<byte>)
    requires |counts| == |totals| == 256
    requires forall c: byte :: counts[c] == NoCounts() && totals[c] == 0
    ensures Tallied(counts, totals, data, 0)
  {
    assert data[..0] == [];
  }

  method Tally(counts: array<seq<nat>>, totals: array<nat>, ctx: byte, sym: byte)
    requires counts.Length == totals.Length == 256 && |counts[ctx]| == SYMBOLS
    modifies counts, totals
    ensures counts[..] == old(counts[..])[ctx := old(counts[ctx])[sym := old(counts[ctx])[sym] + 1]]
    ensures totals[..] == old(totals[..])[ctx := old(totals[ctx]) + 1]
  {
    counts[ctx] := counts[ctx][sym := counts[ctx][sym] + 1];
    totals[ctx] := totals[ctx] + 1;
  }

  /** Per-context counts: context 0 for the first byte, then each byte's predecessor. */
  method CountContexts(data: seq<byte>) returns (rows: seq<seq<nat>>, sizes: seq<nat>)
    requires 0 < |data|
    ensures Tallied(rows, sizes, data, |data|)
  {
    hide Tallied, Counts, NoCounts;
    var counts := new seq<nat>[256](_ => NoCounts());
    var totals := new nat[256](_ => 0);
    TalliedStart(counts[..], totals[..], data);
    TallyStep(counts[..], totals[..], data, 0);
    Tally(counts, totals, 0, data[0]);
    for i := 1 to |data|
      invariant Tallied(counts[..], totals[..], data, i)
    {
      TalliedRow(counts[..], totals[..], data, i, data[i - 1]);
      TallyStep(counts[..], totals[..], data, i);
      Tally(counts, totals, data[i - 1], data[i]);
    }
    rows, sizes := counts[..], totals[..];
  }

  lemma TalliedRow(counts: seq<seq<nat>>, totals: seq<nat>, data: seq<byte>, i: nat, c: byte)
    requires i <= |data| && Tallied(counts, totals, data, i)
    ensures |counts| == 256 && |counts[c]| == SYMBOLS
  {
  }

  lemma FollowersStep(data: seq<byte>, i: nat, c: byte)
    requires i < |data|
    ensures var f := Followers(data[..i], c);
            var g := Followers(data[..i + 1], c);
            && (Prev(data, i) != c ==> g == f)
            && (Prev(data, i) == c ==> |g| == |f| + 1)
            && (Prev(data, i) == c ==> Counts(g) == Counts(f)[data[i] := Counts(f)[data[i]] + 1])
  {
    assert data[..i + 1][..i] == data[..i];
    var f := Followers(data[..i], c);
    assert (f + [data[i]])[..|f|] == f;
  }

  /** Quantise every context that occurs; `active` lists them in byte order. */
  method QuantizeContexts(data: seq<byte>) returns (ts: map<byte, Table>, active: seq<byte>)
    requires 0 < |data|
    ensures ts == ContextTables(data)
    ensures |active| == Active(ts, 256)
    ensures forall c :: c in active ==> c in ts
    ensures ContextBytes(ts, 256) == ListedBytes(ts, active)
  {
    hide Sum, Quantized, TableBytes;
    var counts, totals := CountContexts(data);
    assert data[..|data|] == data;
    ts, active := map[], [];
    ghost var all := ContextTables(data);
    for c := 0 to 256
      invariant ts == Restrict(all, c)
      invariant |active| == Active(all, c)
      invariant forall k :: k in active ==> k in ts
      invariant ContextBytes(all, c) == ListedBytes(all, active)
    {
      RestrictStep(all, c);
      if totals[c] > 0 {
        ghost var f := Followers(data, c);
        CountsProperties(f);
        QuantizedIsTable(counts[c], totals[c]);
        var out := new u16[SYMBOLS];
        QuantizeFreqs(counts[c], totals[c], out);
        ts := ts[c := out[..]];
        active := active + [c];
        assert active[..|active| - 1] + [c] == active;
      }
    }
    RestrictAll(all);
  }

  /** The stored tables in the order of a context list. */
  function ListedBytes(ts: map<byte, Table>, cs: seq<byte>): seq<byte>
  {
    if |cs| == 0 then []
    else
      var c := cs[|cs| - 1];
      if c in ts then ListedBytes(ts, cs[..|cs| - 1]) + ([c] + TableBytes(ts[c]))
      else ListedBytes(ts, cs[..|cs| - 1])
  }

  method CumulateAll(ts: map<byte, Table>) returns (cums: seq<seq<u16>>)
    ensures |cums| == 256 && forall c :: c in ts ==> cums[c] == CumTable(ts[c])
  {
    hide CumTable;
    cums := [];
    for c := 0 to 256
      invariant |cums| == c && forall k :: k in ts && k < c ==> cums[k] == CumTable(ts[k])
    {
      var cum: seq<u16> := [];
      if c in ts { cum := Cumulate(ts[c]); }
      cums := cums + [cum];
    }
  }

  /** `RANSEncoderOrder1::encode_order1`. */
  method EncodeOrder1(data: seq<byte>) returns (out: seq<byte>)
    requires 0 < |data| < U32
    ensures out == Encode1(data)
  {
    hide Sum, Cum, Put, ContextTables, TableBytes;
    var ts, active := QuantizeContexts(data);
    var cums := CumulateAll(ts);
    ghost var m := Order1(ts);
    ContextsCover(data);
    var state: u32, bytes: seq<byte> := RANS_L, [];
    var i := |data|;
    while i > 0
      invariant 0 <= i <= |data|
      invariant Coder(state, bytes) == EncodeFrom(m, data, i) && Normal(Coder(state, bytes))
    {
      var sym := data[i - 1];
      var ctx := if i >= 2 then data[i - 2] else 0;
      assert ctx == Prev(data, i - 1);
      if ctx in ts {
        var freq := ts[ctx];
        if freq[sym] != 0 {
          IntervalFits(freq, sym);
          SymbolRoundTrip(freq, Coder(state, bytes), sym);
          state, bytes := PushSymbol(state, bytes, freq[sym], cums[ctx][sym]);
        }
      }
      i := i - 1;
    }
    out := LE(|data|, 4) + LE(|active|, 2);
    ghost var head := out;
    for a := 0 to |active|
      invariant out == head + ListedBytes(ts, active[..a])
    {
      assert active[..a + 1][..a] == active[..a];
      Regroup(head, ListedBytes(ts, active[..a]), [active[a]] + TableBytes(ts[active[a]]), []);
      out := WriteTable(out + [active[a]], ts[active[a]]);
    }
    assert active[..|active|] == active;
    out := FinishStream(out, state, bytes);
  }

  /** The stored context tables: what `ReadContexts` says, one table a pass. */
  method ReadContextTables(d: seq<byte>, count: nat) returns (r: Contexts)
    ensures r == ReadContexts(d, 6, count)
  {
    hide ReadEntries, Sum;
    r := Contexts(map[], 6);
    for a := 0 to count
      invariant r == ReadContexts(d, 6, a) && r.Contexts?
    {
      if r.pos + 513 > |d| { BadStays(d, a + 1, count); return Bad; }
      var entries := ReadTableAt(d, r.pos + 1);
      var total := Total(entries);
      if total != PROB_SCALE { BadStays(d, a + 1, count); return Bad; }
      r := Contexts(r.tables[d[r.pos] := entries], r.pos + 513);
    }
  }

  /** `RANSEncoderOrder1::decode_order1`, on every byte string. */
  method DecodeOrder1(d: seq<byte>) returns (out: seq<byte>)
    ensures out == Decode1(d)
  {
    hide ReadContexts, DecodeFrom, FromLE, Pow;
    if |d| < 6 { return []; }
    var orig := FromLE(d[..4]);
    if orig == 0 { return []; }
    var r := ReadContextTables(d, FromLE(d[4..6]));
    if r.Bad? { return []; }
    var pos := r.pos;
    if pos + 4 > |d| { return []; }
    var n := FromLE(d[pos..pos + 4]);
    if pos + 4 + n > |d| || n < 4 || n >= 0x8000_0000 { return []; }
    var bytes := d[pos + 4..pos + 4 + n];
    FromLEBound(bytes[n - 4..]);
    PowValues();
    out := DecodeSymbols1(r.tables, bytes, orig);
  }

  /** A rejected context table rejects the whole stream. */
  lemma {:induction false} BadStays(d: seq<byte>, a: nat, b: nat)
    requires ReadContexts(d, 6, a).Bad? && a <= b
    ensures ReadContexts(d, 6, b).Bad?
    decreases b
  {
    if a < b { BadStays(d, a, b - 1); }
  }

  method BuildAllSlots(ts: map<byte, Table>, cums: seq<seq<u16>>) returns (slots: seq<seq<byte>>)
    requires |cums| == 256 && forall c :: c in ts ==> cums[c] == CumTable(ts[c])
    ensures |slots| == 256 && forall c :: c in ts ==> slots[c] == SlotTable(ts[c])
  {
    hide CumTable, SlotTable;
    slots := [];
    for c := 0 to 256
      invariant |slots| == c && forall k :: k in ts && k < c ==> slots[k] == SlotTable(ts[k])
    {
      var table := [];
      if c in ts { table := BuildSlots(ts[c], cums[c]); }
      slots := slots + [table];
    }
  }

  /** The order-1 decoding loop: the context is the byte decoded last. */
  method DecodeSymbols1(ts: map<byte, Table>, bytes: seq<byte>, orig: nat) returns (out: seq<byte>)
    requires |bytes| >= 4 && FromLE(bytes[|bytes| - 4..]) < U32
    ensures out == DecodeFrom(Order1(ts), Coder(FromLE(bytes[|bytes| - 4..]), bytes[..|bytes| - 4]), 0, orig).0
  {
    hide Sum, Cum, SymbolAt, Take, FromLE;
    var cums := CumulateAll(ts);
    var slots := BuildAllSlots(ts, cums);
    ghost var m := Order1(ts);
    var n := |bytes|;
    var state: u32, top: nat := FromLE(bytes[n - 4..]), n - 4;
    ghost var start := Coder(state, bytes[..top]);
    out := [];
    var prev: byte := 0;
    for i := 0 to orig
      invariant top <= n
      invariant out + DecodeFrom(m, Coder(state, bytes[..top]), prev, orig - i).0 == DecodeFrom(m, start, 0, orig).0
    {
      if prev !in ts { return out; }
      var sym := slots[prev][state % PROB_SCALE];
      IntervalFits(ts[prev], sym);
      out := out + [sym];
      state, top := PullSymbol(state, bytes, top, ts[prev][sym], cums[prev][sym]);
      prev := sym;
    }
  }

  /** `RANSEncoderOrder1::encode`. */
  method EncodeEntropy(data: seq<byte>) returns (out: seq<byte>)
    requires |data| < U32
    ensures out == Encode(data)
  {
    var order0 := EncodeOrder0(data);
    if |data| > 4096 {
      var order1 := EncodeOrder1(data);
      if |order1| < |order0| { return [1] + order1; }
    }
    out := [0] + order0;
  }

  /** `RANSEncoderOrder1::decode`. */
  method DecodeEntropy(d: seq<byte>) returns (out: seq<byte>)
    ensures out == Decode(d)
  {
    if |d| < 1 { return []; }
    if d[0] == 0 {
      out := DecodeOrder0(d[1..]);
    } else {
      out := DecodeOrder1(d[1..]);
    }
  }
}
