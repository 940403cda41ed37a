/** The byte formats of src/entropy.cpp. */
module Entropy {
  // Order 0, order 1, and the wrapper that keeps the shorter of the two.

  import opened Bytes
  import opened FrequencyTable
  import opened Rans

  /** Inputs up to this length give a payload below 2^31 bytes, as the decoder's
      signed 32-bit byte index needs. */
  const MAX_INPUT := 0x3FFF_FFFD

  // ------------------------------------------------------------ shared pieces

  function TableBytes(t: seq<nat>): (s: seq<byte>)
    ensures |s| == 2 * |t|
  {
    if |t| == 0 then [] else TableBytes(t[..|t| - 1]) + LE(t[|t| - 1], 2)
  }

  /** The `n` 16-bit entries stored from `pos`. */
  function ReadEntries(d: seq<byte>, pos: nat, n: nat): (t: seq<nat>)
    requires pos + 2 * n <= |d|
    ensures |t| == n
  {
    if n == 0 then []
    else ReadEntries(d, pos, n - 1) + [FromLE(d[pos + 2 * (n - 1)..pos + 2 * n])]
  }

  lemma {:induction false} ReadWrittenEntries(pre: seq<byte>, t: seq<nat>, post: seq<byte>)
    requires forall i :: 0 <= i < |t| ==> t[i] < U16
    ensures ReadEntries(pre + TableBytes(t) + post, |pre|, |t|) == t
  {
    if |t| > 0 {
      var n := |t| - 1;
      var last := LE(t[n], 2);
      ReadWrittenEntries(pre, t[..n], last + post);
      var d := pre + TableBytes(t) + post;
      assert d == pre + TableBytes(t[..n]) + (last + post);
      assert d == (pre + TableBytes(t[..n])) + last + post;
      SliceMiddle(pre + TableBytes(t[..n]), last, post);
      U16RoundTrip(t[n]);
      assert t == t[..n] + [t[n]];
    }
  }

  lemma TableEntriesFit(t: Table)
    ensures forall i :: 0 <= i < |t| ==> t[i] < U16
  {
    forall i | 0 <= i < |t| ensures t[i] < U16 { EntryAtMostSum(t, i); }
  }

  /** What both formats end with: the byte count, the stack, the final state. */
  function Payload(c: Coder): seq<byte> {
    c.stack + LE(c.state, 4)
  }

  function Tail(c: Coder): seq<byte> {
    LE(|Payload(c)|, 4) + Payload(c)
  }

  /** Decode `orig` symbols from the tail stored at `pos`. */
  function DecodeTail(m: Model, d: seq<byte>, pos: nat, orig: nat): (out: seq<byte>)
    ensures |out| <= orig
  {
    if pos + 4 > |d| then []
    else
      var n := FromLE(d[pos..pos + 4]);
      if pos + 4 + n > |d| || n < 4 || n >= 0x8000_0000 then []
      else
        var bytes := d[pos + 4..pos + 4 + n];
        DecodeFrom(m, Coder(FromLE(bytes[n - 4..]), bytes[..n - 4]), 0, orig).0
  }

  lemma TailSlices(pre: seq<byte>, count: seq<byte>, stack: seq<byte>, state: seq<byte>)
    requires |count| == |state| == 4
    ensures var d := pre + (count + (stack + state));
            && d[|pre|..|pre| + 4] == count
            && d[|pre| + 4..|pre| + 4 + (|stack| + 4)] == stack + state
    ensures (stack + state)[|stack|..] == state && (stack + state)[..|stack|] == stack
  {
  }

  /** A tail is read back as the coder it was written from. */
  lemma ReadWrittenTail(m: Model, pre: seq<byte>, c: Coder, orig: nat)
    requires c.state < U32 && |c.stack| + 4 < 0x8000_0000
    ensures DecodeTail(m, pre + Tail(c), |pre|, orig) == DecodeFrom(m, c, 0, orig).0
  {
    hide DecodeFrom, LE, FromLE;
    var n := |c.stack| + 4;
    TailSlices(pre, LE(n, 4), c.stack, LE(c.state, 4));
    U32RoundTrip(n);
    U32RoundTrip(c.state);
  }

  lemma DecodeOwnTail(m: Model, data: seq<byte>, pre: seq<byte>)
    requires Covers(m, data) && |data| <= MAX_INPUT
    ensures DecodeTail(m, pre + Tail(EncodeFrom(m, data, 0)), |pre|, |data|) == data
  {
    DecodeInvertsEncode(m, data, 0);
    ReadWrittenTail(m, pre, EncodeFrom(m, data, 0), |data|);
    assert data[0..] == data;
  }

  // ------------------------------------------------------------------ order 0

  function Stats(data: seq<byte>): Table {
    CountsProperties(data);
    QuantizedIsTable(Counts(data), |data|);
    Quantized(Counts(data), |data|)
  }

  lemma StatsCover(data: seq<byte>)
    ensures Covers(Order0(Stats(data)), data)
  {
    CountsProperties(data);
    QuantizedIsTable(Counts(data), |data|);
  }

  /** `RANSEncoder::encode`. */
  function Encode0(data: seq<byte>): seq<byte>
  {
    if |data| == 0 then [0, 0, 0, 0]
    else LE(|data|, 4) + TableBytes(Stats(data)) + Tail(EncodeFrom(Order0(Stats(data)), data, 0))
  }

  /** `RANSEncoder::decode`. */
  function Decode0(d: seq<byte>): (out: seq<byte>)
  {
    if |d| < 4 then []
    else
      var orig := FromLE(d[..4]);
      if orig == 0 || |d| < 520 then []
      else
        var t := ReadEntries(d, 4, SYMBOLS);
        if Sum(t) != PROB_SCALE then [] else DecodeTail(Order0(t), d, 516, orig)
  }

  lemma Order0RoundTrip(data: seq<byte>)
    requires |data| <= MAX_INPUT
    ensures Decode0(Encode0(data)) == data
  {
    var d := Encode0(data);
    if |data| == 0 {
      assert d[..4] == LE(0, 4);
      U32RoundTrip(0);
    } else {
      hide LE, FromLE, DecodeTail, TableBytes, ReadEntries, Sum, EncodeFrom, Quantized;
      StatsCover(data);
      var t := Stats(data);
      var head, table, tail := LE(|data|, 4), TableBytes(t), Tail(EncodeFrom(Order0(t), data, 0));
      assert d == head + table + tail;
      assert d[..4] == head;
      U32RoundTrip(|data|);
      TableEntriesFit(t);
      ReadWrittenEntries(head, t, tail);
      DecodeOwnTail(Order0(t), data, head + table);
    }
  }

  // ------------------------------------------------------------------ order 1

  /** The symbols that follow context `c`, in order. */
  function Followers(data: seq<byte>, c: byte): seq<byte>
  {
    if |data| == 0 then []
    else
      var n := |data| - 1;
      Followers(data[..n], c) + if Prev(data, n) == c then [data[n]] else []
  }

  lemma {:induction false} FollowerOf(data: seq<byte>, i: nat)
    requires i < |data|
    ensures data[i] in Followers(data, Prev(data, i))
  {
    if i < |data| - 1 {
      FollowerOf(data[..|data| - 1], i);
      assert Prev(data[..|data| - 1], i) == Prev(data, i);
    }
  }

  /** One quantised table for each context that has a follower. */
  function ContextTables(data: seq<byte>): map<byte, Table>
  {
    map c: byte | 0 <= c < 256 && Followers(data, c) != [] :: Stats(Followers(data, c))
  }

  lemma ContextsCover(data: seq<byte>)
    ensures Covers(Order1(ContextTables(data)), data)
  {
    var m := Order1(ContextTables(data));
    forall i | 0 <= i < |data|
      ensures m.Knows(Prev(data, i)) && 0 < m.For(Prev(data, i))[data[i]]
    {
      FollowerOf(data, i);
      var f := Followers(data, Prev(data, i));
      CountsProperties(f);
      QuantizedIsTable(Counts(f), |f|);
    }
  }

  /** How many of the first `n` contexts have a table. */
  function Active(ts: map<byte, Table>, n: nat): (k: nat)
    requires n <= 256
    ensures k <= n
  {
    if n == 0 then 0 else Active(ts, n - 1) + if n - 1 in ts then 1 else 0
  }

  function ContextBytes(ts: map<byte, Table>, n: nat): seq<byte>
    requires n <= 256
  {
    if n == 0 then []
    else if n - 1 in ts then ContextBytes(ts, n - 1) + ([n - 1] + TableBytes(ts[n - 1]))
    else ContextBytes(ts, n - 1)
  }

  /** `RANSEncoderOrder1::encode_order1`. */
  function Encode1(data: seq<byte>): seq<byte>
  {
    var ts := ContextTables(data);
    LE(|data|, 4) + LE(Active(ts, 256), 2) + ContextBytes(ts, 256)
    + Tail(EncodeFrom(Order1(ts), data, 0))
  }

  datatype Contexts = Bad | Contexts(tables: map<byte, Table>, pos: nat)

  /** `k` stored context tables from `pos`; a later table for one context wins. */
  function ReadContexts(d: seq<byte>, pos: nat, k: nat): (r: Contexts)
    decreases k
  {
    if k == 0 then Contexts(map[], pos)
    else ReadContext(d, ReadContexts(d, pos, k - 1))
  }

  function ReadContext(d: seq<byte>, r: Contexts): (s: Contexts)
  {
    if r.Bad? || r.pos + 513 > |d| then Bad
    else
      var t := ReadEntries(d, r.pos + 1, SYMBOLS);
      if Sum(t) != PROB_SCALE then Bad
      else Contexts(r.tables[d[r.pos] := t], r.pos + 513)
  }

  /** `RANSEncoderOrder1::decode_order1`. */
  function Decode1(d: seq<byte>): seq<byte>
  {
    if |d| < 6 then []
    else
      var orig := FromLE(d[..4]);
      if orig == 0 then []
      else
        var r := ReadContexts(d, 6, FromLE(d[4..6]));
        if r.Bad? then [] else DecodeTail(Order1(r.tables), d, r.pos, orig)
  }

  function Restrict(ts: map<byte, Table>, n: nat): map<byte, Table> {
    map c | c in ts && c < n :: ts[c]
  }

  /** One stored context table, between whatever precedes and follows it. */
  lemma ReadWrittenContext(pre: seq<byte>, ts: map<byte, Table>, c: byte, t: Table, post: seq<byte>)
    ensures ReadContext(pre + ([c] + TableBytes(t)) + post, Contexts(ts, |pre|))
            == Contexts(ts[c := t], |pre| + 513)
  {
    var d := pre + ([c] + TableBytes(t)) + post;
    TableEntriesFit(t);
    ReadWrittenEntries(pre + [c], t, post);
    Regroup(pre, [c], TableBytes(t), post);
  }

  lemma RestrictStep(ts: map<byte, Table>, n: byte)
    ensures Restrict(ts, 0) == map[]
    ensures n in ts ==> Restrict(ts, n + 1) == Restrict(ts, n)[n := ts[n]]
    ensures n !in ts ==> Restrict(ts, n + 1) == Restrict(ts, n)
  {
  }

  lemma RestrictAll(ts: map<byte, Table>)
    ensures Restrict(ts, 256) == ts
  {
  }

  lemma {:induction false} ReadWrittenContexts(pre: seq<byte>, ts: map<byte, Table>, n: nat, post: seq<byte>)
    requires n <= 256
    ensures ReadContexts(pre + ContextBytes(ts, n) + post, |pre|, Active(ts, n))
            == Contexts(Restrict(ts, n), |pre| + |ContextBytes(ts, n)|)
  {
    hide ReadContext, ReadEntries, TableBytes, Restrict, Sum;
    RestrictStep(ts, if n == 0 then 0 else n - 1);
    if n == 0 {
    } else if n - 1 in ts {
      var before, entry := ContextBytes(ts, n - 1), [n - 1] + TableBytes(ts[n - 1]);
      var d, k := pre + ContextBytes(ts, n) + post, Active(ts, n - 1);
      Regroup(pre, before, entry, post);
      ReadWrittenContexts(pre, ts, n - 1, entry + post);
      var r := Contexts(Restrict(ts, n - 1), |pre + before|);
      assert ReadContexts(d, |pre|, k + 1) == ReadContext(d, r);
      ReadWrittenContext(pre + before, Restrict(ts, n - 1), n - 1, ts[n - 1], post);
    } else {
      ReadWrittenContexts(pre, ts, n - 1, post);
    }
  }

  lemma HeaderSlices(head: seq<byte>, count: seq<byte>, ctx: seq<byte>, tail: seq<byte>)
    requires |head| == 4 && |count| == 2
    ensures var d := head + count + ctx + tail;
            d[..4] == head && d[4..6] == count
  {
  }

  lemma Order1RoundTrip(data: seq<byte>)
    requires 0 < |data| <= MAX_INPUT
    ensures Decode1(Encode1(data)) == data
  {
    hide LE, FromLE, DecodeTail, ContextBytes, ReadContexts, Restrict, Active, EncodeFrom, ContextTables;
    ContextsCover(data);
    var ts := ContextTables(data);
    var head, count := LE(|data|, 4), LE(Active(ts, 256), 2);
    var ctx, tail := ContextBytes(ts, 256), Tail(EncodeFrom(Order1(ts), data, 0));
    HeaderSlices(head, count, ctx, tail);
    U32RoundTrip(|data|);
    U16RoundTrip(Active(ts, 256));
    ReadWrittenContexts(head + count, ts, 256, tail);
    RestrictAll(ts);
    DecodeOwnTail(Order1(ts), data, head + count + ctx);
  }

  // ------------------------------------------------------------------ wrapper

  /** `RANSEncoderOrder1::encode`: order 1 only above 4096 bytes and only when
      it is shorter, told apart by a leading flag byte. */
  function Encode(data: seq<byte>): (out: seq<byte>)
    ensures |out| <= 1 + |Encode0(data)| && (|data| > 4096 ==> |out| <= 1 + |Encode1(data)|)
  {
    if |data| > 4096 && |Encode1(data)| < |Encode0(data)| then [1] + Encode1(data)
    else [0] + Encode0(data)
  }

  /** `RANSEncoderOrder1::decode`. */
  function Decode(d: seq<byte>): seq<byte>
  {
    if |d| < 1 then []
    else if d[0] == 0 then Decode0(d[1..])
    else Decode1(d[1..])
  }

  /** The entropy stage loses nothing. */
  lemma EntropyRoundTrip(data: seq<byte>)
    requires |data| <= MAX_INPUT
    ensures Decode(Encode(data)) == data
  {
    if |data| > 4096 && |Encode1(data)| < |Encode0(data)| {
      assert Encode(data)[1..] == Encode1(data);
      Order1RoundTrip(data);
    } else {
      assert Encode(data)[1..] == Encode0(data);
      Order0RoundTrip(data);
    }
  }
}
