/** The LZSS byte format (src/lz_compress.cpp). */
module LzFormat {
  // Groups of eight items under a flag byte (54-228), and the decoder for every
  // byte string.

  import opened Bytes
  import opened Lz

  // ----------------------------------------------------------------- writing

  function FlagBits(ts: seq<Token>): (bits: seq<nat>)
    ensures |bits| == |ts| && forall i :: 0 <= i < |ts| ==> bits[i] == if ts[i].Match? then 1 else 0
  {
    seq(|ts|, i requires 0 <= i < |ts| => if ts[i].Match? then 1 else 0)
  }

  function Flags(ts: seq<Token>): byte
    requires |ts| <= 8
  {
    ValBound(FlagBits(ts), 2);
    PowMono(2, |ts|, 8);
    assert Pow(2, 8) == 256;
    Val(FlagBits(ts), 2)
  }

  /** A literal is its byte; a match is a 16-bit offset and length - 3. */
  function Body(t: Token): (s: seq<byte>)
    ensures |s| == if t.Match? then 3 else 1
  {
    match t
    case Literal(b) => [b]
    case Match(offset, length) => LE(offset, 2) + [(length + 253) % 256]
  }

  function Bodies(ts: seq<Token>): seq<byte>
  {
    if |ts| == 0 then [] else Body(ts[0]) + Bodies(ts[1..])
  }

  function Serialize(ts: seq<Token>): seq<byte>
    decreases |ts|
  {
    if |ts| == 0 then []
    else
      var n := Min(8, |ts|);
      [Flags(ts[..n])] + Bodies(ts[..n]) + Serialize(ts[n..])
  }

  /** `compress`. */
  function Compressed(data: seq<byte>): seq<byte> {
    LE(|data|, 4) + [2] + Serialize(Tokens(data))
  }

  // ----------------------------------------------------------------- reading

  datatype Cursor = Cursor(pos: nat, out: seq<byte>)
  datatype Item = Go(c: Cursor) | Stop(c: Cursor)

  /** The decoder's copy, which also stops once `orig` bytes are out. */
  function CopyUpTo(out: seq<byte>, src: nat, n: nat, orig: nat): seq<byte>
    requires src < |out| || n == 0
    decreases n
  {
    if n == 0 || |out| >= orig then out else CopyUpTo(out + [out[src]], src + 1, n - 1, orig)
  }

  function CopyItem(c: Cursor, pos: nat, offset: nat, length: nat, orig: nat): Item {
    if offset == 0 || offset > |c.out| then Stop(Cursor(pos, c.out))
    else Go(Cursor(pos, CopyUpTo(c.out, |c.out| - offset, length, orig)))
  }

  /** One item. A truncated match or an impossible offset abandons the group -
      but not the stream. */
  function DecodeItem(d: seq<byte>, c: Cursor, orig: nat, isMatch: bool, v2: bool): Item
    requires c.pos < |d|
  {
    if !isMatch then Go(Cursor(c.pos + 1, c.out + [d[c.pos]]))
    else if v2 then
      if c.pos + 2 >= |d| then Stop(c)
      else CopyItem(c, c.pos + 3, FromLE(d[c.pos..c.pos + 2]), d[c.pos + 2] + MIN_MATCH, orig)
    else if c.pos + 1 >= |d| then Stop(c)
    else CopyItem(c, c.pos + 2, FromLE([d[c.pos], d[c.pos + 1] % 16]), d[c.pos + 1] / 16 + MIN_MATCH, orig)
  }

  function FlagSet(flags: byte, bit: nat): bool
  {
    PowPositive(2, bit);
    flags / Pow(2, bit) % 2 == 1
  }

  /** The items of one group, from `bit` on. */
  function DecodeBits(d: seq<byte>, c: Cursor, orig: nat, flags: byte, bit: nat, v2: bool): (r: Cursor)
    ensures r.pos >= c.pos
    decreases 8 - bit
  {
    if bit >= 8 || c.pos >= |d| || |c.out| >= orig then c
    else
      var item := DecodeItem(d, c, orig, FlagSet(flags, bit), v2);
      if item.Stop? then item.c else DecodeBits(d, item.c, orig, flags, bit + 1, v2)
  }

  function DecodeGroups(d: seq<byte>, c: Cursor, orig: nat, v2: bool): seq<byte>
    decreases |d| - c.pos
  {
    if c.pos >= |d| || |c.out| >= orig then c.out
    else DecodeGroups(d, DecodeBits(d, Cursor(c.pos + 1, c.out), orig, d[c.pos], 0, v2), orig, v2)
  }

  /** `decompress`. */
  function Decompressed(d: seq<byte>): seq<byte> {
    if |d| < 4 then []
    else
      var v2 := |d| > 4 && d[4] == 2;
      DecodeGroups(d, Cursor(if v2 then 5 else 4, []), FromLE(d[..4]), v2)
  }

  // --------------------------------------------------------------- round trip

  lemma FlagOf(ts: seq<Token>, k: nat)
    requires k < |ts| <= 8
    ensures FlagSet(Flags(ts), k) == ts[k].Match?
  {
    DigitAt(FlagBits(ts), 2, k);
  }

  lemma {:induction false} CopyUpToIsCopy(out: seq<byte>, src: nat, n: nat, orig: nat)
    requires src < |out| || n == 0
    requires |out| + n <= orig
    ensures CopyUpTo(out, src, n, orig) == Copy(out, src, n)
    decreases n
  {
    if n > 0 { CopyUpToIsCopy(out + [out[src]], src + 1, n - 1, orig); }
  }

  /** A stored token decodes to its effect exactly when its offset fits 16 bits:
      the window admits distance 65536, which is written as offset 0 and refused. */
  lemma ItemRoundTrip(d: seq<byte>, c: Cursor, orig: nat, t: Token, rest: seq<byte>)
    requires Applies(c.out, t) && |Apply(c.out, t)| <= orig
    requires c.pos <= |d| && d[c.pos..] == Body(t) + rest
    requires t.Match? ==> t.offset <= WINDOW
    ensures DecodeItem(d, c, orig, t.Match?, true) == Go(Cursor(c.pos + |Body(t)|, Apply(c.out, t)))
            <==> Storable(t)
    ensures !Storable(t) ==> DecodeItem(d, c, orig, t.Match?, true) == Stop(Cursor(c.pos + 3, c.out))
  {
    hide Copy, CopyUpTo, LE, FromLE, Pow;
    var tail := d[c.pos..];
    assert d[c.pos] == tail[0];
    if t.Match? {
      assert d[c.pos..c.pos + 2] == tail[..2] == LE(t.offset, 2);
      assert d[c.pos + 2] == tail[2] == (t.length + 253) % 256;
      if t.offset < WINDOW {
        U16RoundTrip(t.offset);
        CopyUpToIsCopy(c.out, |c.out| - t.offset, t.length, orig);
      } else {
        FieldWraps();
        U16RoundTrip(0);
      }
    }
  }

  lemma FieldWraps()
    ensures LE(WINDOW, 2) == LE(0, 2)
  {
  }

  lemma {:induction false} ExpandSplit(out: seq<byte>, xs: seq<Token>, ys: seq<Token>)
    requires AllApply(out, xs + ys)
    ensures AllApply(out, xs) && AllApply(Expand(out, xs), ys)
    ensures Expand(out, xs + ys) == Expand(Expand(out, xs), ys)
    decreases |xs|
  {
    hide Apply, Applies;
    if |xs| == 0 {
      assert xs + ys == ys;
    } else {
      assert (xs + ys)[1..] == xs[1..] + ys;
      ExpandSplit(Apply(out, xs[0]), xs[1..], ys);
    }
  }

  ghost predicate AllStorable(ts: seq<Token>) {
    forall t :: t in ts ==> Storable(t)
  }

  lemma {:induction false} GroupRoundTrip(d: seq<byte>, c: Cursor, orig: nat, g: seq<Token>, k: nat, rest: seq<byte>)
    requires k <= |g| <= 8 && (|g| == 8 || rest == [])
    requires AllStorable(g) && AllApply(c.out, g[k..]) && |Expand(c.out, g[k..])| <= orig
    requires c.pos <= |d| && d[c.pos..] == Bodies(g[k..]) + rest
    ensures DecodeBits(d, c, orig, Flags(g), k, true) == Cursor(|d| - |rest|, Expand(c.out, g[k..]))
    decreases |g| - k
  {
    hide Apply, Applies, Flags, FlagSet, DecodeItem, Body;
    if k < |g| {
      var t, more := g[k], Bodies(g[k + 1..]) + rest;
      assert g[k..][1..] == g[k + 1..];
      assert d[c.pos..] == Body(t) + more;
      assert |Apply(c.out, t)| <= orig && c.pos < |d|;
      assert Storable(t);
      ItemRoundTrip(d, c, orig, t, more);
      FlagOf(g, k);
      var c2 := Cursor(c.pos + |Body(t)|, Apply(c.out, t));
      assert d[c2.pos..] == d[c.pos..][|Body(t)|..] == more;
      GroupRoundTrip(d, c2, orig, g, k + 1, rest);
    } else {
      assert g[k..] == [];
      assert d[c.pos..] == rest;
    }
  }

  lemma {:induction false} GroupsRoundTrip(d: seq<byte>, c: Cursor, orig: nat, ts: seq<Token>)
    requires AllStorable(ts) && AllApply(c.out, ts) && |Expand(c.out, ts)| == orig
    requires c.pos <= |d| && d[c.pos..] == Serialize(ts)
    ensures DecodeGroups(d, c, orig, true) == Expand(c.out, ts)
    decreases |ts|
  {
    hide Apply, Applies, Flags, DecodeBits, Storable, Bodies;
    if |ts| > 0 {
      var n := Min(8, |ts|);
      var g, more := ts[..n], ts[n..];
      assert ts == g + more;
      ExpandSplit(c.out, g, more);
      var rest := Serialize(more);
      assert d[c.pos..] == [Flags(g)] + Bodies(g) + rest;
      assert d[c.pos] == d[c.pos..][0] == Flags(g);
      var c1 := Cursor(c.pos + 1, c.out);
      assert d[c1.pos..] == d[c.pos..][1..] == Bodies(g) + rest;
      assert g[0..] == g;
      GroupRoundTrip(d, c1, orig, g, 0, rest);
      var c2 := Cursor(|d| - |rest|, Expand(c.out, g));
      assert d[c2.pos..] == d[c.pos..][1 + |Bodies(g)|..] == rest;
      GroupsRoundTrip(d, c2, orig, more);
    }
  }

  lemma {:induction false} CopyUpToBound(out: seq<byte>, src: nat, n: nat, orig: nat)
    requires (src < |out| || n == 0) && |out| <= orig
    ensures |CopyUpTo(out, src, n, orig)| <= orig
    decreases n
  {
    if n > 0 && |out| < orig { CopyUpToBound(out + [out[src]], src + 1, n - 1, orig); }
  }

  lemma ItemBound(d: seq<byte>, c: Cursor, orig: nat, isMatch: bool, v2: bool)
    requires c.pos < |d| && |c.out| < orig
    ensures |DecodeItem(d, c, orig, isMatch, v2).c.out| <= orig
  {
    hide CopyUpTo, FromLE;
    forall pos: nat, offset: nat, length: nat ensures |CopyItem(c, pos, offset, length, orig).c.out| <= orig {
      if 0 < offset <= |c.out| { CopyUpToBound(c.out, |c.out| - offset, length, orig); }
    }
  }

  lemma {:induction false} BitsBound(d: seq<byte>, c: Cursor, orig: nat, flags: byte, bit: nat, v2: bool)
    requires |c.out| <= orig
    ensures |DecodeBits(d, c, orig, flags, bit, v2).out| <= orig
    decreases 8 - bit
  {
    hide DecodeItem, FlagSet;
    if bit < 8 && c.pos < |d| && |c.out| < orig {
      ItemBound(d, c, orig, FlagSet(flags, bit), v2);
      BitsBound(d, DecodeItem(d, c, orig, FlagSet(flags, bit), v2).c, orig, flags, bit + 1, v2);
    }
  }

  /** The reader never puts out more than the length field says. */
  lemma {:induction false} GroupsBound(d: seq<byte>, c: Cursor, orig: nat, v2: bool)
    requires |c.out| <= orig
    ensures |DecodeGroups(d, c, orig, v2)| <= orig
    decreases |d| - c.pos
  {
    hide DecodeBits;
    if c.pos < |d| && |c.out| < orig {
      BitsBound(d, Cursor(c.pos + 1, c.out), orig, d[c.pos], 0, v2);
      GroupsBound(d, DecodeBits(d, Cursor(c.pos + 1, c.out), orig, d[c.pos], 0, v2), orig, v2);
    }
  }

  lemma OutputBound(d: seq<byte>)
    ensures |Decompressed(d)| < U32
  {
    hide DecodeGroups, FromLE;
    if |d| >= 4 {
      FromLEBound(d[..4]);
      PowValues();
      var v2 := |d| > 4 && d[4] == 2;
      GroupsBound(d, Cursor(if v2 then 5 else 4, []), FromLE(d[..4]), v2);
    }
  }

  /** Where no match lies at distance 65536 exactly, LZSS is lossless if and only if
      the length fits its 32-bit field. */
  lemma StorableRoundTrip(data: seq<byte>)
    requires AllStorable(Tokens(data))
    ensures Decompressed(Compressed(data)) == data <==> |data| < U32
  {
    OutputBound(Compressed(data));
    if |data| < U32 { FittingRoundTrip(data); }
  }

  lemma FittingRoundTrip(data: seq<byte>)
    requires |data| < U32 && AllStorable(Tokens(data))
    ensures Decompressed(Compressed(data)) == data
  {
    hide LE, FromLE, Serialize, DecodeGroups, Tokens, Expand, AllApply;
    var d, ts := Compressed(data), Tokens(data);
    assert data[..0] == [];
    TokensExpandAll(data);
    U32RoundTrip(|data|);
    assert d[..4] == LE(|data|, 4) && d[4] == 2 && d[5..] == Serialize(ts);
    GroupsRoundTrip(d, Cursor(5, []), |data|, ts);
  }

  lemma TokensExpandAll(data: seq<byte>)
    ensures AllApply([], Tokens(data)) && Expand([], Tokens(data)) == data
  {
    assert data[..0] == [];
    TokensExpand(data, 0, Empty());
  }

  /** Inputs of at most 65536 bytes always round-trip. */
  lemma LzRoundTrip(data: seq<byte>)
    requires |data| <= WINDOW
    ensures Decompressed(Compressed(data)) == data
  {
    ShortInputStorable(data, 0, Empty());
    StorableRoundTrip(data);
  }

  // ------------------------------------------------------------ size and text

  lemma {:induction false} BodiesAppend(xs: seq<Token>, ys: seq<Token>)
    ensures Bodies(xs + ys) == Bodies(xs) + Bodies(ys)
  {
    if |xs| == 0 {
      assert xs + ys == ys;
    } else {
      assert (xs + ys)[1..] == xs[1..] + ys;
      BodiesAppend(xs[1..], ys);
    }
  }

  /** Appending a group after full groups appends its flag byte and items. */
  lemma {:induction false} SerializeAppend(xs: seq<Token>, g: seq<Token>)
    requires |xs| % 8 == 0 && 0 < |g| <= 8
    ensures Serialize(xs + g) == Serialize(xs) + ([Flags(g)] + Bodies(g))
    decreases |xs|
  {
    hide Flags, Bodies;
    if |xs| == 0 {
      assert xs + g == g && g[..|g|] == g && g[|g|..] == [];
    } else {
      assert (xs + g)[..8] == xs[..8] && (xs + g)[8..] == xs[8..] + g;
      SerializeAppend(xs[8..], g);
    }
  }

  /** No token is stored in more bytes than it stands for, so the format adds
      at most one flag byte for every eight tokens. */
  lemma {:induction false} BodiesAtMostExpansion(out: seq<byte>, ts: seq<Token>)
    requires AllApply(out, ts)
    ensures |out| + |Bodies(ts)| <= |Expand(out, ts)|
    decreases |ts|
  {
    if |ts| > 0 { BodiesAtMostExpansion(Apply(out, ts[0]), ts[1..]); }
  }

  lemma {:induction false} SerializeSize(ts: seq<Token>)
    ensures |Serialize(ts)| == |Bodies(ts)| + (|ts| + 7) / 8
    decreases |ts|
  {
    hide Flags, Body;
    if |ts| > 0 {
      var n := Min(8, |ts|);
      SerializeSize(ts[n..]);
      assert ts == ts[..n] + ts[n..];
      BodiesAppend(ts[..n], ts[n..]);
    }
  }

  /** Worst case: a ninth byte for every eight, plus the five-byte header. */
  lemma CompressedSize(data: seq<byte>)
    ensures |Compressed(data)| <= |data| + (|data| + 7) / 8 + 5
  {
    hide Tokens, Bodies, Serialize, Expand, AllApply;
    TokensExpandAll(data);
    BodiesAtMostExpansion([], Tokens(data));
    SerializeSize(Tokens(data));
  }
}
