/** The edge of the LZSS window. The search accepts distance 65536
    (src/lz_compress.cpp:24), which a 16-bit offset cannot hold; this module says
    when that is harmful and exhibits an input of 65539 bytes that does not
    survive. */
module LzWindow {
  import opened Bytes
  import opened Lz
  import opened LzFormat

  // ------------------------------------------------- a stream with a bad end

  /** Everything but the last token. */
  function Front(ts: seq<Token>): seq<Token>
    requires |ts| > 0
  {
    ts[..|ts| - 1]
  }

  ghost predicate BadLast(ts: seq<Token>) {
    |ts| > 0 && AllStorable(Front(ts)) && !Storable(ts[|ts| - 1])
    && ts[|ts| - 1].Match? && ts[|ts| - 1].offset <= WINDOW
  }

  lemma {:induction false} GroupStops(d: seq<byte>, c: Cursor, orig: nat, g: seq<Token>, k: nat)
    requires k < |g| <= 8 && BadLast(g)
    requires AllApply(c.out, g[k..]) && |Expand(c.out, g[k..])| <= orig
    requires c.pos <= |d| && d[c.pos..] == Bodies(g[k..])
    ensures AllApply(c.out, g[k..|g| - 1])
    ensures DecodeBits(d, c, orig, Flags(g), k, true) == Cursor(|d|, Expand(c.out, g[k..|g| - 1]))
    decreases |g| - k
  {
    hide Apply, Applies, Flags, FlagSet, DecodeItem, Body, Storable;
    var t, more := g[k], Bodies(g[k + 1..]);
    assert g[k..][1..] == g[k + 1..];
    assert d[c.pos..] == Body(t) + more;
    assert |Apply(c.out, t)| <= orig && c.pos < |d|;
    LastOffset(g, k);
    ItemRoundTrip(d, c, orig, t, more);
    FlagOf(g, k);
    if k == |g| - 1 {
      assert more == [] && |Body(t)| == 3 by { BodyLength(t); }
      assert d[c.pos..] == Body(t) by { Unit(Body(t)); }
    } else {
      assert t == Front(g)[k] && Storable(t);
      var c2 := Cursor(c.pos + |Body(t)|, Apply(c.out, t));
      assert d[c2.pos..] == d[c.pos..][|Body(t)|..] == more;
      GroupStops(d, c2, orig, g, k + 1);
      assert g[k..|g| - 1][1..] == g[k + 1..|g| - 1];
    }
  }

  lemma BodyLength(t: Token)
    ensures t.Match? ==> |Body(t)| == 3
  {
  }

  lemma LastOffset(g: seq<Token>, k: nat)
    requires k < |g| && BadLast(g)
    ensures g[k].Match? ==> g[k].offset <= WINDOW
  {
    if k < |g| - 1 { assert Front(g)[k] in Front(g) && Storable(Front(g)[k]); }
  }

  /** When only the last token cannot be stored, exactly its bytes are lost. */
  lemma {:induction false} GroupsStop(d: seq<byte>, c: Cursor, orig: nat, ts: seq<Token>)
    requires BadLast(ts) && AllApply(c.out, ts) && |Expand(c.out, ts)| == orig
    requires c.pos <= |d| && d[c.pos..] == Serialize(ts)
    ensures AllApply(c.out, Front(ts)) && DecodeGroups(d, c, orig, true) == Expand(c.out, Front(ts))
    decreases |ts|
  {
    hide Apply, Applies, Flags, DecodeBits, Storable, Bodies;
    var n := Min(8, |ts|);
    var g, more := ts[..n], ts[n..];
    assert ts == g + more;
    ExpandSplit(c.out, g, more);
    var rest := Serialize(more);
    assert d[c.pos..] == [Flags(g)] + Bodies(g) + rest;
    assert d[c.pos] == d[c.pos..][0] == Flags(g);
    var c1 := Cursor(c.pos + 1, c.out);
    assert d[c1.pos..] == d[c.pos..][1..] == Bodies(g) + rest;
    assert g[0..] == g;
    if more == [] {
      assert g == ts && rest == [];
      Unit(Bodies(g));
      GroupStops(d, c1, orig, g, 0);
      assert g[0..|g| - 1] == Front(ts);
    } else {
      FrontSplit(ts, n);
      GroupRoundTrip(d, c1, orig, g, 0, rest);
      var c2 := Cursor(|d| - |rest|, Expand(c.out, g));
      assert d[c2.pos..] == d[c.pos..][1 + |Bodies(g)|..] == rest;
      RestIsBad(ts, n);
      GroupsStop(d, c2, orig, more);
      ExpandJoin(c.out, g, Front(more));
    }
  }

  lemma FrontSplit(ts: seq<Token>, n: nat)
    requires n < |ts|
    ensures Front(ts) == ts[..n] + Front(ts[n..]) && forall t :: t in ts[..n] ==> t in Front(ts)
  {
    forall i | 0 <= i < n ensures ts[..n][i] == Front(ts)[i] { }
  }

  lemma RestIsBad(ts: seq<Token>, n: nat)
    requires n < |ts| && BadLast(ts)
    ensures BadLast(ts[n..])
  {
    var more := ts[n..];
    forall t | t in Front(more) ensures Storable(t) {
      var i :| 0 <= i < |Front(more)| && Front(more)[i] == t;
      assert Front(ts)[n + i] == t;
    }
  }

  lemma {:induction false} ExpandJoin(out: seq<byte>, xs: seq<Token>, ys: seq<Token>)
    requires AllApply(out, xs) && AllApply(Expand(out, xs), ys)
    ensures AllApply(out, xs + ys) && Expand(out, xs + ys) == Expand(Expand(out, xs), ys)
    decreases |xs|
  {
    hide Apply, Applies;
    if |xs| == 0 {
      assert xs + ys == ys;
    } else {
      assert (xs + ys)[1..] == xs[1..] + ys;
      ExpandJoin(Apply(out, xs[0]), xs[1..], ys);
    }
  }

  // ------------------------------------------------- when the edge is harmful

  lemma {:induction false} OffsetsInWindow(data: seq<byte>, pos: nat, ix: Index)
    requires pos <= |data| && ix.Below(pos)
    ensures forall t :: t in TokensFrom(data, pos, ix) && t.Match? ==> t.offset <= WINDOW
    decreases |data| - pos
  {
    hide Next, Apply, Applies;
    if pos < |data| {
      NextCovers(data, pos, ix);
      OffsetsInWindow(data, Next(data, pos, ix).pos, Next(data, pos, ix).ix);
    }
  }

  /** How many bytes a token stands for. */
  function Length(t: Token): nat {
    if t.Literal? then 1 else t.length
  }

  function Total(ts: seq<Token>): nat
  {
    if |ts| == 0 then 0 else Length(ts[0]) + Total(ts[1..])
  }

  /** What is left of it when unstorable tokens give nothing. */
  function KeptLength(ts: seq<Token>): nat
  {
    if |ts| == 0 then 0 else (if Storable(ts[0]) then Length(ts[0]) else 0) + KeptLength(ts[1..])
  }

  /** Every token refers to bytes there are, counting from `at` bytes on. */
  ghost predicate Placed(ts: seq<Token>, at: nat)
  {
    |ts| > 0 ==>
      && (ts[0].Match? ==> 1 <= ts[0].offset <= at && ts[0].offset <= WINDOW && MIN_MATCH <= ts[0].length <= MAX_MATCH)
      && Placed(ts[1..], at + Length(ts[0]))
  }

  /** Only the last item of a group of eight, or of the stream, may be unstorable. */
  ghost predicate BadCloses(ts: seq<Token>) {
    forall i :: 0 <= i < |ts| && !Storable(ts[i]) ==> i % 8 == 7 || i == |ts| - 1
  }

  /** The reader has either lost nothing so far or is past the first window. */
  predicate InStep(out: nat, at: nat) {
    out == at || WINDOW <= out <= at
  }

  lemma AppliesInStep(out: seq<byte>, t: Token, at: nat)
    requires Placed([t], at) && InStep(|out|, at)
    ensures Applies(out, t) && |Apply(out, t)| == |out| + Length(t)
  {
    hide Copy;
  }

  /** One group, in step: every storable item gives its bytes, a closing unstorable
      one gives none, and the reader ends where the group ends. */
  lemma {:induction false} GroupLength(d: seq<byte>, c: Cursor, orig: nat, g: seq<Token>, k: nat, rest: seq<byte>,
                                       at: nat)
    requires k <= |g| <= 8 && (|g| == 8 || rest == [])
    requires forall i :: k <= i < |g| - 1 ==> Storable(g[i])
    requires Placed(g[k..], at) && InStep(|c.out|, at) && |c.out| + Total(g[k..]) <= orig
    requires c.pos <= |d| && d[c.pos..] == Bodies(g[k..]) + rest
    ensures var r := DecodeBits(d, c, orig, Flags(g), k, true);
            && |r.out| == |c.out| + KeptLength(g[k..]) && InStep(|r.out|, at + Total(g[k..]))
            && r.pos == |d| - |rest|
    decreases |g| - k
  {
    hide Apply, Applies, Flags, FlagSet, DecodeItem, Body, Storable, Placed;
    if k == |g| {
      assert d[c.pos..] == rest;
    } else {
      var t, more := g[k], Bodies(g[k + 1..]) + rest;
      assert g[k..][1..] == g[k + 1..];
      Regroup(Body(t), Bodies(g[k + 1..]), rest);
      PlacedParts(g[k..], at);
      AppliesInStep(c.out, t, at);
      BodyLength(t);
      assert Length(t) > 0 by { LengthPositive(t, at); }
      ItemRoundTrip(d, c, orig, t, more);
      FlagOf(g, k);
      if Storable(t) {
        var c2 := Cursor(c.pos + |Body(t)|, Apply(c.out, t));
        assert d[c2.pos..] == d[c.pos..][|Body(t)|..] == more;
        GroupLength(d, c2, orig, g, k + 1, rest, at + Length(t));
      } else {
        assert g[k + 1..] == [] && more == rest;
        StorableMatch(t, at);
      }
    }
  }

  lemma Regroup(a: seq<byte>, b: seq<byte>, c: seq<byte>)
    ensures a + b + c == a + (b + c)
  {
  }

  lemma PlacedParts(ts: seq<Token>, at: nat)
    requires |ts| > 0 && Placed(ts, at)
    ensures Placed([ts[0]], at) && Placed(ts[1..], at + Length(ts[0]))
    ensures ts[0].Match? ==> ts[0].offset <= WINDOW
  {
  }

  lemma LengthPositive(t: Token, at: nat)
    requires Placed([t], at)
    ensures Length(t) > 0
  {
  }

  /** What cannot be stored is a match one whole window back. */
  lemma StorableMatch(t: Token, at: nat)
    requires Placed([t], at) && !Storable(t)
    ensures t.Match? && |Body(t)| == 3 && at >= WINDOW
  {
  }

  lemma {:induction false} TotalSplit(ts: seq<Token>, n: nat)
    requires n <= |ts|
    ensures Total(ts) == Total(ts[..n]) + Total(ts[n..]) && KeptLength(ts) == KeptLength(ts[..n]) + KeptLength(ts[n..])
    decreases n
  {
    hide Storable, Length;
    if n == 0 {
      assert ts[0..] == ts;
    } else {
      assert ts[..n][1..] == ts[1..][..n - 1] && ts[1..][n - 1..] == ts[n..];
      TotalSplit(ts[1..], n - 1);
    }
  }

  lemma {:induction false} PlacedSplit(ts: seq<Token>, n: nat, at: nat)
    requires n <= |ts| && Placed(ts, at)
    ensures Placed(ts[..n], at) && Placed(ts[n..], at + Total(ts[..n]))
    decreases n
  {
    hide Storable, Placed, Length, Total;
    if n == 0 {
      NonePlaced(ts[..0], at);
      assert ts[0..] == ts;
    } else {
      var front, rest := ts[..n], ts[1..];
      PlacedParts(ts, at);
      PlacedSplit(rest, n - 1, at + Length(ts[0]));
      SliceParts(ts, n);
      TotalStep(front);
      PlacedJoin(front, at);
    }
  }

  lemma SliceParts(ts: seq<Token>, n: nat)
    requires 0 < n <= |ts|
    ensures ts[..n][0] == ts[0] && ts[..n][1..] == ts[1..][..n - 1] && ts[1..][n - 1..] == ts[n..]
  {
  }

  lemma TotalStep(ts: seq<Token>)
    requires |ts| > 0
    ensures Total(ts) == Length(ts[0]) + Total(ts[1..])
  {
  }

  lemma NonePlaced(ts: seq<Token>, at: nat)
    requires |ts| == 0
    ensures Placed(ts, at) && Total(ts) == 0
  {
  }

  lemma PlacedJoin(ts: seq<Token>, at: nat)
    requires |ts| > 0 && Placed([ts[0]], at) && Placed(ts[1..], at + Length(ts[0]))
    ensures Placed(ts, at)
  {
  }

  lemma {:induction false} GroupsLength(d: seq<byte>, c: Cursor, orig: nat, ts: seq<Token>, at: nat)
    requires BadCloses(ts) && Placed(ts, at) && InStep(|c.out|, at) && |c.out| + Total(ts) <= orig
    requires c.pos <= |d| && d[c.pos..] == Serialize(ts)
    ensures |DecodeGroups(d, c, orig, true)| == |c.out| + KeptLength(ts)
    decreases |ts|
  {
    hide Flags, DecodeBits, Storable, Bodies, Placed, InStep;
    if |ts| > 0 {
      var n := Min(8, |ts|);
      var g, more := ts[..n], ts[n..];
      var rest := Serialize(more);
      assert d[c.pos..] == [Flags(g)] + Bodies(g) + rest;
      assert d[c.pos] == d[c.pos..][0] == Flags(g);
      var c1 := Cursor(c.pos + 1, c.out);
      assert d[c1.pos..] == d[c.pos..][1..] == Bodies(g) + rest;
      PlacedSplit(ts, n, at);
      TotalSplit(ts, n);
      assert g[0..] == g;
      assert forall i :: 0 <= i < |g| ==> g[i] == ts[i];
      TotalPositive(ts, at);
      GroupLength(d, c1, orig, g, 0, rest, at);
      var c2 := DecodeBits(d, c1, orig, Flags(g), 0, true);
      assert d[c2.pos..] == rest by { SuffixOf(d, c1.pos, Bodies(g), rest); }
      forall i | 0 <= i < |more| && !Storable(more[i]) ensures i % 8 == 7 || i == |more| - 1 {
        assert more[i] == ts[n + i];
      }
      KeptAtMost(g);
      GroupsLength(d, c2, orig, more, at + Total(g));
    }
  }

  lemma SuffixOf(d: seq<byte>, pos: nat, a: seq<byte>, rest: seq<byte>)
    requires pos <= |d| && d[pos..] == a + rest
    ensures d[|d| - |rest|..] == rest
  {
    assert d[|d| - |rest|..] == d[pos..][|a|..];
  }

  lemma TotalPositive(ts: seq<Token>, at: nat)
    requires |ts| > 0 && Placed(ts, at)
    ensures Total(ts) > 0
  {
  }

  lemma {:induction false} KeptAtMost(ts: seq<Token>)
    ensures KeptLength(ts) <= Total(ts)
  {
    if |ts| > 0 { KeptAtMost(ts[1..]); }
  }

  lemma {:induction false} KeptAllIff(ts: seq<Token>, at: nat)
    requires Placed(ts, at)
    ensures KeptLength(ts) == Total(ts) <==> AllStorable(ts)
  {
    if |ts| > 0 {
      KeptAllIff(ts[1..], at + Length(ts[0]));
      KeptAtMost(ts[1..]);
      assert ts == [ts[0]] + ts[1..];
    }
  }

  lemma {:induction false} PlacedFrom(out: seq<byte>, ts: seq<Token>)
    requires AllApply(out, ts) && forall t :: t in ts && t.Match? ==> t.offset <= WINDOW
    ensures Placed(ts, |out|) && |Expand(out, ts)| == |out| + Total(ts)
    decreases |ts|
  {
    hide Copy;
    if |ts| > 0 {
      assert ts[0] in ts;
      PlacedFrom(Apply(out, ts[0]), ts[1..]);
    }
  }

  /** Where only closing items of a group are unstorable, the reader keeps step and
      the output is shorter by exactly their bytes; so such an input survives if and
      only if all its tokens are storable and its length fits 32 bits. */
  lemma ClosingTokensDecide(data: seq<byte>)
    requires BadCloses(Tokens(data))
    ensures Decompressed(Compressed(data)) == data <==> AllStorable(Tokens(data)) && |data| < U32
    ensures |data| < U32 ==> |Decompressed(Compressed(data))| == KeptLength(Tokens(data))
  {
    hide LE, FromLE, Serialize, DecodeGroups, Tokens, Expand, AllApply, Storable, Placed;
    var d, ts := Compressed(data), Tokens(data);
    OutputBound(d);
    if |data| < U32 {
      TokensExpandAll(data);
      InWindow(data);
      PlacedFrom([], ts);
      U32RoundTrip(|data|);
      assert d[..4] == LE(|data|, 4) && d[4] == 2 && d[5..] == Serialize(ts);
      GroupsLength(d, Cursor(5, []), |data|, ts, 0);
      KeptAllIff(ts, 0);
      if AllStorable(ts) { StorableRoundTrip(data); }
    }
  }

  lemma InWindow(data: seq<byte>)
    ensures forall t :: t in Tokens(data) && t.Match? ==> t.offset <= WINDOW
  {
    OffsetsInWindow(data, 0, Empty());
  }

  // ------------------------------------------------------------- the witness

  function Zeros(n: nat): (s: seq<byte>)
    ensures |s| == n && forall i :: 0 <= i < n ==> s[i] == 0
  {
    seq(n, _ => 0)
  }

  /** 1 2 3, then 65533 zeros, then 1 2 3 again. */
  function Witness(): (s: seq<byte>)
    ensures |s| == WINDOW + 3
    ensures s[0] == s[WINDOW] == 1 && s[1] == s[WINDOW + 1] == 2 && s[2] == s[WINDOW + 2] == 3
    ensures forall i :: 3 <= i < WINDOW ==> s[i] == 0
  {
    [1, 2, 3] + Zeros(WINDOW - 3) + [1, 2, 3]
  }

  lemma Hashes()
    ensures Hash3(1, 2, 3) == 1091 && Hash3(2, 3, 0) == 2144 && Hash3(3, 0, 0) == 3072
    ensures Hash3(0, 0, 0) == 0 && Hash3(0, 0, 1) == 1 && Hash3(0, 1, 2) == 34
  {
    assert ((1 as bv32 << 10) ^ (2 as bv32 << 5) ^ (3 as bv32)) & 0x7FFF == 1091;
    assert ((2 as bv32 << 10) ^ (3 as bv32 << 5) ^ (0 as bv32)) & 0x7FFF == 2144;
    assert ((3 as bv32 << 10) ^ (0 as bv32 << 5) ^ (0 as bv32)) & 0x7FFF == 3072;
    assert ((0 as bv32 << 10) ^ (0 as bv32 << 5) ^ (0 as bv32)) & 0x7FFF == 0;
    assert ((0 as bv32 << 10) ^ (0 as bv32 << 5) ^ (1 as bv32)) & 0x7FFF == 1;
    assert ((0 as bv32 << 10) ^ (1 as bv32 << 5) ^ (2 as bv32)) & 0x7FFF == 34;
  }

  const START := 1091

  /** Between the ends nothing hashes like 1 2 3. */
  lemma OtherHashes(p: nat)
    requires 0 < p < WINDOW
    ensures HashAt(Witness(), p) != START
  {
    hide Hash3, Witness;
    Hashes();
  }

  /** Before the second 1 2 3, its chain still starts at position 0. */
  ghost predicate HeadKept(ix: Index, pos: nat) {
    ix.Below(pos) && (pos > 0 ==> ix.head[START] == 0)
  }

  lemma {:induction false} InsertRunKeeps(ix: Index, pos: nat, n: nat)
    requires 0 < pos && pos + n <= WINDOW && |ix.head| == HASH_SIZE && |ix.chain| == WINDOW && ix.head[START] == 0
    ensures InsertRun(Witness(), ix, pos, n).head[START] == 0
  {
    hide Witness, HashAt;
    if n > 0 {
      InsertRunKeeps(ix, pos, n - 1);
      OtherHashes(pos + n - 1);
    }
  }

  /** No match straddles the second 1 2 3: it would have to start at distance
      65536 too. */
  lemma NoStraddle(pos: nat, f: Found)
    requires 0 < pos < WINDOW && Repeats(Witness(), pos, f)
    ensures pos + f.length <= WINDOW
  {
    hide Witness;
    var w := Witness();
    SameByte(w, pos - f.offset, pos, f.length, WINDOW - pos);
  }

  lemma SameByte(w: seq<byte>, i: nat, k: nat, n: nat, j: nat)
    requires i + n <= |w| && k + n <= |w| && w[i..i + n] == w[k..k + n]
    ensures j < n ==> w[i + j] == w[k + j]
  {
    if j < n { assert w[i..i + n][j] == w[k..k + n][j]; }
  }

  lemma FirstStep()
    ensures var s := Next(Witness(), 0, Empty()); s.token == Literal(1) && s.pos == 1 && HeadKept(s.ix, 1)
  {
    hide Witness, Hash3;
    Hashes();
  }

  lemma MiddleStep(pos: nat, ix: Index)
    requires 0 < pos < WINDOW && HeadKept(ix, pos)
    ensures var s := Next(Witness(), pos, ix); s.pos <= WINDOW && Storable(s.token) && HeadKept(s.ix, s.pos)
  {
    hide Witness, Find, HashAt, InsertRun;
    var w := Witness();
    FindRepeats(w, pos, ix);
    NextCovers(w, pos, ix);
    OtherHashes(pos);
    var m := Find(w, pos, ix);
    if m.length >= MIN_MATCH {
      NoStraddle(pos, m);
      InsertRunKeeps(Insert(w, ix, pos), pos, m.length);
      InsertRunKeeps(ix, pos, m.length);
    }
  }

  lemma {:induction false} WalkKeepsLongest(data: seq<byte>, pos: nat, chain: seq<int>, idx: int, left: nat,
                                            best: Found)
    requires pos <= |data| && |chain| == WINDOW && idx < pos
    requires forall w :: 0 <= w < WINDOW ==> chain[w] < pos
    requires best.length >= |data| - pos
    ensures Walk(data, pos, chain, idx, left, best) == best
    decreases left
  {
    if !(idx < 0 || left == 0 || pos - idx > WINDOW) {
      WalkKeepsLongest(data, pos, chain, chain[idx % WINDOW], left - 1, best);
    }
  }

  lemma LastStep(ix: Index)
    requires HeadKept(ix, WINDOW)
    ensures TokensFrom(Witness(), WINDOW, ix) == [Match(WINDOW, 3)]
  {
    hide Witness, Hash3, Walk, InsertRun;
    var w := Witness();
    Hashes();
    assert HashAt(w, WINDOW) == START;
    assert Common(w, 0, WINDOW, 3) == 3 by {
      assert Common(w, 2, WINDOW + 2, 1) == 1;
      assert Common(w, 1, WINDOW + 1, 2) == 2;
    }
    FirstCandidate(w, ix);
    assert Find(w, WINDOW, ix) == Found(WINDOW, 3);
  }

  lemma FirstCandidate(w: seq<byte>, ix: Index)
    requires |w| == WINDOW + 3 && ix.Below(WINDOW) && Common(w, 0, WINDOW, 3) == 3
    ensures Walk(w, WINDOW, ix.chain, 0, MAX_CHAIN, None) == Found(WINDOW, 3)
  {
    hide Common;
    WalkKeepsLongest(w, WINDOW, ix.chain, ix.chain[0], MAX_CHAIN - 1, Found(WINDOW, 3));
  }

  lemma {:induction false} WitnessTokensFrom(pos: nat, ix: Index)
    requires pos <= WINDOW && HeadKept(ix, pos) && (pos == 0 ==> ix == Empty())
    ensures BadLast(TokensFrom(Witness(), pos, ix))
    decreases WINDOW - pos
  {
    hide Witness, Next, HeadKept, BadLast, Storable;
    HeadBelow(ix, pos);
    if pos == WINDOW {
      LastStep(ix);
      OnlyBad();
    } else {
      if pos == 0 { FirstStep(); LiteralStorable(1); } else { MiddleStep(pos, ix); }
      var s := Next(Witness(), pos, ix);
      WitnessTokensFrom(s.pos, s.ix);
      BadLastCons(s.token, TokensFrom(Witness(), s.pos, s.ix));
    }
  }

  lemma OnlyBad()
    ensures BadLast([Match(WINDOW, 3)])
  {
  }

  lemma LiteralStorable(b: byte)
    ensures Storable(Literal(b))
  {
  }

  lemma BadLastCons(t: Token, ts: seq<Token>)
    requires Storable(t) && BadLast(ts)
    ensures BadLast([t] + ts)
  {
    assert Front([t] + ts) == [t] + Front(ts);
  }

  lemma HeadBelow(ix: Index, pos: nat)
    requires HeadKept(ix, pos)
    ensures ix.Below(pos)
  {
  }

  /** These 65539 bytes come back three bytes short. */
  lemma WindowEdgeLost()
    ensures Decompressed(Compressed(Witness())) == Witness()[..WINDOW]
  {
    hide Witness, LE, FromLE, Serialize, DecodeGroups, Tokens, Expand, AllApply, BadLast;
    var w := Witness();
    var d, ts := Compressed(w), Tokens(w);
    TokensExpandAll(w);
    U32RoundTrip(|w|);
    assert d[..4] == LE(|w|, 4) && d[4] == 2 && d[5..] == Serialize(ts);
    WitnessBadLast();
    GroupsStop(d, Cursor(5, []), |w|, ts);
    LastTokenBytes(ts, w);
  }

  lemma WitnessBadLast()
    ensures var ts := Tokens(Witness()); |ts| > 0 && BadLast(ts) && ts[|ts| - 1] == Match(WINDOW, 3)
  {
    hide Witness;
    WitnessTokensFrom(0, Empty());
    WitnessLast(0, Empty());
  }

  lemma {:induction false} WitnessLast(pos: nat, ix: Index)
    requires pos <= WINDOW && HeadKept(ix, pos) && (pos == 0 ==> ix == Empty())
    ensures var ts := TokensFrom(Witness(), pos, ix); |ts| > 0 && ts[|ts| - 1] == Match(WINDOW, 3)
    decreases WINDOW - pos
  {
    hide Witness, Next, HeadKept;
    HeadBelow(ix, pos);
    if pos == WINDOW {
      LastStep(ix);
    } else {
      if pos == 0 { FirstStep(); } else { MiddleStep(pos, ix); }
      WitnessLast(Next(Witness(), pos, ix).pos, Next(Witness(), pos, ix).ix);
    }
  }

  /** What is lost is what the last token would have copied. */
  lemma LastTokenBytes(ts: seq<Token>, w: seq<byte>)
    requires |ts| > 0 && ts[|ts| - 1] == Match(WINDOW, 3) && |w| == WINDOW + 3
    requires AllApply([], ts) && Expand([], ts) == w && AllApply([], Front(ts))
    ensures Expand([], Front(ts)) == w[..WINDOW]
  {
    hide Copy, AllApply;
    var last := ts[|ts| - 1];
    assert ts == Front(ts) + [last];
    ExpandSplit([], Front(ts), [last]);
    var out := Expand([], Front(ts));
    OneToken(out, last);
    CopyExtends(out, |out| - WINDOW, 3);
  }

  lemma OneToken(out: seq<byte>, t: Token)
    requires AllApply(out, [t]) && t.Match?
    ensures Applies(out, t) && Expand(out, [t]) == Copy(out, |out| - t.offset, t.length)
  {
    hide Copy;
    assert [t][1..] == [];
  }

  lemma {:induction false} CopyExtends(out: seq<byte>, src: nat, n: nat)
    requires src < |out| || n == 0
    ensures Copy(out, src, n)[..|out|] == out
    decreases n
  {
    if n > 0 { CopyExtends(out + [out[src]], src + 1, n - 1); }
  }
}
