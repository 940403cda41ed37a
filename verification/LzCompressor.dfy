/** The loops of src/lz_compress.cpp, proved against the functions they compute. */
module LzCompressor {
  // They work over hash arrays and an output buffer whose flag bytes are patched in
  // afterwards.

  import opened Bytes
  import opened Lz
  import opened LzFormat

  /** `find_match`. Comparing one byte past the best match before the full scan
      skips only candidates that could not win: the result is the plain walk's. */
  method FindMatch(data: seq<byte>, pos: nat, head: array<int>, chain: array<int>) returns (best: Found)
    requires pos <= |data| && Index(head[..], chain[..]).Below(pos)
    ensures best == Find(data, pos, Index(head[..], chain[..]))
  {
    hide Common, Hash3;
    best := None;
    if pos + MIN_MATCH > |data| { return; }
    var idx := head[HashAt(data, pos)];
    var left := MAX_CHAIN;
    ghost var links := chain[..];
    ghost var goal := Find(data, pos, Index(head[..], links));
    while idx >= 0 && left > 0
      invariant idx < pos && 0 <= left
      invariant best.length < MAX_MATCH
      invariant Walk(data, pos, links, idx, left, best) == goal
      decreases left
    {
      left := left - 1;
      if pos - idx > WINDOW { break; }
      var next := chain[idx % WINDOW];
      assert next == links[idx % WINDOW];
      if best.length >= MIN_MATCH && pos + best.length < |data|
         && (data[idx + best.length] != data[pos + best.length] || data[idx] != data[pos])
      {
        QuickCheck(data, idx, pos, best.length, Min(MAX_MATCH, |data| - pos));
        idx := next;
        continue;
      }
      var maxLen := Min(MAX_MATCH, |data| - pos);
      var n := MatchLength(data, idx, pos, maxLen);
      if n >= MIN_MATCH && n > best.length {
        best := Found(pos - idx, n);
        if n == MAX_MATCH { return; }
      }
      idx := next;
    }
  }

  /** A mismatch at index 0 or just past a shorter match bounds the match. */
  lemma QuickCheck(data: seq<byte>, cand: nat, pos: nat, n: nat, max: nat)
    requires cand <= pos && pos + max <= |data| && n < max
    requires data[cand + n] != data[pos + n] || data[cand] != data[pos]
    ensures Common(data, cand, pos, max) <= n
  {
    CommonAgrees(data, cand, pos, max);
    var c := Common(data, cand, pos, max);
    if c > n { SameSlices(data, cand, pos, c, n); }
  }

  lemma SameSlices(data: seq<byte>, i: nat, j: nat, c: nat, n: nat)
    requires i <= j && j + c <= |data| && data[i..i + c] == data[j..j + c] && n < c
    ensures data[i + n] == data[j + n] && data[i] == data[j]
  {
    assert data[i..i + c][n] == data[j..j + c][n] && data[i..i + c][0] == data[j..j + c][0];
  }

  method MatchLength(data: seq<byte>, cand: nat, pos: nat, max: nat) returns (n: nat)
    requires cand <= pos && pos + max <= |data|
    ensures n == Common(data, cand, pos, max)
  {
    n := 0;
    while n < max && data[cand + n] == data[pos + n]
      invariant n <= max
      invariant Common(data, cand, pos, max) == n + Common(data, cand + n, pos + n, max - n)
    {
      n := n + 1;
    }
  }

  method InsertAt(data: seq<byte>, pos: nat, head: array<int>, chain: array<int>)
    requires pos + 2 < |data| && head.Length == HASH_SIZE && chain.Length == WINDOW && head != chain
    modifies head, chain
    ensures Index(head[..], chain[..]) == Insert(data, Index(old(head[..]), old(chain[..])), pos)
  {
    var h := HashAt(data, pos);
    chain[pos % WINDOW] := head[h];
    head[h] := Slot(pos);
  }

  method InsertMatched(data: seq<byte>, pos: nat, n: nat, head: array<int>, chain: array<int>)
    requires head.Length == HASH_SIZE && chain.Length == WINDOW && head != chain
    modifies head, chain
    ensures Index(head[..], chain[..]) == InsertRun(data, Index(old(head[..]), old(chain[..])), pos, n)
  {
    hide Insert;
    ghost var ix := Index(head[..], chain[..]);
    var j := 0;
    while j < n && pos + j + MIN_MATCH <= |data|
      invariant 0 <= j <= n
      invariant Index(head[..], chain[..]) == InsertRun(data, ix, pos, j)
    {
      if pos + j + 2 < |data| { InsertAt(data, pos + j, head, chain); }
      j := j + 1;
    }
    InsertRunStops(data, ix, pos, j, n);
  }

  /** Positions without three bytes left are never inserted. */
  lemma {:induction false} InsertRunStops(data: seq<byte>, ix: Index, pos: nat, j: nat, n: nat)
    requires |ix.head| == HASH_SIZE && |ix.chain| == WINDOW
    requires j <= n && (j < n ==> pos + j + MIN_MATCH > |data|)
    ensures InsertRun(data, ix, pos, n) == InsertRun(data, ix, pos, j)
    decreases n
  {
    if j < n { InsertRunStops(data, ix, pos, j, n - 1); }
  }

  /** One turn: decide on a token and update the hash arrays. */
  method EmitNext(data: seq<byte>, pos: nat, head: array<int>, chain: array<int>) returns (t: Token, next: nat)
    requires pos < |data| && head != chain && Index(head[..], chain[..]).Below(pos)
    modifies head, chain
    ensures Step(t, next, Index(head[..], chain[..])) == Next(data, pos, Index(old(head[..]), old(chain[..])))
  {
    hide Find, InsertRun, Insert;
    ghost var ix := Index(head[..], chain[..]);
    var m := None;
    FindRepeats(data, pos, ix);
    if pos + MIN_MATCH <= |data| {
      m := FindMatch(data, pos, head, chain);
    } else {
      FindNothing(data, pos, ix);
    }
    if m.length >= MIN_MATCH && pos + 1 + MIN_MATCH <= |data| {
      InsertAt(data, pos, head, chain);
      var nextMatch := FindMatch(data, pos + 1, head, chain);
      if nextMatch.length > m.length + 1 { return Literal(data[pos]), pos + 1; }
    }
    if m.length >= MIN_MATCH {
      InsertMatched(data, pos, m.length, head, chain);
      return Match(m.offset, m.length), pos + m.length;
    }
    if pos + 2 < |data| { InsertAt(data, pos, head, chain); }
    return Literal(data[pos]), pos + 1;
  }

  lemma FindNothing(data: seq<byte>, pos: nat, ix: Index)
    requires pos <= |data| < pos + MIN_MATCH && ix.Below(pos)
    ensures Find(data, pos, ix) == None
  {
  }

  /** `compress`: groups of up to eight tokens, the flag byte reserved first and
      patched when the group is complete. Positions are signed 32-bit. */
  method Compress(data: seq<byte>) returns (out: seq<byte>)
    ensures out == Compressed(data)
  {
    hide Next, Bodies, Body, Serialize, Flags;
    out := LE(|data|, 4) + [2];
    ghost var header := out;
    SerializeNothing();
    if |data| == 0 { return; }
    var head := new int[HASH_SIZE](_ => -1);
    var chain := new int[WINDOW](_ => -1);
    var pos := 0;
    ghost var done: seq<Token> := [];
    assert Index(head[..], chain[..]) == Empty();
    while pos < |data|
      invariant 0 <= pos <= |data| && Index(head[..], chain[..]).Below(pos)
      invariant pos < |data| ==> |done| % 8 == 0
      invariant done + TokensFrom(data, pos, Index(head[..], chain[..])) == Tokens(data)
      invariant out == header + Serialize(done)
      decreases |data| - pos
    {
      ghost var base, start := out, pos;
      var flagPos, flags, bit := |out|, 0, 0;
      out := out + [0];
      ghost var g: seq<Token> := [];
      while bit < 8 && pos < |data|
        invariant 0 <= pos <= |data| && Index(head[..], chain[..]).Below(pos)
        invariant 0 <= bit == |g| <= 8 && (bit == 0 ==> pos == start) && (bit > 0 ==> pos > start)
        invariant (done + g) + TokensFrom(data, pos, Index(head[..], chain[..])) == Tokens(data)
        invariant out == base + [0] + Bodies(g) && flags == Flags(g)
        decreases 8 - bit
      {
        ghost var ix, p := Index(head[..], chain[..]), pos;
        var t, next := EmitNext(data, pos, head, chain);
        FlagsGrow(g, t);
        BodiesGrow(g, t);
        if t.Match? { flags := flags + Pow(2, bit); }
        out := out + Body(t);
        g := g + [t];
        pos := next;
        bit := bit + 1;
        assert TokensFrom(data, p, ix) == [t] + TokensFrom(data, pos, Index(head[..], chain[..]));
      }
      out := out[flagPos := flags];
      SerializeAppend(done, g);
      done := done + g;
    }
    assert done == Tokens(data);
  }

  /** The copy loop of the decoder, which may read bytes it has just written. */
  method CopyBytes(out: seq<byte>, src: nat, n: nat, orig: nat) returns (r: seq<byte>)
    requires src < |out| || n == 0
    ensures r == CopyUpTo(out, src, n, orig)
  {
    r := out;
    var j := 0;
    while j < n && |r| < orig
      invariant 0 <= j <= n && |r| == |out| + j
      invariant CopyUpTo(r, src + j, n - j, orig) == CopyUpTo(out, src, n, orig)
    {
      r := r + [r[src + j]];
      j := j + 1;
    }
  }

  /** One item; `go` is false when the item is invalid and ends its group. */
  method DecodeOne(d: seq<byte>, pos: nat, out: seq<byte>, orig: nat, isMatch: bool, v2: bool)
    returns (go: bool, next: nat, r: seq<byte>)
    requires pos < |d|
    ensures var item := DecodeItem(d, Cursor(pos, out), orig, isMatch, v2);
            item == if go then Go(Cursor(next, r)) else Stop(Cursor(next, r))
  {
    hide CopyUpTo, FromLE;
    next, r := pos, out;
    if !isMatch { return true, pos + 1, out + [d[pos]]; }
    var offset, length;
    if v2 {
      if pos + 2 >= |d| { return false, next, r; }
      offset, length := FromLE(d[pos..pos + 2]), d[pos + 2] + MIN_MATCH;
      next := pos + 3;
    } else {
      if pos + 1 >= |d| { return false, next, r; }
      offset, length := FromLE([d[pos], d[pos + 1] % 16]), d[pos + 1] / 16 + MIN_MATCH;
      next := pos + 2;
    }
    if offset == 0 || offset > |out| { return false, next, r; }
    r := CopyBytes(out, |out| - offset, length, orig);
    go := true;
  }

  method DecodeGroup(d: seq<byte>, start: nat, before: seq<byte>, orig: nat, flags: byte, v2: bool)
    returns (pos: nat, out: seq<byte>)
    ensures Cursor(pos, out) == DecodeBits(d, Cursor(start, before), orig, flags, 0, v2)
  {
    hide DecodeItem, FlagSet;
    pos, out := start, before;
    var bit := 0;
    while bit < 8 && pos < |d| && |out| < orig
      invariant 0 <= bit <= 8
      invariant DecodeBits(d, Cursor(pos, out), orig, flags, bit, v2) == DecodeBits(d, Cursor(start, before), orig,
                flags, 0, v2)
      decreases 8 - bit
    {
      var go, next, r := DecodeOne(d, pos, out, orig, FlagSet(flags, bit), v2);
      pos, out := next, r;
      if !go { break; }
      bit := bit + 1;
    }
  }

  /** `decompress`, on every byte string: an invalid item ends its group only. */
  method Decompress(d: seq<byte>) returns (out: seq<byte>)
    ensures out == Decompressed(d)
  {
    hide DecodeBits, FromLE;
    if |d| < 4 { return []; }
    var orig := FromLE(d[..4]);
    var pos, v2 := 4, false;
    if |d| > 4 && d[4] == 2 { v2 := true; pos := 5; }
    out := [];
    while pos < |d| && |out| < orig
      invariant pos >= 4
      invariant DecodeGroups(d, Cursor(pos, out), orig, v2) == Decompressed(d)
      decreases |d| - pos
    {
      var flags := d[pos];
      pos, out := DecodeGroup(d, pos + 1, out, orig, flags, v2);
    }
  }

  lemma SerializeNothing()
    ensures Serialize([]) == [] && Bodies([]) == [] && Flags([]) == 0
  {
  }

  lemma FlagsGrow(g: seq<Token>, t: Token)
    requires |g| < 8
    ensures Flags(g + [t]) == Flags(g) + if t.Match? then Pow(2, |g|) else 0
  {
    var bit := if t.Match? then 1 else 0;
    assert FlagBits(g + [t]) == FlagBits(g) + [bit];
    ValSnoc(FlagBits(g), bit, 2);
  }

  lemma BodiesGrow(g: seq<Token>, t: Token)
    ensures Bodies(g + [t]) == Bodies(g) + Body(t)
  {
    BodiesAppend(g, [t]);
    assert Bodies([t][1..]) == [];
  }
}
