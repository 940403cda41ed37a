/** LZSS as functions (src/lz_compress.cpp). */
module Lz {
  // The match search and the token stream with lazy matching.

  import opened Bytes

  const MIN_MATCH := 3
  const MAX_MATCH := 258
  const MAX_CHAIN := 128
  const WINDOW := 0x1_0000
  const HASH_SIZE := 0x8000

  function Hash3(a: byte, b: byte, c: byte): (h: nat)
    ensures h < HASH_SIZE
  {
    var x := ((a as bv32 << 10) ^ (b as bv32 << 5) ^ (c as bv32)) & 0x7FFF;
    x as int
  }

  function HashAt(data: seq<byte>, pos: nat): (h: nat)
    requires pos + 2 < |data|
    ensures h < HASH_SIZE
  {
    Hash3(data[pos], data[pos + 1], data[pos + 2])
  }

  // ------------------------------------------------------------------ search

  /** The hash chains: the latest position of each hash, and for each position
      (modulo the window) the one it displaced; a negative entry ends a chain. */
  datatype Index = Index(head: seq<int>, chain: seq<int>)
  {
    ghost predicate Below(pos: nat) {
      |head| == HASH_SIZE && |chain| == WINDOW
      && (forall h :: 0 <= h < HASH_SIZE ==> head[h] < pos)
      && (forall w :: 0 <= w < WINDOW ==> chain[w] < pos)
    }
  }

  function Empty(): (ix: Index)
    ensures ix.Below(0)
  {
    Index(seq(HASH_SIZE, _ => -1), seq(WINDOW, _ => -1))
  }

  /** A position as the chains keep it: a signed 32-bit number, which from 2^31 on is
      no longer the position, but never a later one. */
  function Slot(pos: nat): (v: int)
    ensures v <= pos && (pos < 0x8000_0000 ==> v == pos)
  {
    if pos % U32 < 0x8000_0000 then pos % U32 else pos % U32 - U32
  }

  function Insert(data: seq<byte>, ix: Index, pos: nat): (r: Index)
    requires pos + 2 < |data| && |ix.head| == HASH_SIZE && |ix.chain| == WINDOW
    ensures |r.head| == HASH_SIZE && |r.chain| == WINDOW
    ensures ix.Below(pos + 1) ==> r.Below(pos + 1)
  {
    var h := HashAt(data, pos);
    Index(ix.head[h := Slot(pos)], ix.chain[pos % WINDOW := ix.head[h]])
  }

  datatype Found = Found(offset: nat, length: nat)

  const None := Found(0, 0)

  /** How many bytes from `cand` and from `pos` agree, up to `max`. */
  function Common(data: seq<byte>, cand: nat, pos: nat, max: nat): (n: nat)
    requires cand <= pos && pos + max <= |data|
    ensures n <= max
    decreases max
  {
    if max == 0 || data[cand] != data[pos] then 0
    else 1 + Common(data, cand + 1, pos + 1, max - 1)
  }

  lemma SliceHead<T>(s: seq<T>, i: nat, n: nat)
    requires i + n + 1 <= |s|
    ensures s[i..i + n + 1] == [s[i]] + s[i + 1..i + 1 + n]
  {
  }

  lemma {:induction false} CommonAgrees(data: seq<byte>, cand: nat, pos: nat, max: nat)
    requires cand <= pos && pos + max <= |data|
    ensures var n := Common(data, cand, pos, max);
            && data[cand..cand + n] == data[pos..pos + n]
            && (n < max ==> data[cand + n] != data[pos + n])
    decreases max
  {
    if max > 0 && data[cand] == data[pos] {
      CommonAgrees(data, cand + 1, pos + 1, max - 1);
      var n := Common(data, cand + 1, pos + 1, max - 1);
      SliceHead(data, cand, n);
      SliceHead(data, pos, n);
    }
  }

  /** The search without shortcuts: measure every candidate on the chain, keep
      the first of the longest, stop at `left` candidates, at the window's end
      or at the maximum length. */
  function Walk(data: seq<byte>, pos: nat, chain: seq<int>, idx: int, left: nat, best: Found): Found
    requires pos <= |data| && |chain| == WINDOW && idx < pos
    requires forall w :: 0 <= w < WINDOW ==> chain[w] < pos
    decreases left
  {
    if idx < 0 || left == 0 || pos - idx > WINDOW then best
    else
      var n := Common(data, idx, pos, Min(MAX_MATCH, |data| - pos));
      if n >= MIN_MATCH && n > best.length then
        var b := Found(pos - idx, n);
        if n == MAX_MATCH then b else Walk(data, pos, chain, chain[idx % WINDOW], left - 1, b)
      else Walk(data, pos, chain, chain[idx % WINDOW], left - 1, best)
  }

  /** `find_match`. */
  function Find(data: seq<byte>, pos: nat, ix: Index): Found
    requires pos <= |data| && ix.Below(pos)
  {
    if pos + MIN_MATCH > |data| then None
    else Walk(data, pos, ix.chain, ix.head[HashAt(data, pos)], MAX_CHAIN, None)
  }

  /** A match worth emitting: it repeats earlier bytes, possibly overlapping. */
  ghost predicate Repeats(data: seq<byte>, pos: nat, f: Found) {
    MIN_MATCH <= f.length <= MAX_MATCH
    && 1 <= f.offset <= pos && f.offset <= WINDOW
    && pos + f.length <= |data|
    && data[pos - f.offset..pos - f.offset + f.length] == data[pos..pos + f.length]
  }

  lemma {:induction false} WalkFindsRepeats(data: seq<byte>, pos: nat, chain: seq<int>, idx: int, left: nat,
                                            best: Found)
    requires pos <= |data| && |chain| == WINDOW && idx < pos
    requires forall w :: 0 <= w < WINDOW ==> chain[w] < pos
    requires best == None || Repeats(data, pos, best)
    ensures var f := Walk(data, pos, chain, idx, left, best); f == None || Repeats(data, pos, f)
    ensures Walk(data, pos, chain, idx, left, best).length >= best.length
    decreases left
  {
    hide Common;
    if !(idx < 0 || left == 0 || pos - idx > WINDOW) {
      CommonAgrees(data, idx, pos, Min(MAX_MATCH, |data| - pos));
      var n := Common(data, idx, pos, Min(MAX_MATCH, |data| - pos));
      if n >= MIN_MATCH && n > best.length {
        assert Repeats(data, pos, Found(pos - idx, n));
        WalkFindsRepeats(data, pos, chain, chain[idx % WINDOW], left - 1, Found(pos - idx, n));
      } else {
        WalkFindsRepeats(data, pos, chain, chain[idx % WINDOW], left - 1, best);
      }
    }
  }

  lemma FindRepeats(data: seq<byte>, pos: nat, ix: Index)
    requires pos <= |data| && ix.Below(pos)
    ensures var f := Find(data, pos, ix); f == None || Repeats(data, pos, f)
  {
    if pos + MIN_MATCH <= |data| {
      WalkFindsRepeats(data, pos, ix.chain, ix.head[HashAt(data, pos)], MAX_CHAIN, None);
    }
  }

  // ------------------------------------------------------------------ tokens

  datatype Token = Literal(b: byte) | Match(offset: nat, length: nat)

  /** Insert the first `n` positions from `pos` that still have three bytes. */
  function InsertRun(data: seq<byte>, ix: Index, pos: nat, n: nat): (r: Index)
    requires |ix.head| == HASH_SIZE && |ix.chain| == WINDOW
    ensures |r.head| == HASH_SIZE && |r.chain| == WINDOW
  {
    if n == 0 then ix
    else
      var r := InsertRun(data, ix, pos, n - 1);
      if pos + (n - 1) + MIN_MATCH <= |data| then Insert(data, r, pos + n - 1) else r
  }

  lemma {:induction false} InsertRunBelow(data: seq<byte>, ix: Index, pos: nat, n: nat)
    requires ix.Below(pos + n)
    ensures InsertRun(data, ix, pos, n).Below(pos + n)
  {
    if n > 0 {
      InsertRunWeaker(data, ix, pos, n - 1, pos + n);
    }
  }

  lemma {:induction false} InsertRunWeaker(data: seq<byte>, ix: Index, pos: nat, n: nat, top: nat)
    requires ix.Below(top) && pos + n <= top
    ensures InsertRun(data, ix, pos, n).Below(top)
  {
    if n > 0 { InsertRunWeaker(data, ix, pos, n - 1, top); }
  }

  datatype Step = Step(token: Token, pos: nat, ix: Index)

  /** One turn of the compressor at `pos`: a match, unless there is none or the
      next position promises one longer by more than a byte. */
  function Next(data: seq<byte>, pos: nat, ix: Index): (s: Step)
    requires pos < |data| && ix.Below(pos)
    ensures pos < s.pos <= |data| && s.ix.Below(s.pos)
  {
    var m := Find(data, pos, ix);
    FindRepeats(data, pos, ix);
    if m.length < MIN_MATCH then
      Step(Literal(data[pos]), pos + 1, if pos + 2 < |data| then Insert(data, ix, pos) else ix)
    else if pos + 1 + MIN_MATCH <= |data| then
      var seen := Insert(data, ix, pos);
      if Find(data, pos + 1, seen).length > m.length + 1 then Step(Literal(data[pos]), pos + 1, seen)
      else
        InsertRunBelow(data, seen, pos, m.length);
        Step(Match(m.offset, m.length), pos + m.length, InsertRun(data, seen, pos, m.length))
    else
      InsertRunBelow(data, ix, pos, m.length);
      Step(Match(m.offset, m.length), pos + m.length, InsertRun(data, ix, pos, m.length))
  }

  /** All tokens from `pos` on. */
  function TokensFrom(data: seq<byte>, pos: nat, ix: Index): seq<Token>
    requires pos <= |data| && ix.Below(pos)
    decreases |data| - pos
  {
    if pos == |data| then []
    else
      var s := Next(data, pos, ix);
      [s.token] + TokensFrom(data, s.pos, s.ix)
  }

  function Tokens(data: seq<byte>): seq<Token> {
    TokensFrom(data, 0, Empty())
  }

  /** Copy `n` bytes from `src` to the end, one at a time, so that a copy may
      read what it has just written. */
  function Copy(out: seq<byte>, src: nat, n: nat): (r: seq<byte>)
    requires src < |out| || n == 0
    ensures |r| == |out| + n
    decreases n
  {
    if n == 0 then out else Copy(out + [out[src]], src + 1, n - 1)
  }

  ghost predicate Applies(out: seq<byte>, t: Token) {
    t.Match? ==> 1 <= t.offset <= |out| && MIN_MATCH <= t.length <= MAX_MATCH
  }

  function Apply(out: seq<byte>, t: Token): (r: seq<byte>)
    requires Applies(out, t)
    ensures |r| > |out|
  {
    match t
    case Literal(b) => out + [b]
    case Match(offset, length) => Copy(out, |out| - offset, length)
  }

  ghost predicate AllApply(out: seq<byte>, ts: seq<Token>)
    decreases |ts|
  {
    |ts| == 0 || (Applies(out, ts[0]) && AllApply(Apply(out, ts[0]), ts[1..]))
  }

  /** What a token list stands for, after `out`. */
  function Expand(out: seq<byte>, ts: seq<Token>): (r: seq<byte>)
    requires AllApply(out, ts)
    ensures |r| >= |out| + |ts|
    decreases |ts|
  {
    if |ts| == 0 then out else Expand(Apply(out, ts[0]), ts[1..])
  }

  lemma {:induction false} CopyRepeats(data: seq<byte>, pos: nat, src: nat, n: nat)
    requires src < pos && pos + n <= |data|
    requires data[src..src + n] == data[pos..pos + n]
    ensures Copy(data[..pos], src, n) == data[..pos + n]
    decreases n
  {
    if n > 0 {
      assert data[src..src + n][0] == data[pos..pos + n][0];
      assert data[..pos] + [data[src]] == data[..pos + 1];
      assert data[src + 1..src + n] == data[src..src + n][1..];
      assert data[pos + 1..pos + n] == data[pos..pos + n][1..];
      CopyRepeats(data, pos + 1, src + 1, n - 1);
    }
  }

  /** One token covers exactly the bytes the compressor moves past. */
  lemma NextCovers(data: seq<byte>, pos: nat, ix: Index)
    requires pos < |data| && ix.Below(pos)
    ensures var s := Next(data, pos, ix);
            && Applies(data[..pos], s.token)
            && Apply(data[..pos], s.token) == data[..s.pos]
            && (s.token.Match? ==> s.token.offset <= WINDOW)
  {
    hide Find, Insert, InsertRun, Copy;
    FindRepeats(data, pos, ix);
    var s := Next(data, pos, ix);
    if s.token.Literal? {
      assert data[..pos] + [data[pos]] == data[..pos + 1];
    } else {
      CopyRepeats(data, pos, pos - s.token.offset, s.token.length);
    }
  }

  /** The tokens of any input expand to that input, whatever the hash does. */
  lemma {:induction false} TokensExpand(data: seq<byte>, pos: nat, ix: Index)
    requires pos <= |data| && ix.Below(pos)
    ensures AllApply(data[..pos], TokensFrom(data, pos, ix))
    ensures Expand(data[..pos], TokensFrom(data, pos, ix)) == data
    decreases |data| - pos
  {
    hide Next, Apply, Applies;
    if pos == |data| {
      assert data[..pos] == data;
    } else {
      NextCovers(data, pos, ix);
      var s := Next(data, pos, ix);
      TokensExpand(data, s.pos, s.ix);
      assert TokensFrom(data, pos, ix)[1..] == TokensFrom(data, s.pos, s.ix);
    }
  }

  /** A match offset has to fit 16 bits and must not be stored as zero. */
  predicate Storable(t: Token) {
    t.Match? ==> 1 <= t.offset < WINDOW && MIN_MATCH <= t.length <= MAX_MATCH
  }

  /** Up to 65536 bytes of input every token is storable. */
  lemma {:induction false} ShortInputStorable(data: seq<byte>, pos: nat, ix: Index)
    requires |data| <= WINDOW && pos <= |data| && ix.Below(pos)
    ensures forall t :: t in TokensFrom(data, pos, ix) ==> Storable(t)
    decreases |data| - pos
  {
    hide Next, Apply;
    if pos < |data| {
      NextCovers(data, pos, ix);
      ShortInputStorable(data, Next(data, pos, ix).pos, Next(data, pos, ix).ix);
    }
  }
}
