/** Content-defined chunking (src/chunker.cpp). */
module Chunker {
  // Boundaries come from a rolling hash over a byte table; what is claimed of the
  // chunks holds for every table.

  import opened Bytes

  const WINDOW := 32

  datatype Config = Config(min: nat, max: nat, mask: bv32)

  /** The default configuration: 1 KB, 16 KB, and a mask for 4 KB targets. */
  const Default := Config(1024, 16384, 0xFFF)

  predicate Sane(cfg: Config) {
    1 <= cfg.min <= cfg.max
  }

  type Table = t: seq<bv32> | |t| == 256
    ghost witness seq(256, _ => 0)

  function AddByte(h: bv32, t: Table, b: byte, w: nat): bv32
    requires w < WINDOW
  {
    h ^ (t[b] << (WINDOW - 1 - w))
  }

  /** The first `w` bytes of the window at `at`, XOR-ed in one by one. */
  function InitHash(data: seq<byte>, t: Table, at: nat, w: nat): bv32
    requires at <= |data| && w <= WINDOW
  {
    if w == 0 then 0
    else
      var h := InitHash(data, t, at, w - 1);
      if at + w - 1 < |data| then AddByte(h, t, data[at + w - 1], w - 1) else h
  }

  function RotateLeft(h: bv32): bv32 {
    (h << 1) | (h >> 31)
  }

  datatype Incoming = Nothing | Byte(b: byte)

  function ByteAt(data: seq<byte>, i: nat): Incoming {
    if i < |data| then Byte(data[i]) else Nothing
  }

  /** Take a byte of table entry `x` from the hash, and rotate. */
  function TakeOut(h: bv32, x: bv32): bv32 {
    RotateLeft(h ^ (x << (WINDOW - 1)))
  }

  function Mix(h: bv32, x: bv32): bv32 {
    h ^ x
  }

  /** Take `out` from the hash, rotate, and add the byte that enters, if any. */
  function Roll(t: Table, h: bv32, out: byte, next: Incoming): bv32
  {
    var r := TakeOut(h, t[out]);
    if next.Byte? then Mix(r, t[next.b]) else r
  }

  predicate Boundary(h: bv32, cfg: Config) {
    h & cfg.mask == 0
  }

  /** The first boundary from `i` on, or the limit. */
  function Scan(data: seq<byte>, cfg: Config, t: Table, h: bv32, i: nat, limit: nat): (n: nat)
    requires i <= limit <= |data|
    ensures i <= n <= limit
    decreases limit - i
  {
    if i == limit || Boundary(h, cfg) then i
    else Scan(data, cfg, t, Roll(t, h, data[i], ByteAt(data, i + WINDOW)), i + 1, limit)
  }

  /** Length of the first chunk of `data`. */
  function FirstChunk(data: seq<byte>, cfg: Config, t: Table): (n: nat)
    requires Sane(cfg) && |data| > 0
    ensures 1 <= n <= |data| && n <= cfg.max && (n < |data| ==> cfg.min <= n)
  {
    if |data| <= cfg.min then |data|
    else Scan(data, cfg, t, InitHash(data, t, cfg.min, WINDOW), cfg.min, Min(|data|, cfg.max))
  }

  /** The hash that decides whether a chunk may end before byte `i`: that of 32 bytes at
      the least length, rolled on from there. */
  ghost function RollingHash(data: seq<byte>, cfg: Config, t: Table, i: nat): bv32
    requires cfg.min <= i <= |data|
    decreases i
  {
    if i == cfg.min then InitHash(data, t, i, WINDOW)
    else Roll(t, RollingHash(data, cfg, t, i - 1), data[i - 1], ByteAt(data, i - 1 + WINDOW))
  }

  lemma {:induction false} ScanIsFirst(data: seq<byte>, cfg: Config, t: Table, i: nat, limit: nat)
    requires cfg.min <= i <= limit <= |data|
    ensures var n := Scan(data, cfg, t, RollingHash(data, cfg, t, i), i, limit);
            && (n < limit ==> Boundary(RollingHash(data, cfg, t, n), cfg))
            && forall k :: i <= k < n ==> !Boundary(RollingHash(data, cfg, t, k), cfg)
    decreases limit - i
  {
    hide Roll, InitHash, Boundary;
    if i < limit && !Boundary(RollingHash(data, cfg, t, i), cfg) { ScanIsFirst(data, cfg, t, i + 1, limit); }
  }

  /** A chunk of more than the least length ends at the first position, from that length
      on, whose hash has all bits of the mask clear, or at the limit. */
  lemma CutIsFirst(data: seq<byte>, cfg: Config, t: Table)
    requires Sane(cfg) && cfg.min < |data|
    ensures var n, limit := FirstChunk(data, cfg, t), if |data| < cfg.max then |data| else cfg.max;
            && cfg.min <= n <= limit
            && (forall k :: cfg.min <= k < n ==> !Boundary(RollingHash(data, cfg, t, k), cfg))
            && (n < limit ==> Boundary(RollingHash(data, cfg, t, n), cfg))
  {
    hide Roll, InitHash, Scan, RollingHash, Boundary;
    ScanIsFirst(data, cfg, t, cfg.min, Min(|data|, cfg.max));
    assert RollingHash(data, cfg, t, cfg.min) == InitHash(data, t, cfg.min, WINDOW) by { HashStarts(data, cfg, t); }
  }

  lemma HashStarts(data: seq<byte>, cfg: Config, t: Table)
    requires cfg.min <= |data|
    ensures RollingHash(data, cfg, t, cfg.min) == InitHash(data, t, cfg.min, WINDOW)
  {
  }

  /** Take out a byte as it is in the hash after 31 turns: rotated, not shifted. */
  ghost function TakeOutWhole(h: bv32, x: bv32): bv32 {
    RotateLeft(h) ^ x
  }

  /** What rolling would be then. */
  ghost function CleanRoll(t: Table, h: bv32, out: byte, next: Incoming): bv32 {
    var r := TakeOutWhole(h, t[out]);
    if next.Byte? then Mix(r, t[next.b]) else r
  }

  predicate OnlyLowBit(x: bv32) {
    x & 1 == x
  }

  lemma Forgets(h: bv32, x: bv32)
    requires OnlyLowBit(x)
    ensures TakeOut(h, x) == TakeOutWhole(h, x)
  {
  }

  lemma Keeps(h: bv32, x: bv32)
    requires TakeOut(h, x) == TakeOutWhole(h, x)
    ensures OnlyLowBit(x)
  {
  }

  lemma MixCancels(a: bv32, b: bv32, x: bv32)
    requires Mix(a, x) == Mix(b, x)
    ensures a == b
  {
  }

  /** The byte that leaves is taken out shifted where it should be rotated: the hash
      forgets it, and depends on its window alone, only if its table entry has no bit
      but the lowest. */
  lemma RollForgetsIff(t: Table, h: bv32, out: byte, next: Incoming)
    ensures Roll(t, h, out, next) == CleanRoll(t, h, out, next) <==> OnlyLowBit(t[out])
  {
    hide TakeOut, TakeOutWhole, Mix, OnlyLowBit;
    if OnlyLowBit(t[out]) { Forgets(h, t[out]); }
    if Roll(t, h, out, next) == CleanRoll(t, h, out, next) {
      if next.Byte? { MixCancels(TakeOut(h, t[out]), TakeOutWhole(h, t[out]), t[next.b]); }
      Keeps(h, t[out]);
    }
  }

  /** The first table entry, for one, has other bits. */
  lemma FirstEntryKept()
    ensures !OnlyLowBit(TableState(1))
  {
    hide NextState;
    assert NextState(0x12345678) == 0x75432777 by { FirstState(); }
  }

  lemma FirstState()
    ensures NextState(0x12345678) == 0x75432777
  {
  }

  /** `chunk`: the pieces of `data` in order. */
  function Chunks(data: seq<byte>, cfg: Config, t: Table): seq<seq<byte>>
    requires Sane(cfg)
    decreases |data|
  {
    if |data| == 0 then []
    else
      var n := FirstChunk(data, cfg, t);
      [data[..n]] + Chunks(data[n..], cfg, t)
  }

  /** `reassemble`: the chunks end to end. */
  function Concat(cs: seq<seq<byte>>): seq<byte>
  {
    if |cs| == 0 then [] else cs[0] + Concat(cs[1..])
  }

  lemma {:induction false} ConcatAppend(xs: seq<seq<byte>>, ys: seq<seq<byte>>)
    ensures Concat(xs + ys) == Concat(xs) + Concat(ys)
  {
    if |xs| == 0 {
      assert xs + ys == ys;
    } else {
      assert (xs + ys)[1..] == xs[1..] + ys;
      ConcatAppend(xs[1..], ys);
    }
  }

  /** Chunking partitions the input, with sizes in [min, max] but for the last. */
  lemma {:induction false} ChunksPartition(data: seq<byte>, cfg: Config, t: Table)
    requires Sane(cfg)
    ensures Concat(Chunks(data, cfg, t)) == data
    ensures forall i :: 0 <= i < |Chunks(data, cfg, t)| ==> 1 <= |Chunks(data, cfg, t)[i]| <= cfg.max
    ensures forall i :: 0 <= i < |Chunks(data, cfg, t)| - 1 ==> cfg.min <= |Chunks(data, cfg, t)[i]|
    decreases |data|
  {
    hide FirstChunk;
    if |data| > 0 {
      var n := FirstChunk(data, cfg, t);
      ChunksPartition(data[n..], cfg, t);
      assert data == data[..n] + data[n..];
      var rest := Chunks(data[n..], cfg, t);
      assert n == |data| ==> rest == [];
      assert Chunks(data, cfg, t)[1..] == rest;
      assert forall i :: 1 <= i < |Chunks(data, cfg, t)| ==> Chunks(data, cfg, t)[i] == rest[i - 1];
    }
  }

  /** The number of chunks is at most one more than the minimum length goes into
      the input. */
  lemma {:induction false} ChunkCount(data: seq<byte>, cfg: Config, t: Table)
    requires Sane(cfg) && |data| > 0
    ensures (|Chunks(data, cfg, t)| - 1) * cfg.min < |data|
    decreases |data|
  {
    hide FirstChunk;
    var n := FirstChunk(data, cfg, t);
    var k := |Chunks(data[n..], cfg, t)|;
    assert |Chunks(data, cfg, t)| == k + 1;
    hide Chunks;
    if n < |data| {
      ChunkCount(data[n..], cfg, t);
      CountStep(k, cfg.min, |data| - n, n);
    } else {
      NoChunks(data[n..], cfg, t);
    }
  }

  lemma NoChunks(data: seq<byte>, cfg: Config, t: Table)
    requires Sane(cfg) && |data| == 0
    ensures |Chunks(data, cfg, t)| == 0
  {
  }

  lemma CountStep(k: nat, m: nat, a: nat, n: nat)
    requires (k - 1) * m < a && m <= n
    ensures k * m < a + n
  {
    MulDistributes(m, k - 1, 1);
  }

  /** Chunking is memoryless: past any boundary the chunks are those of the rest
      of the input alone. */
  lemma {:induction false} ChunksMemoryless(data: seq<byte>, cfg: Config, t: Table, i: nat)
    requires Sane(cfg) && i <= |Chunks(data, cfg, t)|
    ensures var cs := Chunks(data, cfg, t);
            var at := |Concat(cs[..i])|;
            at <= |data| && data[..at] == Concat(cs[..i]) && cs[i..] == Chunks(data[at..], cfg, t)
    decreases i
  {
    hide FirstChunk, Chunks, Concat;
    var cs := Chunks(data, cfg, t);
    if i == 0 {
      NoneJoined();
      assert data[0..] == data;
    } else {
      var n := FirstOfChunks(data, cfg, t);
      var rest := Chunks(data[n..], cfg, t);
      ChunksMemoryless(data[n..], cfg, t, i - 1);
      assert cs[..i] == [data[..n]] + rest[..i - 1] && cs[i..] == rest[i - 1..];
      ConcatFirst(data[..n], rest[..i - 1]);
      Further(data, n, |Concat(rest[..i - 1])|);
    }
  }

  lemma NoneJoined()
    ensures Concat([]) == []
  {
  }

  lemma FirstOfChunks(data: seq<byte>, cfg: Config, t: Table) returns (n: nat)
    requires Sane(cfg) && |Chunks(data, cfg, t)| > 0
    ensures 0 < n <= |data| && Chunks(data, cfg, t) == [data[..n]] + Chunks(data[n..], cfg, t)
  {
    hide FirstChunk;
    n := FirstChunk(data, cfg, t);
  }

  lemma ConcatFirst(c: seq<byte>, cs: seq<seq<byte>>)
    ensures Concat([c] + cs) == c + Concat(cs)
  {
    assert ([c] + cs)[1..] == cs;
  }

  lemma Further(data: seq<byte>, n: nat, at: nat)
    requires n + at <= |data|
    ensures data[n..][at..] == data[n + at..] && data[..n + at] == data[..n] + data[n..][..at]
  {
  }

  /** The same, told from the outside: if a boundary of a + b falls between
      them, the chunks after it are the chunks of b. */
  lemma SuffixChunks(a: seq<byte>, b: seq<byte>, cfg: Config, t: Table, i: nat)
    requires Sane(cfg) && i <= |Chunks(a + b, cfg, t)|
    requires |Concat(Chunks(a + b, cfg, t)[..i])| == |a|
    ensures Chunks(a + b, cfg, t)[i..] == Chunks(b, cfg, t)
    ensures Concat(Chunks(a + b, cfg, t)[..i]) == a
  {
    ChunksMemoryless(a + b, cfg, t, i);
    assert (a + b)[|a|..] == b && (a + b)[..|a|] == a;
  }

  // ----------------------------------------------------------------- methods

  /** The `n`-th state of the linear congruential generator. */
  function TableState(n: nat): bv32 {
    if n == 0 then 0x12345678 else NextState(TableState(n - 1))
  }

  function NextState(state: bv32): bv32 {
    state * 1664525 + 1013904223
  }

  /** The pseudo-random byte table: the states after the seed. */
  method InitTable() returns (t: seq<bv32>)
    ensures |t| == 256 && forall b: byte :: t[b] == TableState(b + 1)
  {
    hide NextState;
    t := [];
    var state: bv32 := 0x12345678;
    for i := 0 to 256
      invariant |t| == i && state == TableState(i) && forall b :: 0 <= b < i ==> t[b] == TableState(b + 1)
    {
      state := NextState(state);
      t := t + [state];
    }
  }

  /** `chunk`. */
  method SplitChunks(data: seq<byte>, cfg: Config, t: Table) returns (chunks: seq<seq<byte>>)
    requires Sane(cfg)
    ensures chunks == Chunks(data, cfg, t)
  {
    hide FirstChunk;
    chunks := [];
    var pos := 0;
    assert data[0..] == data;
    while pos < |data|
      invariant 0 <= pos <= |data|
      invariant chunks + Chunks(data[pos..], cfg, t) == Chunks(data, cfg, t)
      decreases |data| - pos
    {
      var n := NextLength(data, pos, cfg, t);
      assert data[pos..][..n] == data[pos..pos + n];
      assert data[pos..][n..] == data[pos + n..];
      chunks := chunks + [data[pos..pos + n]];
      pos := pos + n;
    }
  }

  method NextLength(data: seq<byte>, pos: nat, cfg: Config, t: Table) returns (n: nat)
    requires Sane(cfg) && pos < |data|
    ensures n == FirstChunk(data[pos..], cfg, t)
  {
    hide Roll, Boundary, InitHash;
    ghost var rest := data[pos..];
    var remaining := |data| - pos;
    if remaining <= cfg.min { return remaining; }
    var hash := WindowHash(data, pos, pos + cfg.min, t);
    var limit := Min(remaining, cfg.max);
    var i := cfg.min;
    while i < limit
      invariant cfg.min <= i <= limit
      invariant Scan(rest, cfg, t, hash, i, limit) == FirstChunk(rest, cfg, t)
    {
      if Boundary(hash, cfg) { return i; }
      assert rest[i] == data[pos + i] && ByteAt(rest, i + WINDOW) == ByteAt(data, pos + i + WINDOW);
      hash := Roll(t, hash, data[pos + i], ByteAt(data, pos + i + WINDOW));
      i := i + 1;
    }
    n := limit;
  }

  method WindowHash(data: seq<byte>, pos: nat, start: nat, t: Table) returns (hash: bv32)
    requires pos <= start <= |data|
    ensures hash == InitHash(data[pos..], t, start - pos, WINDOW)
  {
    hide AddByte;
    hash := 0;
    ghost var rest := data[pos..];
    var w := 0;
    while w < WINDOW && start + w < |data|
      invariant 0 <= w <= WINDOW
      invariant hash == InitHash(rest, t, start - pos, w)
    {
      assert rest[start - pos + w] == data[start + w];
      hash := AddByte(hash, t, data[start + w], w);
      w := w + 1;
    }
    InitHashStops(rest, t, start - pos, w, WINDOW);
  }

  lemma {:induction false} InitHashStops(data: seq<byte>, t: Table, at: nat, w: nat, n: nat)
    requires at <= |data| && w <= n <= WINDOW && (w < n ==> at + w >= |data|)
    ensures InitHash(data, t, at, n) == InitHash(data, t, at, w)
    decreases n
  {
    if w < n { InitHashStops(data, t, at, w, n - 1); }
  }
}
