/** The whole engine, from bytes to container and back (src/memalgo.cpp). */
module Engine {
  // Chunk, deduplicate, build the genome, run the stages, fill the container; and
  // the way back (183-401).

  import opened Bytes
  import opened CellFiles
  import opened ChunkPipeline
  import opened Dedup
  import opened PatternCodec
  import Chunker
  import Crc32
  import Workers

  type ContentHash = h: Hash128 | h.low < U64 && h.high < U64
    witness Hash128(0, 0)

  type ShortPattern = c: Candidate | |c.pattern| <= MAX_PATTERN
    witness Candidate([], 0)

  /** Everything the result may depend on besides the data: hashes, tables,
      entropy estimates and the order in which patterns are considered. */
  datatype Environment = Environment(
    rolling: Chunker.Table,
    contentHash: seq<byte> -> ContentHash,
    candidates: seq<byte> -> seq<ShortPattern>,
    oracle: Oracle)

  // -------------------------------------------------------------- compressing

  function HashAll(pieces: seq<seq<byte>>, env: Environment): (cs: seq<Chunk>)
    ensures |cs| == |pieces|
  {
    seq(|pieces|, i requires 0 <= i < |pieces| => Chunk(pieces[i], env.contentHash(pieces[i])))
  }

  function ChunksOf(data: seq<byte>, env: Environment): seq<Chunk> {
    HashAll(Chunker.Chunks(data, Chunker.Default, env.rolling), env)
  }

  /** One pattern genome for all unique chunks together. */
  function GenomeOf(unique: seq<Chunk>, stages: byte, env: Environment): Genome {
    var all := Chunker.Concat(Datas(unique));
    if Has(stages, STAGE_PATTERN) then BuildGenome(all, env.candidates(all)) else NoGenome
  }

  function CompressAll(unique: seq<Chunk>, stages: byte, g: Genome, o: Oracle): (out: seq<seq<byte>>)
    ensures |out| == |unique|
  {
    seq(|unique|, i requires 0 <= i < |unique| => CompressChunk(unique[i].data, stages, g, o))
  }

  function SizeOf(cs: seq<seq<byte>>): nat
  {
    if |cs| == 0 then 0 else SizeOf(cs[..|cs| - 1]) + |cs[|cs| - 1]|
  }

  /** The chunk map: hash, running offset, stored and original size. */
  function MapOf(unique: seq<Chunk>, stored: seq<seq<byte>>): (m: seq<MapEntry>)
    requires |unique| == |stored|
    ensures |m| == |unique|
  {
    seq(|unique|, i requires 0 <= i < |unique| =>
      MapEntry(unique[i].hash, SizeOf(stored[..i]), |stored[i]| % U32, |unique[i].data| % U32))
  }

  function Bit(on: bool, value: byte): nat {
    if on then value else 0
  }

  function FlagsOf(stages: byte, genome: bool): (f: byte)
    ensures HasGenome(f) <==> genome
  {
    Bit(genome, 1) + Bit(Has(stages, STAGE_DELTA), 2) + Bit(Has(stages, STAGE_DEDUP), 4)
    + Bit(Has(stages, STAGE_SHUFFLE), 8) + Bit(Has(stages, STAGE_BITPACK), 16)
  }

  /** The payload checksum, updated chunk by chunk. */
  function PayloadCrc(cs: seq<seq<byte>>): bv32
  {
    if |cs| == 0 then 0 else Crc32.Update(PayloadCrc(cs[..|cs| - 1]), cs[|cs| - 1])
  }

  function Word(c: bv32): (n: nat)
    ensures n < U32
  {
    c as int
  }

  /** The container of a non-empty input, whose chunks were deduplicated to `r`. */
  function Container(data: seq<byte>, r: Result, stages: byte, env: Environment): CellFile {
    var g := GenomeOf(r.unique, stages, env);
    BuiltUsable(r.unique, stages, env);
    var stored := CompressAll(r.unique, stages, g, env.oracle);
    var h := Header(VERSION_2, FlagsOf(stages, |g.entries| > 0), stages, |data| % U64, SizeOf(stored) % U64,
                    |r.refs| % U32, |r.unique| % U32, |PatternCodec.Serialize(g)| % U32, Word(Crc32.Crc(data)));
    CellFile(h, g, r.refs, MapOf(r.unique, stored), stored, Word(PayloadCrc(stored)))
  }

  lemma BuiltUsable(unique: seq<Chunk>, stages: byte, env: Environment)
    ensures Usable(GenomeOf(unique, stages, env))
  {
    var all := Chunker.Concat(Datas(unique));
    hide BuildGenome, Chunker.Concat, Datas;
    BuiltGenomeUsable(all, env.candidates(all));
  }

  /** The container of the empty input: nothing but a header. */
  function EmptyContainer(stages: byte): CellFile {
    CellFile(Header(VERSION_2, 0, stages, 0, 0, 0, 0, 0, 0), NoGenome, [], [], [], 0)
  }

  /** `compress`, for any recommended stages. */
  function Compress(data: seq<byte>, stages: byte, env: Environment): seq<byte> {
    if |data| == 0 then CellFiles.Serialize(EmptyContainer(stages))
    else
      var r := Deduplicated(ChunksOf(data, env));
      BuiltUsable(r.unique, stages, env);
      CellFiles.Serialize(Container(data, r, stages, env))
  }

  // ------------------------------------------------------------ decompressing

  datatype Outcome = Refused(error: Error) | CrcMismatch | Restored(data: seq<byte>)

  /** The referenced chunks in order; a reference to no chunk is skipped. */
  function Gather(refs: seq<nat>, chunks: seq<seq<byte>>): seq<byte>
  {
    if |refs| == 0 then []
    else
      var last := refs[|refs| - 1];
      Gather(refs[..|refs| - 1], chunks) + if last < |chunks| then chunks[last] else []
  }

  function Check(out: seq<byte>, crc: nat): Outcome {
    if Word(Crc32.Crc(out)) != crc then CrcMismatch else Restored(out)
  }

  /** `decompress`, on any bytes and any number of hardware threads. */
  function Decompress(d: seq<byte>, hardware: nat): Outcome {
    var r := CellFiles.Deserialize(d);
    if r.Fail? then Refused(r.error)
    else if r.value.header.originalSize == 0 then Restored([])
    else
      var cf := r.value;
      var undo := c => DecompressChunk(c, cf.header.pipeline, cf.genome);
      Check(Gather(cf.refs, Workers.Results(cf.chunks, undo, hardware)), cf.header.crc)
  }

  // --------------------------------------------------------------- round trip

  lemma {:induction false} SizeBound(cs: seq<seq<byte>>, max: nat)
    requires forall i :: 0 <= i < |cs| ==> |cs[i]| <= max
    ensures SizeOf(cs) <= |cs| * max
  {
    if |cs| > 0 {
      SizeBound(cs[..|cs| - 1], max);
      MulDistributes(max, |cs| - 1, 1);
    }
  }

  lemma {:induction false} GenomeSize(es: seq<PatternCodec.Entry>)
    requires forall e :: e in es ==> |e.pattern| <= MAX_PATTERN
    ensures |EntriesBytes(es)| <= 10 * |es|
  {
    if |es| > 0 { GenomeSize(es[1..]); }
  }

  /** The payload checksum is the checksum of the whole payload. */
  lemma {:induction false} PayloadCrcIsWhole(cs: seq<seq<byte>>)
    ensures PayloadCrc(cs) == Crc32.Crc(Chunker.Concat(cs))
  {
    hide Crc32.Update;
    if |cs| == 0 {
      Crc32.NotNot(0);
      EmptyUpdate();
    } else {
      var n := |cs| - 1;
      PayloadCrcIsWhole(cs[..n]);
      assert cs == cs[..n] + [cs[n]];
      Chunker.ConcatAppend(cs[..n], [cs[n]]);
      assert Chunker.Concat([cs[n]]) == cs[n] by { Unit(cs[n]); }
      Crc32.UpdateAppend(0, Chunker.Concat(cs[..n]), cs[n]);
    }
  }

  lemma EmptyUpdate()
    ensures Crc32.Update(0, []) == 0
  {
    Crc32.NotNot(0);
  }

  /** The largest input whose chunk count, plus the worker threads, stays within
      the 32-bit counters. */
  predicate Fits(data: seq<byte>, hardware: nat) {
    |data| <= (U32 - 1 - hardware) * 1024
  }

  /** The chunks, and what deduplication makes of them, fit the container. */
  lemma ChunkFacts(data: seq<byte>, env: Environment)
    requires |data| > 0
    ensures var cs := ChunksOf(data, env);
            && Chunker.Concat(Datas(cs)) == data
            && (|cs| - 1) * 1024 < |data|
            && (forall i :: 0 <= i < |cs| ==> |cs[i].data| <= 16384 && cs[i].hash == env.contentHash(cs[i].data))
  {
    hide Chunker.Chunks, Chunker.Concat;
    var pieces := Chunker.Chunks(data, Chunker.Default, env.rolling);
    Chunker.ChunksPartition(data, Chunker.Default, env.rolling);
    Chunker.ChunkCount(data, Chunker.Default, env.rolling);
    assert Datas(ChunksOf(data, env)) == pieces;
  }

  /** What the container needs to know about a deduplication result. */
  ghost predicate Bounded(r: Result) {
    && |r.unique| <= |r.refs| < U32
    && (forall i :: 0 <= i < |r.refs| ==> r.refs[i] < |r.unique|)
    && (forall u :: 0 <= u < |r.unique| ==> |r.unique[u].data| <= 16384 && r.unique[u].hash.low < U64 && r.unique[u].hash.high < U64)
  }

  lemma DedupFacts(cs: seq<Chunk>, env: Environment)
    requires |cs| < U32
    requires forall i :: 0 <= i < |cs| ==> |cs[i].data| <= 16384 && cs[i].hash == env.contentHash(cs[i].data)
    ensures Bounded(Deduplicated(cs)) && |Deduplicated(cs).refs| == |cs|
  {
    hide Deduplicated;
    var r := Deduplicated(cs);
    RefsInRange(cs);
    DedupLinks(cs);
    DedupConserves(cs);
    forall u | 0 <= u < |r.unique|
      ensures |r.unique[u].data| <= 16384 && r.unique[u].hash.low < U64 && r.unique[u].hash.high < U64
    {
      assert CameFrom(cs, r, u);
      var i :| 0 <= i < |cs| && cs[i] == r.unique[u] && r.refs[i] == u;
      assert r.unique[u].hash == env.contentHash(cs[i].data);
    }
  }

  /** The container as it is read back: an unused genome is not stored. */
  function Stored(cf: CellFile): CellFile {
    if HasGenome(cf.header.flags) then cf else cf.(genome := NoGenome)
  }

  lemma StoredSame(cf: CellFile)
    requires Usable(cf.genome)
    ensures Usable(Stored(cf).genome) && CellFiles.Serialize(Stored(cf)) == CellFiles.Serialize(cf)
  {
    hide PatternCodec.Serialize, HeaderBytes, RefsFrom, MapBytes, ChunkBytes, LE;
  }

  lemma StoredChunks(r: Result, stages: byte, g: Genome, o: Oracle)
    requires Bounded(r) && Usable(g)
    ensures forall u :: 0 <= u < |r.unique| ==>
              var c := CompressAll(r.unique, stages, g, o)[u];
              |c| <= 16392 && DecompressChunk(c, stages, g) == r.unique[u].data
  {
    hide CompressChunk, DecompressChunk, Usable;
    forall u | 0 <= u < |r.unique|
      ensures var c := CompressAll(r.unique, stages, g, o)[u];
              |c| <= 16392 && DecompressChunk(c, stages, g) == r.unique[u].data
    {
      ChunkRoundTrip(r.unique[u].data, stages, g, o);
    }
  }

  lemma EntriesFit(r: Result, stored: seq<seq<byte>>)
    requires Bounded(r) && |stored| == |r.unique| && forall u :: 0 <= u < |stored| ==> |stored[u]| <= 16392
    ensures forall u :: 0 <= u < |stored| ==>
              EntryFits(MapOf(r.unique, stored)[u]) && MapOf(r.unique, stored)[u].compressedSize == |stored[u]|
    ensures SizeOf(stored) < U64
  {
    hide SizeOf;
    forall i | 0 <= i <= |stored| ensures SizeOf(stored[..i]) < U64 {
      SizeBound(stored[..i], 16392);
      MulLe(16392, i, U32);
    }
    assert stored[..|stored|] == stored;
  }

  /** The container of an input within bounds is well formed, so it round-trips. */
  lemma ContainerWellFormed(data: seq<byte>, r: Result, stages: byte, env: Environment)
    requires 0 < |data| < U64 && Bounded(r)
    ensures WellFormed(Stored(Container(data, r, stages, env)))
    ensures Container(data, r, stages, env).header.originalSize == |data|
  {
    hide CompressAll, MapOf, SizeOf, Crc32.Crc, PayloadCrc, GenomeOf, EntriesBytes, LE, EntryFits, Word;
    BuiltUsable(r.unique, stages, env);
    var g := GenomeOf(r.unique, stages, env);
    var stored := CompressAll(r.unique, stages, g, env.oracle);
    StoredChunks(r, stages, g, env.oracle);
    EntriesFit(r, stored);
    GenomeSize(g.entries);
  }

  lemma {:induction false} PayloadSize(cs: seq<seq<byte>>)
    ensures |Chunker.Concat(cs)| == SizeOf(cs)
  {
    if |cs| > 0 {
      var n := |cs| - 1;
      PayloadSize(cs[..n]);
      assert cs == cs[..n] + [cs[n]];
      Chunker.ConcatAppend(cs[..n], [cs[n]]);
      assert Chunker.Concat([cs[n]]) == cs[n] by { Unit(cs[n]); }
    }
  }

  /** Chunk `u` of a payload starts where those before it end. */
  lemma ChunkAt(cs: seq<seq<byte>>, u: nat)
    requires u < |cs|
    ensures var payload, at := Chunker.Concat(cs), SizeOf(cs[..u]);
            at + |cs[u]| <= |payload| && payload[at..at + |cs[u]|] == cs[u]
  {
    hide Chunker.Concat, SizeOf;
    var before, after := cs[..u], cs[u + 1..];
    assert cs == before + ([cs[u]] + after);
    Chunker.ConcatAppend(before, [cs[u]] + after);
    Chunker.ConcatAppend([cs[u]], after);
    OneChunk(cs[u]);
    PayloadSize(before);
    Inside(Chunker.Concat(before), cs[u], Chunker.Concat(after));
  }

  lemma OneChunk(c: seq<byte>)
    ensures Chunker.Concat([c]) == c
  {
    Unit(c);
  }

  lemma Inside(a: seq<byte>, b: seq<byte>, c: seq<byte>)
    ensures (a + (b + c))[|a|..|a| + |b|] == b
  {
  }

  /** An entry of the map finds its chunk in the payload, and gives the hash and the
      length of its original. */
  ghost predicate Finds(e: MapEntry, payload: seq<byte>, stored: seq<byte>, original: Chunk) {
    && e.hash == original.hash && e.originalSize == |original.data|
    && e.offset + e.compressedSize <= |payload| && payload[e.offset..e.offset + e.compressedSize] == stored
  }

  lemma MapFinds(r: Result, stored: seq<seq<byte>>, u: nat)
    requires Bounded(r) && |stored| == |r.unique| && u < |stored| && |stored[u]| < U32
    ensures Finds(MapOf(r.unique, stored)[u], Chunker.Concat(stored), stored[u], r.unique[u])
  {
    hide Chunker.Concat, SizeOf;
    ChunkAt(stored, u);
    assert |r.unique[u].data| <= 16384;
  }

  /** What the container says of itself is true: the map finds every stored chunk in the
      payload, the sizes are those of the input and the payload, and the checksums are
      theirs. */
  lemma ContainerDescribes(data: seq<byte>, r: Result, stages: byte, env: Environment)
    requires 0 < |data| < U64 && Bounded(r)
    ensures var cf := Container(data, r, stages, env);
            var payload := Chunker.Concat(cf.chunks);
            && cf.header.originalSize == |data| && cf.header.payloadSize == |payload|
            && cf.header.chunkCount == |r.refs| && cf.header.uniqueCount == |cf.chunks| == |cf.chunkMap| == |r.unique|
            && cf.header.crc == Word(Crc32.Crc(data)) && cf.payloadCrc == Word(Crc32.Crc(payload))
            && forall u :: 0 <= u < |r.unique| ==> Finds(cf.chunkMap[u], payload, cf.chunks[u], r.unique[u])
  {
    hide CompressAll, MapOf, SizeOf, Crc32.Crc, PayloadCrc, GenomeOf, EntriesBytes, Chunker.Concat, Word, Finds,
         FlagsOf, PatternCodec.Serialize;
    BuiltUsable(r.unique, stages, env);
    var g := GenomeOf(r.unique, stages, env);
    var stored := CompressAll(r.unique, stages, g, env.oracle);
    StoredChunks(r, stages, g, env.oracle);
    EntriesFit(r, stored);
    PayloadCrcIsWhole(stored);
    PayloadSize(stored);
    forall u | 0 <= u < |stored|
      ensures Finds(MapOf(r.unique, stored)[u], Chunker.Concat(stored), stored[u], r.unique[u])
    {
      MapFinds(r, stored, u);
    }
  }

  lemma {:induction false} GatherRestores(r: Result, chunks: seq<seq<byte>>, n: nat)
    requires n <= |r.refs| && (forall i :: 0 <= i < |r.refs| ==> r.refs[i] < |r.unique|)
    requires |chunks| == |r.unique| && forall u :: 0 <= u < |chunks| ==> chunks[u] == r.unique[u].data
    ensures Gather(r.refs[..n], chunks) == Chunker.Concat(Dedup.Restored(r)[..n])
  {
    if n > 0 {
      GatherRestores(r, chunks, n - 1);
      assert r.refs[..n][..n - 1] == r.refs[..n - 1];
      var all := Dedup.Restored(r);
      assert all[..n] == all[..n - 1] + [all[n - 1]];
      Chunker.ConcatAppend(all[..n - 1], [all[n - 1]]);
      assert Chunker.Concat([all[n - 1]]) == all[n - 1] by { Unit(all[n - 1]); }
    }
  }

  /** Decoding the stored chunks and putting them in order gives what
      deduplication restores. */
  lemma DecodedChunks(r: Result, stages: byte, g: Genome, o: Oracle, kept: Genome, hardware: nat)
    requires Bounded(r) && Usable(g) && |r.unique| + hardware < U32
    requires kept == g || (|g.entries| == 0 && |kept.entries| == 0)
    ensures Gather(r.refs, Workers.Results(CompressAll(r.unique, stages, g, o), c => DecompressChunk(c, stages, kept), hardware))
            == Chunker.Concat(Dedup.Restored(r))
  {
    var f := c => DecompressChunk(c, stages, kept);
    var stored := CompressAll(r.unique, stages, g, o);
    StoredChunks(r, stages, g, o);
    hide CompressAll, CompressChunk, Chunker.Concat, Gather, Dedup.Restored, Usable;
    var results := Workers.Results(stored, f, hardware);
    forall u | 0 <= u < |r.unique| ensures results[u] == r.unique[u].data {
      UnusedGenome(stored[u], stages, g, kept);
    }
    GatherRestores(r, results, |r.refs|);
    assert r.refs[..|r.refs|] == r.refs && Dedup.Restored(r)[..|r.refs|] == Dedup.Restored(r);
  }

  lemma UnusedGenome(d: seq<byte>, stages: byte, g: Genome, kept: Genome)
    requires kept == g || (|g.entries| == 0 && |kept.entries| == 0)
    ensures DecompressChunk(d, stages, kept) == DecompressChunk(d, stages, g)
  {
    hide FromEntropy, FromLz, FromShuffle, FromPack, PatternCodec.Decode;
  }

  /** What decompression makes of compressed data, whatever the content hash:
      the deduplicated chunks put back in order, if their checksum agrees. */
  lemma EngineOutcome(data: seq<byte>, stages: byte, env: Environment, hardware: nat)
    requires |data| > 0 && hardware < U32 && Fits(data, hardware)
    ensures |Deduplicated(ChunksOf(data, env)).refs| == |ChunksOf(data, env)|
            && Bounded(Deduplicated(ChunksOf(data, env)))
    ensures Decompress(Compress(data, stages, env), hardware)
            == Check(Chunker.Concat(Dedup.Restored(Deduplicated(ChunksOf(data, env)))), Word(Crc32.Crc(data)))
  {
    hide Deduplicated, Crc32.Crc, Chunker.Concat, CellFiles.Serialize, CellFiles.Deserialize, WellFormed, Gather,
      Workers.Results, MapOf, CompressAll, DecompressChunk, GenomeOf, ChunksOf, Dedup.Restored, Word, Usable;
    var cs := ChunksOf(data, env);
    ChunkFacts(data, env);
    CountFits(|cs|, |data|, hardware);
    DedupFacts(cs, env);
    var r := Deduplicated(cs);
    var cf := Container(data, r, stages, env);
    BuiltUsable(r.unique, stages, env);
    ContainerWellFormed(data, r, stages, env);
    StoredSame(cf);
    ContainerRoundTrip(Stored(cf));
    DecodedChunks(r, stages, cf.genome, env.oracle, Stored(cf).genome, hardware);
  }

  lemma CountFits(n: nat, len: nat, hardware: nat)
    requires (n - 1) * 1024 < len <= (U32 - 1 - hardware) * 1024
    ensures n + hardware < U32 && len < U64
  {
  }

  /** Decompression undoes compression, for every input, stage byte, hash table,
      genome and number of threads, if no two of the chunks present collide. */
  lemma EngineRoundTrip(data: seq<byte>, stages: byte, env: Environment, hardware: nat)
    requires hardware < U32 && Fits(data, hardware) && CollisionFree(ChunksOf(data, env))
    ensures Decompress(Compress(data, stages, env), hardware) == Restored(data)
  {
    hide Deduplicated, Crc32.Crc, Chunker.Concat, CellFiles.Serialize, CellFiles.Deserialize, ChunksOf, CollisionFree,
      Gather, Workers.Results, DecompressChunk, Dedup.Restored, Container;
    if |data| == 0 {
      EmptyRoundTrip(stages, hardware);
    } else {
      EngineOutcome(data, stages, env, hardware);
      RestoreIffCollisionFree(ChunksOf(data, env));
      ChunkFacts(data, env);
    }
  }

  lemma EmptyRoundTrip(stages: byte, hardware: nat)
    ensures Decompress(CellFiles.Serialize(EmptyContainer(stages)), hardware) == Restored([])
  {
    hide CellFiles.Serialize, CellFiles.Deserialize;
    ContainerRoundTrip(EmptyContainer(stages));
  }

  /** Whatever the hash does, a successful decompression returns the data, or
      bytes with the same CRC-32: a collision is never silent. */
  lemma CollisionsAreCaught(data: seq<byte>, stages: byte, env: Environment, hardware: nat)
    requires hardware < U32 && Fits(data, hardware)
    ensures var out := Decompress(Compress(data, stages, env), hardware);
            out.CrcMismatch? || (out.Restored? && Crc32.Crc(out.data) == Crc32.Crc(data))
  {
    hide Deduplicated, Crc32.Crc, Chunker.Concat, Compress, Decompress, ChunksOf, Dedup.Restored;
    if |data| == 0 {
      EmptyCompress(data, stages, env, hardware);
    } else {
      EngineOutcome(data, stages, env, hardware);
      var out := Chunker.Concat(Dedup.Restored(Deduplicated(ChunksOf(data, env))));
      if Word(Crc32.Crc(out)) == Word(Crc32.Crc(data)) { WordInjective(Crc32.Crc(out), Crc32.Crc(data)); }
    }
  }

  lemma EmptyCompress(data: seq<byte>, stages: byte, env: Environment, hardware: nat)
    requires |data| == 0
    ensures Decompress(Compress(data, stages, env), hardware) == Restored(data)
  {
    hide CellFiles.Serialize, CellFiles.Deserialize, Container;
    EmptyRoundTrip(stages, hardware);
  }

  lemma WordInjective(a: bv32, b: bv32)
    requires Word(a) == Word(b)
    ensures a == b
  {
    Crc32.IntRoundTrip(a);
    Crc32.IntRoundTrip(b);
  }

  // ----------------------------------------------------------------- methods

  /** Chunking and hashing. */
  method SplitAndHash(data: seq<byte>, env: Environment) returns (cs: seq<Chunk>)
    ensures cs == ChunksOf(data, env)
  {
    hide Chunker.Chunks;
    var pieces := Chunker.SplitChunks(data, Chunker.Default, env.rolling);
    cs := [];
    for i := 0 to |pieces|
      invariant |cs| == i && forall k :: 0 <= k < i ==> cs[k] == Chunk(pieces[k], env.contentHash(pieces[k]))
    {
      cs := cs + [Chunk(pieces[i], env.contentHash(pieces[i]))];
    }
  }

  /** The genome, from all unique chunks end to end. */
  method BuildGenomeOf(unique: seq<Chunk>, stages: byte, env: Environment) returns (g: Genome)
    ensures g == GenomeOf(unique, stages, env) && Usable(g)
  {
    hide Usable, BuildGenome;
    BuiltUsable(unique, stages, env);
    if !Has(stages, STAGE_PATTERN) { return NoGenome; }
    var all: seq<byte> := [];
    ghost var pieces := Datas(unique);
    assert pieces[0..] == pieces;
    for i := 0 to |unique|
      invariant all + Chunker.Concat(pieces[i..]) == Chunker.Concat(pieces)
    {
      assert pieces[i..][1..] == pieces[i + 1..];
      Assoc(all, unique[i].data, Chunker.Concat(pieces[i + 1..]));
      all := all + unique[i].data;
    }
    Unit(all);
    var cs := env.candidates(all);
    g := SelectGenome(all, cs);
  }

  /** Every unique chunk through the stages. */
  method CompressUnique(unique: seq<Chunk>, stages: byte, g: Genome, o: Oracle) returns (stored: seq<seq<byte>>)
    requires Usable(g) && forall i :: 0 <= i < |unique| ==> |unique[i].data| <= 16384
    ensures stored == CompressAll(unique, stages, g, o)
  {
    hide CompressChunk, Usable;
    stored := [];
    for i := 0 to |unique|
      invariant |stored| == i && forall k :: 0 <= k < i ==> stored[k] == CompressChunk(unique[k].data, stages, g, o)
    {
      var c := RunStages(unique[i].data, stages, g, o);
      stored := stored + [c];
    }
  }

  /** The chunk map with its running offset, and the payload size. */
  method BuildMap(unique: seq<Chunk>, stored: seq<seq<byte>>) returns (m: seq<MapEntry>, size: nat)
    requires |unique| == |stored|
    ensures m == MapOf(unique, stored) && size == SizeOf(stored)
  {
    m, size := [], 0;
    for i := 0 to |unique|
      invariant |m| == i && size == SizeOf(stored[..i])
      invariant forall k :: 0 <= k < i ==> m[k] == MapOf(unique, stored)[k]
    {
      assert stored[..i + 1][..i] == stored[..i];
      m := m + [MapEntry(unique[i].hash, size, |stored[i]| % U32, |unique[i].data| % U32)];
      size := size + |stored[i]|;
    }
    assert stored[..|stored|] == stored;
  }

  method ChecksumPayload(stored: seq<seq<byte>>) returns (crc: bv32)
    ensures crc == PayloadCrc(stored) && crc == Crc32.Crc(Chunker.Concat(stored))
  {
    hide Crc32.Update, Crc32.Crc, Chunker.Concat;
    crc := 0;
    for i := 0 to |stored|
      invariant crc == PayloadCrc(stored[..i])
    {
      assert stored[..i + 1][..i] == stored[..i];
      crc := Crc32.UpdateCrc(crc, stored[i]);
    }
    assert stored[..|stored|] == stored;
    PayloadCrcIsWhole(stored);
  }

  /** `compress`. */
  method CompressFile(data: seq<byte>, stages: byte, env: Environment) returns (out: seq<byte>)
    ensures out == Compress(data, stages, env)
  {
    hide ChunksOf, Deduplicated, GenomeOf, CompressAll, MapOf, SizeOf, PayloadCrc, CellFiles.Serialize, Crc32.Update,
      Crc32.Crc, Chunker.Concat, PatternCodec.Serialize, CameFrom, Linked, Word;
    if |data| == 0 {
      out := SerializeFile(EmptyContainer(stages));
      return;
    }
    var cs := SplitAndHash(data, env);
    var r := Deduplicate(cs);
    ChunkFacts(data, env);
    UniqueSmall(cs);
    RefsInRange(cs);
    var g := BuildGenomeOf(r.unique, stages, env);
    var stored := CompressUnique(r.unique, stages, g, env.oracle);
    var flags := FlagsOf(stages, |g.entries| > 0);
    var original := Crc32.UpdateCrc(0, data);
    assert original == Crc32.Crc(data) by { CrcIsUpdate(data); }
    var entries, size := BuildMap(r.unique, stored);
    var payload := ChecksumPayload(stored);
    var h := Header(VERSION_2, flags, stages, |data| % U64, size % U64, |cs| % U32, |r.unique| % U32,
                    |PatternCodec.Serialize(g)| % U32, Word(original));
    out := SerializeFile(CellFile(h, g, r.refs, entries, stored, Word(payload)));
  }

  lemma CrcIsUpdate(data: seq<byte>)
    ensures Crc32.Crc(data) == Crc32.Update(0, data)
  {
  }

  lemma UniqueSmall(cs: seq<Chunk>)
    requires forall i :: 0 <= i < |cs| ==> |cs[i].data| <= 16384
    ensures forall u :: 0 <= u < |Deduplicated(cs).unique| ==> |Deduplicated(cs).unique[u].data| <= 16384
  {
    hide Deduplicated, Linked;
    DedupLinks(cs);
    var r := Deduplicated(cs);
    RefsInRange(cs);
    forall u | 0 <= u < |r.unique| ensures |r.unique[u].data| <= 16384 {
      assert CameFrom(cs, r, u);
    }
  }

  /** `decompress`. */
  method DecompressFile(d: seq<byte>, hardware: nat) returns (out: Outcome)
    ensures out == Decompress(d, hardware)
  {
    hide CellFiles.Deserialize, Workers.Results, DecompressChunk, Crc32.Update, Word;
    var r := DeserializeFile(d);
    if r.Fail? { return Refused(r.error); }
    if r.value.header.originalSize == 0 { return Restored([]); }
    var cf := r.value;
    ReadCounts(d);
    var undo := c => DecompressChunk(c, cf.header.pipeline, cf.genome);
    var chunks := Workers.RunWorkers(cf.chunks, undo, hardware);
    var output: seq<byte> := [];
    for i := 0 to |cf.refs|
      invariant output == Gather(cf.refs[..i], chunks)
    {
      assert cf.refs[..i + 1][..i] == cf.refs[..i];
      if cf.refs[i] < |chunks| { output := output + chunks[cf.refs[i]]; }
    }
    assert cf.refs[..|cf.refs|] == cf.refs;
    var crc := Crc32.UpdateCrc(0, output);
    if Word(crc) != cf.header.crc { return CrcMismatch; }
    out := Restored(output);
  }

  /** The chunk counts read from a header are 32-bit numbers. */
  lemma ReadCounts(d: seq<byte>)
    requires CellFiles.Deserialize(d).Got?
    ensures |CellFiles.Deserialize(d).value.chunks| < U32
  {
    hide ReadGenome, ReadRefs, ReadMap, ReadChunks, ReadUint, ReadHeader;
    var h := ReadHeader(d).value;
    var p1 := ReadGenome(d, ReadHeader(d).pos, h).pos;
    var p2 := ReadRefs(d, p1, h.chunkCount).pos;
    var es := ReadMap(d, p2, h.uniqueCount);
    ReadMapLength(d, p2, h.uniqueCount);
    ReadChunksLength(d, es.pos, es.value);
    HeaderCounts(d);
  }

  lemma HeaderCounts(d: seq<byte>)
    requires ReadHeader(d).Got?
    ensures ReadHeader(d).value.uniqueCount < U32
  {
    hide FromLE;
    PowValues();
    FromLEBound(d[28..32]);
  }

  lemma {:induction false} ReadMapLength(d: seq<byte>, pos: nat, n: nat)
    requires ReadMap(d, pos, n).Got?
    ensures |ReadMap(d, pos, n).value| == n
    decreases n
  {
    hide ReadEntry;
    if n > 0 { ReadMapLength(d, ReadEntry(d, pos).pos, n - 1); }
  }

  lemma {:induction false} ReadChunksLength(d: seq<byte>, pos: nat, es: seq<MapEntry>)
    requires ReadChunks(d, pos, es).Got?
    ensures |ReadChunks(d, pos, es).value| == |es|
    decreases |es|
  {
    if |es| > 0 { ReadChunksLength(d, pos + es[0].compressedSize, es[1..]); }
  }
}
