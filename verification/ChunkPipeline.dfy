/** One chunk through the stages and back. */
module ChunkPipeline {
  // Bit packing, byte shuffle, pattern genome, LZ, entropy (src/memalgo.cpp:26-174).

  import opened Bytes
  import opened PatternCodec
  import BitPacker
  import Entropy
  import EntropyCoder
  import Lz
  import LzCompressor
  import LzFormat
  import Shuffle

  const STAGE_DEDUP := 2
  const STAGE_PATTERN := 4
  const STAGE_DELTA := 8
  const STAGE_LZ := 16
  const STAGE_ENTROPY := 32
  const STAGE_SHUFFLE := 64
  const STAGE_BITPACK := 128

  predicate Has(stages: byte, stage: nat)
    requires 0 < stage
  {
    stages / stage % 2 == 1
  }

  type ElementSize = n: byte | n == 1 || n == 2 || n == 4 || n == 8
    witness 1

  /** What the stages consult: the element size guessed from entropies, and the
      lookup hash of the pattern codec. Nothing below depends on either. */
  datatype Oracle = Oracle(detect: seq<byte> -> ElementSize, patternHash: seq<byte> -> nat)

  // -------------------------------------------------------------- compressing

  /** A stage's output, and the metadata byte that tells the decoder about it. */
  datatype Staged = Staged(data: seq<byte>, mark: byte)

  function PackStage(data: seq<byte>, stages: byte): Staged {
    if Has(stages, STAGE_BITPACK) && |BitPacker.Pack(data)| < |data| then Staged(BitPacker.Pack(data), 1)
    else Staged(data, 0)
  }

  function ShuffleStage(data: seq<byte>, stages: byte, o: Oracle): Staged {
    if Has(stages, STAGE_SHUFFLE) then Staged(Shuffle.Shuffled(data, o.detect(data)), o.detect(data))
    else Staged(data, 1)
  }

  function PatternStage(data: seq<byte>, stages: byte, g: Genome, o: Oracle): Staged {
    if Has(stages, STAGE_PATTERN) && |g.entries| > 0 && |PatternCodec.Encode(g, o.patternHash, data)| < |data|
    then Staged(PatternCodec.Encode(g, o.patternHash, data), 1)
    else Staged(data, 0)
  }

  function LzStage(data: seq<byte>, stages: byte): seq<byte> {
    if !Has(stages, STAGE_LZ) then data
    else if |LzFormat.Compressed(data)| < |data| + 5 then LzFormat.Compressed(data)
    else [0, 0, 0, 0] + data
  }

  function EntropyStage(data: seq<byte>, stages: byte): seq<byte> {
    if !Has(stages, STAGE_ENTROPY) then data
    else if |Entropy.Encode(data)| < |data| then [1] + Entropy.Encode(data)
    else [0] + data
  }

  /** `compress_chunk`. */
  function CompressChunk(chunk: seq<byte>, stages: byte, g: Genome, o: Oracle): seq<byte> {
    var packed := PackStage(chunk, stages);
    var shuffled := ShuffleStage(packed.data, stages, o);
    var coded := PatternStage(shuffled.data, stages, g, o);
    [shuffled.mark, packed.mark, coded.mark] + EntropyStage(LzStage(coded.data, stages), stages)
  }

  // ------------------------------------------------------------ decompressing

  function FromEntropy(d: seq<byte>, stages: byte): seq<byte> {
    if !Has(stages, STAGE_ENTROPY) || |d| == 0 then d
    else if d[0] == 1 then Entropy.Decode(d[1..])
    else d[1..]
  }

  function FromLz(d: seq<byte>, stages: byte): seq<byte> {
    if !Has(stages, STAGE_LZ) || |d| < 4 then d
    else if FromLE(d[..4]) == 0 then d[4..]
    else LzFormat.Decompressed(d)
  }

  function FromPattern(d: seq<byte>, stages: byte, g: Genome, mark: byte): seq<byte> {
    if Has(stages, STAGE_PATTERN) && |g.entries| > 0 && mark == 1 then PatternCodec.Decode(g, d) else d
  }

  function FromShuffle(d: seq<byte>, stages: byte, mark: byte): seq<byte> {
    if Has(stages, STAGE_SHUFFLE) && mark > 1 then Shuffle.Unshuffled(d, mark) else d
  }

  function FromPack(d: seq<byte>, stages: byte, mark: byte): seq<byte> {
    if Has(stages, STAGE_BITPACK) && mark == 1 then BitPacker.Unpack(d) else d
  }

  /** `decompress_chunk`, on any bytes. A chunk too short for its metadata, or
      with nothing after it where an entropy flag is due, ends the work early. */
  function DecompressChunk(d: seq<byte>, stages: byte, g: Genome): seq<byte> {
    if |d| < 3 then d
    else if Has(stages, STAGE_ENTROPY) && |d| == 3 then []
    else
      FromPack(FromShuffle(FromPattern(FromLz(FromEntropy(d[3..], stages), stages), stages, g, d[2]), stages, d[0]),
        stages, d[1])
  }

  // --------------------------------------------------------------- round trip

  lemma PackInverts(data: seq<byte>, stages: byte)
    requires |data| < U32
    ensures var s := PackStage(data, stages); FromPack(s.data, stages, s.mark) == data && |s.data| <= |data|
    ensures Has(stages, STAGE_BITPACK) ==> |PackStage(data, stages).data| == Min(|BitPacker.Pack(data)|, |data|)
  {
    hide BitPacker.Pack, BitPacker.Unpack;
    BitPacker.BitPackRoundTrip(data);
  }

  lemma ShuffleInverts(data: seq<byte>, stages: byte, o: Oracle)
    ensures var s := ShuffleStage(data, stages, o); FromShuffle(s.data, stages, s.mark) == data && |s.data| == |data|
    ensures ShuffleStage(data, stages, o).mark == if Has(stages, STAGE_SHUFFLE) then o.detect(data) else 1
  {
    hide Shuffle.Unshuffled;
    var size := o.detect(data);
    Shuffle.ShuffleRoundTrip(data, size);
  }

  lemma PatternInverts(data: seq<byte>, stages: byte, g: Genome, o: Oracle)
    requires Usable(g)
    ensures var s := PatternStage(data, stages, g, o);
            FromPattern(s.data, stages, g, s.mark) == data && |s.data| <= |data|
    ensures Has(stages, STAGE_PATTERN) && |g.entries| > 0
            ==> |PatternStage(data, stages, g, o).data| == Min(|PatternCodec.Encode(g, o.patternHash, data)|, |data|)
  {
    hide PatternCodec.Encode, PatternCodec.Decode;
    PatternRoundTrip(g, o.patternHash, data);
  }

  /** The four zero bytes of "no LZ" cannot be the length field of LZ output: an
      empty chunk never counts as compressed. */
  lemma LzMarkerUnambiguous(data: seq<byte>, stages: byte)
    requires |data| < U32 && Has(stages, STAGE_LZ)
    ensures |LzStage(data, stages)| >= 4
    ensures FromLE(LzStage(data, stages)[..4]) == 0 <==> LzStage(data, stages) == [0, 0, 0, 0] + data
  {
    hide LE, FromLE, Lz.Tokens, LzFormat.Serialize;
    var out := LzFormat.Compressed(data);
    assert out[..4] == LE(|data|, 4);
    U32RoundTrip(|data|);
    ZeroMarker();
    assert ([0, 0, 0, 0] + data)[..4] == [0, 0, 0, 0];
  }

  lemma ZeroMarker()
    ensures FromLE([0, 0, 0, 0]) == 0
  {
    assert LE(0, 4) == [0, 0, 0, 0];
    U32RoundTrip(0);
  }

  lemma LzInverts(data: seq<byte>, stages: byte)
    requires |data| <= Lz.WINDOW
    ensures FromLz(LzStage(data, stages), stages) == data && |LzStage(data, stages)| <= |data| + 4
    ensures Has(stages, STAGE_LZ) ==> |LzStage(data, stages)| == Min(|LzFormat.Compressed(data)|, |data| + 4)
  {
    hide FromLE, LzFormat.Compressed, LzFormat.Decompressed;
    if Has(stages, STAGE_LZ) {
      LzMarkerUnambiguous(data, stages);
      LzFormat.LzRoundTrip(data);
      assert ([0, 0, 0, 0] + data)[4..] == data;
    }
  }

  lemma EntropyInverts(data: seq<byte>, stages: byte)
    requires |data| <= Entropy.MAX_INPUT
    ensures FromEntropy(EntropyStage(data, stages), stages) == data && |EntropyStage(data, stages)| <= |data| + 1
    ensures Has(stages, STAGE_ENTROPY) ==> EntropyStage(data, stages) != []
    ensures Has(stages, STAGE_ENTROPY) ==> |EntropyStage(data, stages)| == 1 + Min(|Entropy.Encode(data)|, |data|)
  {
    hide Entropy.Encode, Entropy.Decode;
    if Has(stages, STAGE_ENTROPY) {
      Entropy.EntropyRoundTrip(data);
      assert ([1] + Entropy.Encode(data))[1..] == Entropy.Encode(data);
      assert ([0] + data)[1..] == data;
    }
  }

  /** Every chunk of at most 65536 bytes survives the stages, for every stage
      byte, element size, usable genome and lookup hash; it grows by at most the
      three metadata bytes and the two markers. */
  lemma ChunkRoundTrip(chunk: seq<byte>, stages: byte, g: Genome, o: Oracle)
    requires |chunk| <= Lz.WINDOW && Usable(g)
    ensures DecompressChunk(CompressChunk(chunk, stages, g, o), stages, g) == chunk
    ensures |CompressChunk(chunk, stages, g, o)| <= |chunk| + 8
  {
    hide PackStage, ShuffleStage, PatternStage, LzStage, EntropyStage,
      FromPack, FromShuffle, FromPattern, FromLz, FromEntropy;
    var packed := PackStage(chunk, stages);
    PackInverts(chunk, stages);
    var shuffled := ShuffleStage(packed.data, stages, o);
    ShuffleInverts(packed.data, stages, o);
    var coded := PatternStage(shuffled.data, stages, g, o);
    PatternInverts(shuffled.data, stages, g, o);
    LzInverts(coded.data, stages);
    var lz := LzStage(coded.data, stages);
    EntropyInverts(lz, stages);
    var d := CompressChunk(chunk, stages, g, o);
    assert d[3..] == EntropyStage(lz, stages);
  }

  // ----------------------------------------------------------------- methods

  /** The two last stages, LZ and entropy. */
  method RunCoders(data: seq<byte>, stages: byte) returns (current: seq<byte>)
    requires |data| < 0x4000_0000
    ensures current == EntropyStage(LzStage(data, stages), stages)
  {
    hide LzFormat.Compressed, Entropy.Encode, Has;
    current := data;
    if Has(stages, STAGE_LZ) {
      var compressed := LzCompressor.Compress(current);
      current := if |compressed| < |current| + 5 then compressed else [0, 0, 0, 0] + current;
    }
    ghost var lz := current;
    assert lz == LzStage(data, stages);
    if Has(stages, STAGE_ENTROPY) {
      var encoded := EntropyCoder.EncodeEntropy(current);
      current := if |encoded| < |current| then [1] + encoded else [0] + current;
    }
    assert current == EntropyStage(lz, stages);
  }

  /** `compress_chunk`: `current` is overwritten stage by stage. */
  method RunStages(chunk: seq<byte>, stages: byte, g: Genome, o: Oracle) returns (out: seq<byte>)
    requires |chunk| < 0x4000_0000 && Usable(g)
    ensures out == CompressChunk(chunk, stages, g, o)
  {
    hide BitPacker.Pack, Shuffle.Shuffled, PatternCodec.Encode, LzStage, EntropyStage, Has;
    var current := chunk;
    var bitpackFlag: byte := 0;
    if Has(stages, STAGE_BITPACK) {
      var packed := BitPacker.PackBytes(current);
      if |packed| < |current| { current, bitpackFlag := packed, 1; }
    }
    assert Staged(current, bitpackFlag) == PackStage(chunk, stages);
    ghost var packed := current;
    var elementSize: byte := 1;
    if Has(stages, STAGE_SHUFFLE) {
      elementSize := o.detect(current);
      if elementSize > 1 {
        current := Shuffle.ShuffleBytes(current, elementSize);
      } else {
        OneByteElements(current);
      }
    }
    assert Staged(current, elementSize) == ShuffleStage(packed, stages, o);
    ghost var shuffled := current;
    var patternFlag: byte := 0;
    if Has(stages, STAGE_PATTERN) && |g.entries| > 0 {
      var encoded := PatternCodec.EncodePatterns(g, o.patternHash, current);
      if |encoded| < |current| { current, patternFlag := encoded, 1; }
    }
    assert Staged(current, patternFlag) == PatternStage(shuffled, stages, g, o);
    current := RunCoders(current, stages);
    out := [elementSize, bitpackFlag, patternFlag] + current;
  }

  lemma OneByteElements(data: seq<byte>)
    ensures Shuffle.Shuffled(data, 1) == data
  {
  }

  /** `decompress_chunk`. */
  method UndoStages(d: seq<byte>, stages: byte, g: Genome) returns (out: seq<byte>)
    ensures out == DecompressChunk(d, stages, g)
  {
    hide BitPacker.Unpack, Shuffle.Unshuffled, PatternCodec.Decode, LzFormat.Decompressed, Entropy.Decode, FromLE;
    var current := d;
    if |current| < 3 { return current; }
    var elementSize, bitpackFlag, patternFlag := current[0], current[1], current[2];
    current := current[3..];
    if Has(stages, STAGE_ENTROPY) {
      if |current| == 0 { return current; }
      var flag := current[0];
      current := current[1..];
      if flag == 1 { current := EntropyCoder.DecodeEntropy(current); }
    }
    assert current == FromEntropy(d[3..], stages);
    ghost var lz := current;
    if Has(stages, STAGE_LZ) && |current| >= 4 {
      if FromLE(current[..4]) == 0 {
        current := current[4..];
      } else {
        current := LzCompressor.Decompress(current);
      }
    }
    assert current == FromLz(lz, stages);
    ghost var coded := current;
    if Has(stages, STAGE_PATTERN) && |g.entries| > 0 && patternFlag == 1 {
      current := PatternCodec.DecodePatterns(g, current);
    }
    assert current == FromPattern(coded, stages, g, patternFlag);
    ghost var shuffled := current;
    if Has(stages, STAGE_SHUFFLE) && elementSize > 1 {
      current := Shuffle.UnshuffleBytes(current, elementSize);
    }
    assert current == FromShuffle(shuffled, stages, elementSize);
    if Has(stages, STAGE_BITPACK) && bitpackFlag == 1 {
      current := BitPacker.UnpackBytes(current);
    }
    out := current;
  }
}
