# MemCell and MDC, modelled and proved

This Dafny project models the two halves of the repository that carry its
promises: the lossless compression pipeline of the C++ engine (`src/`) and the
storage layer of MDC (`mdc/src/mdc/`), that is, event-sourced streams, the tiered
object router with its encrypted archive, key rotation, and SQL export and import.
It proves what they are for:

- **Compression is lossless.** For every input, stage byte, genome, heuristic
  choice and core count, decompressing a compressed file gives back the input
  (`Engine.EngineRoundTrip`). Every stage is inverted on its own: rANS of order 0
  and 1, LZSS, bit packing, cell packing, shuffling and pattern coding, the
  container, deduplication and chunking. The CRC-32 is shown to be a polynomial
  remainder.
- **And it compresses as it should.** Quantised weights follow the counts
  (`FrequencyTable.QuantizedFollowsCounts`), rANS output is the ideal code length under
  them to less than a thousandth of a bit a symbol (`RansLength.CodeLength`), and every
  LZSS token is the greedy one among exactly the positions the chains reach
  (`LzSearch.TokensGreedy`).
- **A stream is its log.** In every world reachable by any number of store
  instances with stale caches, crashes and evictions, a read is the fold of the
  codec over the logged events (`EventRuns.ReachableReads`,
  `EventLog.StateAtIsFold`); nothing written is lost or overwritten
  (`EventRuns.RunsAreGood`); rearranged storage never yields a state the stream did
  not have (`EventTamper.TamperedReads`). Every call's answer is told from the log and
  its arguments (`EventAnswers.AppendAnswers`), and what any payload of operations does
  from look-ups by path (`EventPaths.ApplyExact`).
- **Rotation is resumable.** However often a key rotation is cut short, every record
  opens under exactly one of the two keys, and one more run finishes it, for one
  store, for the archive and for all databases together
  (`EventRotation.RotationResumes`, `Archive.RotationResumes`,
  `Manager.ManagerResumes`), whether or not there was a key check before.
- **The router is a map.** Over every run of store, move, delete and restart,
  `retrieve` answers as a plain map from object id to content would
  (`Router.RetrieveIsLookup`), and it goes on doing so across key rotations
  (`RouterRotation.RetrieveAcrossKeys`).
- **SQL export reads back.** Importing an exported script recovers the database
  (`SqlScript.ExportReadsBack`), and a script written by hand, in any accepted shape,
  reads as what it says (`SqlHand.HandScriptRead`, `SqlText.HandTextReads`).

## How the model is built

Each operation is specified by a function on values and, where the source works by
updating state, written again as a method or a class in the source's own form:
loops over arrays and buffers with their invariants, objects with fields, in-place
hash chains, a running coder state. The method's `ensures` equates its result or
new state with the function; the theorems are about the function. Decoders are
specified on every byte string, not just on what the encoders write.

Bytes are integers below 256; 16-, 32- and 64-bit fields wrap or are proved not to
wrap; bit operations of the CRC and the hashes are on `bv32`. Errors are results,
never preconditions.

| Part | Files |
|---|---|
| shared | `Bytes`, `Radix`, `Listings`, `Outcomes`, `MasterKeys` |
| entropy coding | `FrequencyTable`, `Rans`, `RansLength`, `Entropy`, `EntropyCoder` |
| LZSS | `Lz`, `LzSearch`, `LzFormat`, `LzCompressor`, `LzWindow` |
| other stages | `CellBlocks`, `BitPacker`, `Shuffle`, `PatternCodec`, `PatternChoice`, `Crc32` |
| engine | `Chunker`, `Dedup`, `CellFile`, `ChunkPipeline`, `Workers`, `Engine` |
| event streams | `EventCodec`, `EventPaths`, `EventLog`, `EventOps`, `EventRuns`, `EventAnswers`, `EventRotation`, `EventLegacy`, `EventTamper`, `EventPathOps`, `EventStore` |
| object storage | `KeySpace`, `Archive`, `Router`, `RouterErasure`, `RouterRotation`, `StorageRouter`, `Manager` |
| SQL | `SqlLexer`, `SqlText`, `SqlReader`, `SqlNames`, `SqlWriter`, `SqlRoundTrip`, `SqlImport`, `SqlScript`, `SqlHand`, `SqlColumns`, `SqlUnlisted`, `SqlMethods` |

What comes from outside is a parameter, and the theorems hold for every value of it:
the rolling-hash table and content hash, the counted pattern candidates, the
detected shuffle size, the hash used for pattern look-up, the reported number of
cores, times, nonces, the listing order of storage, the order of JSON keys, the
codecs registered besides `path-ops`. Sealing is an ideal authenticated cipher:
opening succeeds exactly for the same key, stream, kind and sequence. The archive's
cipher and the object compressors are pairs assumed to be inverse; of the keys in play,
a finite set, only the one used for a block decrypts it. `Archive.SaneSettings` and
`Router.TrustedParts` exhibit parts that meet these assumptions.

## Where the code does not do what it promises

Each point is a lemma, with the exact condition under which the promise holds.

- **LZSS window edge.** The search accepts distance 65536 (`src/lz_compress.cpp:24`),
  which 16 bits cannot hold; it is written as 0 and refused on reading. An item is
  read back exactly when its distance is below 65536 (`LzFormat.ItemRoundTrip`); an
  input whose unstorable matches each close a group of eight, or the stream, survives
  exactly when it has none (`LzWindow.ClosingTokensDecide`); and 65539 concrete bytes
  lose their last three (`LzWindow.WindowEdgeLost`). Inputs without such a match survive
  exactly when their length fits its 32-bit field (`LzFormat.StorableRoundTrip`). What
  is not decided is an unstorable match inside a group: the rest of that group is then
  read out of step, and what it spells depends on the bytes that follow. Engine chunks
  are at most 16384 bytes and not affected.
- **Quick check past the end.** `src/lz_compress.cpp:28` reads one byte past the input
  when the best match already ends there. The model tests the bound first; no longer
  match exists in that case, so the search's result is unchanged
  (`LzCompressor.QuickCheck`, `LzCompressor.FindMatch`).
- **Chains cut by their own loops.** With lazy matching the start of a match is inserted
  twice (`src/lz_compress.cpp:100-102` and `src/lz_compress.cpp:127-132`) and links to
  itself; a search that comes to it meets nothing older. What a search meets is exactly
  what lies before the first such position (`LzSearch.CandidateIffNear`).
- **A rolling hash that does not forget.** The byte that leaves the window is taken out
  shifted where it should be rotated (`src/chunker.cpp:76-79`). It is taken out exactly
  when its table entry has no bit but the lowest (`Chunker.RollForgetsIff`), so a cut
  depends on all bytes since the chunk's least length. Chunking stays memoryless from
  one cut to the next (`Chunker.ChunksMemoryless`).
- **Old copies.** Storing an object again in another backend leaves the old copy there,
  out of reach (`RouterErasure.StoreLeavesOldCopy`).
- **Worker split.** `n + threads - 1` is computed in 32 bits (`src/memalgo.cpp:367`). The
  ranges cover the chunks exactly when that sum does not wrap; when it does, no chunk
  is decompressed (`Workers.RangesTileIff`).
- **Rotating a store without streams.** `rotate_key` rewrites the key check only if a
  stream exists (`mdc/src/mdc/events/store.py:336`). The store is under the new key
  afterwards exactly when it has a stream or has no key check
  (`EventRotation.RotationMovesIffStreams`); otherwise the next process is locked out
  (`EventRotation.EmptyRotationLocksOut`). Databases from before there were key checks
  are migrated like any other (`EventRotation.RotationResumes`).
- **Rerunning a rotation over several databases.** The documentation of
  `rotate_event_key` says that finished databases are skipped. That holds for a new
  process (`Manager.ManagerResumes`); in the same process the first finished database
  refuses the key it already holds (`Manager.SameProcessRerunRefused`).
- **Stale writers that stay stale.** `append` checks everything against its cached tail
  (`mdc/src/mdc/events/store.py:215-229`), and only an occupied slot drops it
  (`mdc/src/mdc/events/store.py:417-419`). A stale instance therefore forgets its tail
  exactly when the call passes every check at that stale tail
  (`EventRuns.StaleAppendRefused`), and then the same call works from the true end
  (`EventRuns.StaleRetry`). Told the true last event, or asked for the state it
  remembers, it refuses and stays stale however often it is asked
  (`EventRuns.StaleExpectationSticks`, `EventRuns.StaleNoChangeSticks`);
  `EventPathOps.StaleWitness` runs all three cases. Nothing is ever written.
- **Keys `diff` records but `validate` refuses.** An empty key, or nesting deeper than
  32, gives an operation that is refused when applied. The round trip holds exactly
  when every key that is new, gone or changed is non-empty and at most 32 levels down
  (`EventCodec.DiffRoundTrip`, with `EventCodec.EmptyKeyRefused` and
  `EventCodec.DeepChangeRefused` at inputs).
- **Other keys on old databases.** A database from before there were key checks trusts
  every key (`mdc/src/mdc/events/store.py:363-378`). With its own key everything goes on
  as usual (`EventLegacy.OldRunsAreGood`). A store with another key can start a stream
  (`EventLegacy.StrangerCreates`), and from then on a rotation goes through exactly
  between those two keys (`EventLegacy.StrangerBlocksRotation`).
- **Bit packing from 2^32 bytes on.** The length field has 32 bits
  (`src/bitpack.cpp:69`). The round trip holds exactly for inputs that are passed through
  or shorter than that (`BitPacker.BitPackRoundTrip`).
- **Cell blocks from 2^29 bytes on.** `original_bits` is a 32-bit number
  (`src/cell.cpp:13`). The round trip holds exactly when the bit count, rounded up to a
  cell, does not wrap, but for one length at which zeros survive
  (`CellBlocks.CellRoundTrip`).
- **Tables without fields.** The export of a table without fields has only the record
  id column, and the reader refuses it (`SqlScript.ExportReadsBack` states the exact
  outcome).
- **Hash collisions.** Deduplication restores the input exactly when no two different
  chunks share a content hash (`Dedup.RestoreIffCollisionFree`); otherwise the final
  checksum decides (`Engine.EngineOutcome`, `Engine.CollisionsAreCaught`).
- **Archive copies of different lengths** do not read back (`Archive.PackRoundTripIff`);
  the archive itself only packs equal copies.

Where the source's behaviour is undefined the model chooses: a frequency table that
does not sum to 4096 is refused even if its 16-bit sum wraps to 4096; a packed width
of 32 bits or more, which shifts too far, decodes to nothing; a truncated genome,
which leaves entries uninitialised, is refused.

## Model

| member | source | states |
|---|---|---|
| FrequencyTable.QuantizedIsTable | src/entropy.cpp:12-57 | for any counts summing to `total`, the quantised table sums to exactly 4096 and, when `total > 0`, is non-zero on exactly the symbols that occur; without counts it is flat |
| FrequencyTable.QuantizedFollowsCounts | src/entropy.cpp:21-56 | weights follow counts: there are shares r, each 4096 * count / total rounded half up but at least 1 where the symbol occurs, and the table differs from them in one direction only: what is missing goes to the first largest share, what is too much comes off the top, levelling the largest |
| FrequencyTable.RebalanceReaches | src/entropy.cpp:35-56 | the correction loops terminate: from any non-zero table they reach the sum 4096 and never zero or revive a symbol |
| FrequencyTable.QuantizeFreqs | src/entropy.cpp:12-57 | the in-place loops leave exactly the specified table in the array, without a 16-bit entry wrapping on the way |
| FrequencyTable.FindLargest | src/entropy.cpp:38-51 | the scan of either correction loop finds the first largest entry above the floor |
| FrequencyTable.LargestAboveIsLargest | src/entropy.cpp:38-51 | the specified entry is above the floor, at least every other one and strictly above all earlier ones; -1 only when there is none |
| FrequencyTable.CountsProperties | src/entropy.cpp:59-72 | the histogram adds up to the length, and a count is positive exactly for bytes that occur |
| FrequencyTable.CountsExact | src/entropy.cpp:61-62 | each count is the number of places where its byte stands |
| FrequencyTable.SymbolAt | src/entropy.cpp:166-178 | every slot below 4096 lies in the cumulative interval of the symbol the slot table gives |
| FrequencyTable.SymbolAtUnique | src/entropy.cpp:166-178 | and of no other symbol: the intervals partition the slots |
| Rans.PutTake | src/entropy.cpp:90-102 | one encode step keeps the state in [2^23, 2^31), leaves the slot inside the symbol's interval, and one decode step restores state and byte stack exactly |
| Rans.RenormRange | src/entropy.cpp:96-100 | renormalising leaves the state in [2^11 f, 2^19 f), so the next multiplication cannot pass 2^31 |
| Rans.RefillUndoesRenorm | src/entropy.cpp:215-218 | refilling pops exactly the bytes that renormalising pushed |
| Rans.PutPushes | src/entropy.cpp:96-102 | a step pushes at most two bytes, as the output buffer's size relies on |
| Rans.SymbolRoundTrip | src/entropy.cpp:205-219 | after encoding a symbol the slot look-up names that symbol and decoding it restores the previous coder |
| Rans.DecodeInvertsEncode | src/entropy.cpp:77-420 | for any family of context tables covering the data: coding backwards keeps the state normal with at most two bytes a symbol, and decoding forwards returns the data and ends in state 2^23 with an empty stack |
| RansLength.CodeLength | src/entropy.cpp:85-103 | the bytes pushed for a string are at most its ideal code length under the tables, and less than a thousandth of a bit more for every symbol: 256^bytes is at most the product of 4096 / weight * 2049 / 2048 |
| RansLength.Order0Length | src/entropy.cpp:77-135 | so an order-0 stream is 524 bytes and that code, under the quantised counts of its own bytes |
| RansLength.Order1Length | src/entropy.cpp:232-324 | and an order-1 stream 14 bytes, 513 for each context that occurs, and that code, where the table of a context is the quantised counts of the bytes that follow it |
| Entropy.Order0RoundTrip | src/entropy.cpp:77-222 | the order-0 stream (length, table, slot coding) decodes to its input |
| Entropy.Order1RoundTrip | src/entropy.cpp:232-420 | the order-1 stream decodes to its input although it was coded backwards under the previous byte: every context met on reading was written as active |
| Entropy.EntropyRoundTrip | src/entropy.cpp:422-461 | the wrapper that picks an order is lossless |
| Entropy.Encode | src/entropy.cpp:422-443 | the output is at most one byte longer than the order-0 stream and, above 4096 bytes of input, than the order-1 stream: the shorter is kept |
| EntropyCoder.BuildStats | src/entropy.cpp:59-72 | the loops compute the specified table and its cumulative sums |
| EntropyCoder.BuildSlots | src/entropy.cpp:166-178 | the filled array is the slot table |
| EntropyCoder.EncodeOrder0 | src/entropy.cpp:77-136 | the loop over one 32-bit state writes exactly the specified stream |
| EntropyCoder.DecodeOrder0 | src/entropy.cpp:145-222 | the decoder loop computes the specified decoding of every byte string, well formed or not |
| EntropyCoder.CountContexts | src/entropy.cpp:233-244 | one pass tallies every byte under its predecessor, the first under context 0 |
| EntropyCoder.QuantizeContexts | src/entropy.cpp:246-260 | each occurring context, and no other, gets a table; the list of active contexts serialises to the specified bytes |
| EntropyCoder.EncodeOrder1 | src/entropy.cpp:232-324 | the loops write exactly the specified order-1 stream |
| EntropyCoder.DecodeOrder1 | src/entropy.cpp:326-420 | the decoder loop computes the specified decoding of every byte string |
| EntropyCoder.EncodeEntropy | src/entropy.cpp:422-446 | the wrapper method writes the specified stream |
| EntropyCoder.DecodeEntropy | src/entropy.cpp:452-461 | the wrapper method reads every byte string as specified |
| Lz.CommonAgrees | src/lz_compress.cpp:35-40 | the measured length is exact: the bytes agree that far and no further |
| Lz.FindRepeats | src/lz_compress.cpp:12-52 | whatever the hash chains hold (earlier positions only), the search returns nothing or a true repetition within the window and the length limits |
| LzSearch.FindIsLongest | src/lz_compress.cpp:12-52 | the candidates are the positions met by following head and chain, at most 128 inside the window; the search finds nothing exactly when none of them agrees on three bytes, and otherwise the longest agreement, up to 258, at the first candidate that reaches it |
| LzSearch.NextIndexed | src/lz_compress.cpp:97-146 | after every turn, up to 2^31 bytes, the chains hold every earlier position under its hash, each linked to the one before it, but for the starts of matches, which were inserted twice and link to themselves |
| LzSearch.CandidateIffNear | src/lz_compress.cpp:17-49 | a search meets exactly the earlier positions in the window with the same hash that lie behind fewer than 128 others and behind no match start of that hash |
| LzSearch.FindMissesNothing | src/lz_compress.cpp:12-52 | hence none of those positions repeats more bytes than the match found |
| LzSearch.TokensGreedy | src/lz_compress.cpp:91-147 | for every input up to 2^31 bytes each token is the greedy one for its place: a match is the longest such repetition and no position after it promises one longer by more than a byte; a literal is written only where there is none, or for such a longer one |
| Lz.NextCovers | src/lz_compress.cpp:91-147 | one turn of the compressor, lazy matching included, emits a token that reproduces exactly the bytes it moves past, overlap included |
| Lz.TokensExpand | src/lz_compress.cpp:64-153 | the tokens of any input expand to that input |
| Lz.ShortInputStorable | src/lz_compress.cpp:24-24 | up to 65536 bytes of input every offset fits 16 bits and is not written as 0 |
| LzFormat.ItemRoundTrip | src/lz_compress.cpp:114-124 | a written item is read back exactly if and only if its offset is below 65536; at 65536 the reader skips it and leaves the group |
| LzFormat.GroupsRoundTrip | src/lz_compress.cpp:162-228 | flag bytes and bodies of storable tokens are read back into what the tokens expand to |
| LzFormat.StorableRoundTrip | src/lz_compress.cpp:64-228 | an input of any length none of whose matches lies at distance 65536 survives LZSS if and only if it has fewer than 2^32 bytes |
| LzFormat.LzRoundTrip | src/lz_compress.cpp:64-228 | LZSS loses nothing on any input of at most 65536 bytes |
| LzFormat.CompressedSize | src/lz_compress.cpp:64-153 | output is at most a ninth byte for every eight, plus five |
| LzWindow.GroupsStop | src/lz_compress.cpp:162-228 | a stream whose last token alone cannot be stored decodes to everything before that token |
| LzWindow.ClosingTokensDecide | src/lz_compress.cpp:24-24 | an input whose unstorable tokens each close a group of eight or the stream survives if and only if it has none and fewer than 2^32 bytes; otherwise the output is shorter by exactly their bytes |
| LzWindow.WindowEdgeLost | src/lz_compress.cpp:24-24 | a concrete input of 65539 bytes whose only match has distance 65536 comes back three bytes short |
| LzCompressor.FindMatch | src/lz_compress.cpp:12-52 | the search with its quick check and chain counter returns what the search without shortcuts returns (LzSearch.FindIsLongest says what that is) |
| LzCompressor.QuickCheck | src/lz_compress.cpp:26-33 | a failed quick check proves that the candidate is no longer than the best so far, so skipping it is sound |
| LzCompressor.EmitNext | src/lz_compress.cpp:91-147 | one turn on the hash arrays, with the re-insertion of positions already inserted, is the specified step |
| LzCompressor.Compress | src/lz_compress.cpp:64-153 | the compressor with its patched flag bytes and 32-bit positions writes the specified bytes, at any length |
| LzCompressor.Decompress | src/lz_compress.cpp:162-228 | the decompressor, on every byte string and both format versions, computes the specified output |
| CellBlocks.CellRoundTrip | src/cell.cpp:10-109 | for every width from 1 to 16 unpacking gives the bytes back if and only if the 32-bit bit count, rounded up to a cell, does not wrap (the one other case: one byte below 2^29 bytes, all zeros); straddling and partial cells included |
| CellBlocks.PackCells | src/cell.cpp:10-69 | the bit-position loop with its two- and three-byte windows and 32-bit counters computes the specified cells, at any length |
| CellBlocks.UnpackCells | src/cell.cpp:71-109 | the OR-ing loop computes the specified bytes |
| BitPacker.DetectBits | src/bitpack.cpp:7-35 | the width chosen is one of 1, 2, 4, 6 and 8 |
| BitPacker.PackingShrinks | src/bitpack.cpp:7-97 | whenever the packer does not pass the data through, its output is shorter than the input |
| BitPacker.DetectBitsExact | src/bitpack.cpp:7-35 | the width is the least of 1, 2, 4 and 6 bits that tells the different bytes apart, and 8 exactly when no such width makes the output shorter than the input |
| BitPacker.DetectBitsNeeded | src/bitpack.cpp:7-35 | the detection loop returns the specified width |
| BitPacker.BitPackRoundTrip | src/bitpack.cpp:37-154 | unpacking undoes packing on every input, if and only if it was passed through or has fewer than 2^32 bytes |
| BitPacker.PackBytes | src/bitpack.cpp:37-97 | the bit buffer and its counter produce the specified bytes, at any length |
| BitPacker.UnpackBytes | src/bitpack.cpp:103-154 | the reader computes the specified bytes for every byte string |
| Shuffle.ShuffleRoundTrip | src/shuffle.cpp:52-104 | unshuffling undoes shuffling for every element size, tail bytes included |
| Shuffle.ShuffledElement | src/shuffle.cpp:52-104 | byte `plane` of element `e` goes to place plane * n + e, and comes back from there |
| Shuffle.ShuffleBytes | src/shuffle.cpp:52-75 | the nested loops transpose as specified |
| Shuffle.UnshuffleBytes | src/shuffle.cpp:81-104 | the inverse loops transpose back as specified |
| PatternCodec.BuiltGenomeUsable | src/pattern_codec.cpp:65-157 | every genome that can be built, whatever candidates were counted, is usable, and its escape is a least frequent byte |
| PatternChoice.GenomeTakesBest | src/pattern_codec.cpp:108-157 | for candidates as counting and sorting leave them, in whatever order of equals, the genome has different patterns of three to eight bytes that stand at least four times in the sample, coded by how much they save; one outside saves no more than any inside, and then the genome is full |
| PatternChoice.EntryIsLongest | src/pattern_codec.cpp:200-235 | at every place the longest pattern of the genome that matches there is replaced, as long as the look-up hash tells its patterns apart |
| PatternCodec.PatternRoundTrip | src/pattern_codec.cpp:167-301 | decoding undoes encoding for every usable genome, every input and every look-up hash, even where the escape byte occurs in the data |
| PatternCodec.GenomeRoundTrip | src/pattern_codec.cpp:11-48 | a usable genome survives its own serialisation |
| PatternCodec.CountBytes | src/pattern_codec.cpp:72-74 | the loop computes the byte histogram |
| PatternCodec.SelectGenome | src/pattern_codec.cpp:139-157 | the selection loop builds the specified genome, and it is usable |
| PatternCodec.EncodePatterns | src/pattern_codec.cpp:167-248 | look-up tables and scan produce the specified bytes |
| PatternCodec.DecodePatterns | src/pattern_codec.cpp:258-301 | the scan computes the specified output for every byte string and genome |
| Crc32.TableIsBitSerial | src/utils.cpp:43-64 | one table look-up is eight turns of the bit-serial register |
| Crc32.FoldIsBitSerial | src/utils.cpp:57-68 | the table-driven pass equals the bit-serial register on every message |
| Crc32.RegisterIsRemainder | src/utils.cpp:43-68 | after any bits the register is the remainder of a division by the generator polynomial: dividend = quotient times generator + register, with degree below 32 |
| Crc32.CrcIsRemainder | src/utils.cpp:66-68 | the CRC-32 of a message is the complemented remainder of its polynomial division by 0xEDB88320 reflected (section 8.1.1.6.2 of ITU-T V.42) |
| Crc32.UpdateAppend | src/utils.cpp:57-64 | updating piece by piece equals one pass over the concatenation |
| Crc32.InitTable | src/utils.cpp:43-55 | the table loop fills in the specified 256 entries |
| Crc32.UpdateCrc | src/utils.cpp:57-64 | the byte loop computes the specified update |
| Chunker.FirstChunk | src/chunker.cpp:32-103 | the first cut lies within the input, at most `max`, and at least `min` unless the input ends |
| Chunker.CutIsFirst | src/chunker.cpp:53-88 | a cut is at the first position, from the least length on, whose rolling hash has the mask bits clear, or at the limit when there is none |
| Chunker.RollForgetsIff | src/chunker.cpp:72-84 | rolling takes the leaving byte out of the hash exactly when its table entry has no bit but the lowest; so the hash is not one of its 32-byte window alone |
| Chunker.FirstEntryKept | src/chunker.cpp:10-18 | the first entry of the table already has other bits |
| Chunker.InitTable | src/chunker.cpp:10-18 | the loop fills the table with the states of the congruential generator after its seed |
| Chunker.ChunksPartition | src/chunker.cpp:32-119 | the chunks concatenate to the input, each in [1, max] and all but the last at least `min` |
| Chunker.ChunkCount | src/chunker.cpp:32-103 | the number of chunks is bounded by the length over `min` |
| Chunker.ChunksMemoryless | src/chunker.cpp:32-103 | from any cut on, the remaining chunks are those of the remaining bytes alone |
| Chunker.SuffixChunks | src/chunker.cpp:32-103 | if a cut falls where a suffix starts, the rest of the chunks are exactly the suffix's own chunks, so shared suffixes deduplicate |
| Chunker.NextLength | src/chunker.cpp:40-91 | the rolling-hash loop finds the specified cut |
| Chunker.SplitChunks | src/chunker.cpp:32-103 | the loop over positions yields the specified chunks |
| Dedup.DedupLinks | src/dedup.cpp:5-35 | every chunk refers to a unique chunk with its hash, and every unique chunk is the first of the input with its hash |
| Dedup.RestoreIffCollisionFree | src/dedup.cpp:37-51 | restoring gives back every chunk if and only if no two different chunks share a content hash |
| Dedup.DedupConserves | src/dedup.cpp:5-35 | unique plus duplicate counts, and the sizes, are conserved |
| Dedup.Deduplicate | src/dedup.cpp:5-35 | the loop with its hash map computes the specified result |
| CellFiles.ContainerRoundTrip | src/file_format.cpp:7-118 | a well-formed container is read back exactly, with no byte left over |
| CellFiles.BufferWriter.WriteUint | src/utils.cpp:73-101 | appends the little-endian bytes of the value |
| CellFiles.BufferReader.TakeUint | src/utils.cpp:106-156 | reads a little-endian value, or refuses past the end and leaves the position |
| CellFiles.BufferReader.TakeBytes | src/utils.cpp:106-156 | reads a run of bytes, or refuses past the end and leaves the position |
| CellFiles.SerializeFile | src/file_format.cpp:7-56 | the field-by-field writer produces the specified container |
| CellFiles.DeserializeFile | src/file_format.cpp:62-118 | the field-by-field reader gives the specified outcome on every byte string; the first refusal ends the read |
| ChunkPipeline.PackInverts | src/memalgo.cpp:26-174 | the bit-pack stage is undone whatever its marker, and never grows the data; and the shorter of packed and plain is kept |
| ChunkPipeline.ShuffleInverts | src/memalgo.cpp:26-174 | the shuffle stage is undone for whatever element size was detected; and the element size recorded is the one detected |
| ChunkPipeline.PatternInverts | src/memalgo.cpp:26-174 | the pattern stage is undone, applied or not; and the shorter of coded and plain is kept |
| ChunkPipeline.LzMarkerUnambiguous | src/memalgo.cpp:61-79 | the four zero bytes that mark "not compressed" start the output exactly when the stage did store the data as it was |
| ChunkPipeline.LzInverts | src/memalgo.cpp:26-174 | the LZSS stage is undone and adds at most four bytes; and the shorter of the compressed and the marked plain form is kept |
| ChunkPipeline.EntropyInverts | src/memalgo.cpp:26-174 | the entropy stage is undone and adds at most one byte; and the shorter form is kept |
| ChunkPipeline.ChunkRoundTrip | src/memalgo.cpp:26-174 | for every stage byte, genome and heuristic choice the decompressed chunk is the chunk, and the stored chunk is at most eight bytes longer |
| ChunkPipeline.RunStages | src/memalgo.cpp:26-110 | overwriting one buffer stage by stage gives the specified stored chunk |
| ChunkPipeline.UndoStages | src/memalgo.cpp:116-174 | undoing the stages gives the specified bytes for every stored chunk |
| Workers.RangesTileIff | src/memalgo.cpp:347-377 | the worker ranges cover 0..n without gap or overlap if and only if n + threads - 1 does not wrap 32 bits; when it wraps no worker gets anything |
| Workers.TilesDisjoint | src/memalgo.cpp:347-377 | no two workers ever touch the same result |
| Workers.AnyScheduleDoesAll | src/memalgo.cpp:347-377 | under every interleaving in which all workers finish, each result is the function of its input |
| Workers.RunWorkers | src/memalgo.cpp:333-401 | for every reported core count the results are those of the specified split |
| Engine.EngineRoundTrip | src/memalgo.cpp:183-401 | for every input, stage byte, genome source, heuristic and core count, decompressing the compressed file gives the input, the empty one included, when content hashes do not collide on its chunks |
| Engine.EngineOutcome | src/memalgo.cpp:183-401 | without that assumption, the outcome is exactly the checksum test on the restored chunks |
| Engine.CollisionsAreCaught | src/memalgo.cpp:395-398 | whatever the hashes do, decompression either reports a checksum mismatch or returns bytes with the input's own CRC-32 |
| Engine.PayloadCrcIsWhole | src/memalgo.cpp:306-311 | the checksum updated chunk by chunk is the checksum of the whole payload |
| Engine.ContainerWellFormed | src/memalgo.cpp:268-313 | the container built fits its fields, so it round-trips |
| Engine.ContainerDescribes | src/memalgo.cpp:268-313 | what the container says of itself is true: sizes, counts and both checksums are those of the input and the payload, and every map entry finds its chunk in the payload and gives the hash and length of its original |
| Engine.BuildMap | src/memalgo.cpp:289-304 | the chunk map with its running offsets, and the payload size, as specified |
| Engine.ChecksumPayload | src/memalgo.cpp:306-311 | the checksum loop |
| Engine.CompressFile | src/memalgo.cpp:183-324 | the method writes the specified file |
| Engine.DecompressFile | src/memalgo.cpp:333-401 | the method gives the specified outcome on every byte string |
| EventCodec.DiffRoundTrip | mdc/src/mdc/events/codec.py:57-109 | for all pairs of JSON objects, applying the difference gives the new object if and only if every key that is new, gone or changed is non-empty and at most 32 levels down; when it applies at all it gives exactly the new object |
| EventCodec.TameRoundTrip | mdc/src/mdc/events/codec.py:57-109 | objects with non-empty keys nested at most 32 deep always round-trip, null values and empty objects included |
| EventCodec.DiffEmptyIffEqual | mdc/src/mdc/events/codec.py:57-72 | nothing is recorded exactly when nothing changed |
| EventCodec.EmptyKeyRefused | mdc/src/mdc/events/codec.py:74-87 | a new empty key is recorded but its payload is refused |
| EventCodec.DeepChangeRefused | mdc/src/mdc/events/codec.py:74-87 | one changed value under n nested objects replays if and only if n < 32; from 32 on the payload is refused |
| EventCodec.ApplyUnder | mdc/src/mdc/events/codec.py:89-109 | operations below a key edit the object there and leave everything else |
| EventCodec.OpsReadBack | mdc/src/mdc/events/codec.py:74-87 | validation of a written payload accepts it if and only if every operation is acceptable, and returns the operations written |
| EventCodec.DiffInto | mdc/src/mdc/events/codec.py:62-72 | the recursive walk appends exactly the specified operations to the shared list |
| EventCodec.DiffStates | mdc/src/mdc/events/codec.py:57-60 | the outermost call yields the specified difference |
| EventCodec.ValidatePayload | mdc/src/mdc/events/codec.py:74-87 | the checking loop gives the specified verdict on every JSON value |
| EventCodec.ApplyPayload | mdc/src/mdc/events/codec.py:89-109 | validate everything first, then edit: the specified outcome on every state and payload |
| EventPaths.SetRefusedIff | mdc/src/mdc/events/codec.py:93-103 | a set is refused exactly when a proper prefix of its path leads to a value that is neither null nor an object, and the refusal names the key that leads there |
| EventPaths.SetEdits | mdc/src/mdc/events/codec.py:93-106 | after an accepted set the path and what is below it lead into the value, its prefixes to objects, missing and null parents created, and every other path where it led before |
| EventPaths.UnsetRefusedIff | mdc/src/mdc/events/codec.py:93-103 | an unset is refused for the same reason and no other |
| EventPaths.UnsetEdits | mdc/src/mdc/events/codec.py:93-108 | after an accepted unset nothing is at the path or below; objects on the way stay objects, every other path leads where it led, and a missing parent changes nothing |
| EventPaths.ValidatedIff | mdc/src/mdc/events/codec.py:74-87 | of any JSON value, validation accepts exactly the lists whose every entry spells an operation on a path of one to 32 non-empty keys, and returns those operations |
| EventPaths.ApplyExact | mdc/src/mdc/events/codec.py:74-109 | a payload of any length, whoever wrote it: it is refused exactly when a path is improper or an operation is blocked in its turn; otherwise each path leads where the last operation on it or above it says, and a path related to none leads where it led |
| EventPaths.UnspelledRefused | mdc/src/mdc/events/codec.py:74-87 | and anything that is not such a list is refused |
| EventLog.CheckStreamReserved | mdc/src/mdc/events/store.py:56-56 | the key check's own stream name is not a legal stream id |
| EventLog.BlockKeysDiffer | mdc/src/mdc/events/store.py:94-107 | records of legal streams never share a storage id |
| EventLog.StateAtIsFold | mdc/src/mdc/events/store.py:448-480 | a read is the fold of the codec over base and events: the state of event n when asked by sequence, the state after exactly the events at or before t when asked by time, whatever snapshots exist; the two refusals are exact |
| EventLog.TamperedRebuild | mdc/src/mdc/events/store.py:448-480 | over storage holding only authentic records in any arrangement, a read raises or returns the replay of a real prefix, at the sequence asked for |
| EventOps.Remember | mdc/src/mdc/events/store.py:433-437 | the tail cache never exceeds 256 entries and holds one entry per remembered stream |
| EventOps.When | mdc/src/mdc/events/store.py:392-399 | a time is refused exactly when one is requested that lies more than five minutes after the clock or before the floor; a requested time that is accepted is the time recorded, and otherwise it is the later of the clock and the floor |
| EventOps.ExtendedSound | mdc/src/mdc/events/store.py:198-235 | an appended event keeps a log sound, with the proposed state as its replay |
| EventOps.EventHolds | mdc/src/mdc/events/store.py:413-421 | storage represents the longer log after the event write, with or without the snapshot write that follows it |
| EventRuns.TailIsTrue | mdc/src/mdc/events/store.py:439-446 | the tail used for an append is a true state of its stream, and the latest unless it came from the cache |
| EventRuns.PutCorrect | mdc/src/mdc/events/store.py:413-437 | writing succeeds exactly when the tail is the latest; otherwise nothing is written and the cached tail is dropped |
| EventRuns.CreateCorrect | mdc/src/mdc/events/store.py:181-196 | after any prefix of its writes, creation leaves a storage that represents the old streams, or the old and the new one once all are written |
| EventRuns.AppendCorrect | mdc/src/mdc/events/store.py:198-235 | an append that succeeds extended its stream by exactly one event on the true last state; one that fails wrote nothing |
| EventRuns.AppendSucceedsIff | mdc/src/mdc/events/store.py:198-235 | an append succeeds if and only if the key is right, the tail it starts from is the true end, and the arguments pass there |
| EventAnswers.KeyAnswer | mdc/src/mdc/events/store.py:363-378 | on represented storage the key check refuses exactly a store whose key is not the storage's, unless nothing is stored |
| EventAnswers.AppendAnswers | mdc/src/mdc/events/store.py:198-235 | the answer of every append, told from the logs and the store's tail: which refusal for which reason and in which order, and otherwise the next number, the time asked for or the clock's, the note and the payload |
| EventAnswers.AppendWrites | mdc/src/mdc/events/store.py:229-235 | a successful append writes its event, and a snapshot exactly after every `snapshot_every`-th, and remembers the end of the longer log |
| EventAnswers.CreateAnswers | mdc/src/mdc/events/store.py:181-196 | the answer of every create: which refusal for which reason, and otherwise the state at the time asked for or the clock's; the key check is written first exactly in an empty storage |
| EventRuns.StaleAppendRefused | mdc/src/mdc/events/store.py:198-235 | an instance whose cached tail is behind never writes; its cache is dropped if and only if the call passes every check at that stale tail (expected sequence absent or equal to it; a real change, or a payload that replays there; an accepted time); otherwise the cache is left as it was |
| EventRuns.StaleRetry | mdc/src/mdc/events/store.py:413-446 | after the drop the same call repeated starts from the true end: it succeeds if and only if it passes there, and otherwise leaves the true end cached |
| EventRuns.StaleNoChangeSticks | mdc/src/mdc/events/store.py:219-225 | a stale instance asked for the very state it has cached refuses and keeps its stale tail, although that may be a change of the true state |
| EventRuns.StaleExpectationSticks | mdc/src/mdc/events/store.py:216-217 | a stale instance given the stream's true last sequence is refused and keeps its stale tail, so retrying is refused again |
| EventRuns.StaleReached | mdc/src/mdc/events/store.py:181-235 | a run of two instances reaches a world in which the first is stale, for every create and append that pass |
| EventRuns.ActKeepsGood | mdc/src/mdc/events/store.py:181-235 | every action of any instance, with any eviction and any crash between writes, keeps the storage a faithful image of its logs and overwrites nothing |
| EventRuns.RunsAreGood | mdc/src/mdc/events/store.py:181-235 | over every run of any number of instances, logs only grow, no record changes, sequences stay gap-free and times never decrease |
| EventRuns.ReachableReads | mdc/src/mdc/events/store.py:248-256 | in every reachable world, reading a stream at a logged sequence succeeds and is the fold of the log |
| EventRuns.ReachableTimedReads | mdc/src/mdc/events/store.py:248-256 | in every reachable world, reading a stream at a time is the fold of exactly the events up to then, or is refused exactly before the stream began |
| EventRuns.ReachableAppend | mdc/src/mdc/events/store.py:198-235 | in every reachable world, a successful append took the next sequence after the true last one and storage then represents the longer log |
| EventLegacy.SameAppend | mdc/src/mdc/events/store.py:363-378 | on a database from before key checks an append returns and writes what it would with the check there |
| EventLegacy.OldRunsAreGood | mdc/src/mdc/events/store.py:363-378 | over every run on such a database by stores with its key, streams stay sound logs that only grow and no record changes |
| EventLegacy.StrangerCreates | mdc/src/mdc/events/store.py:363-378 | a store with another key is not refused there: it starts a stream under its own key |
| EventLegacy.StrangerBlocksRotation | mdc/src/mdc/events/store.py:289-341 | after that a rotation goes through if and only if it is between the two keys; any other stops before any write |
| EventRotation.PlanFailsIff | mdc/src/mdc/events/store.py:315-333 | planning fails, with a corruption error, if and only if some record opens under neither key |
| EventRotation.NeitherKeyStops | mdc/src/mdc/events/store.py:289-341 | such a record stops the rotation before any write, and nothing else does |
| EventRotation.ReportCounts | mdc/src/mdc/events/store.py:304-341 | the two numbers reported are the records moved, which are those the old key opened, and all others; a rotation finished before reports all as current |
| EventRotation.LegacyKept | mdc/src/mdc/events/store.py:363-378 | a storage of streams whose key check is missing is one a rotation starts from |
| EventRotation.OneKeyOpens | mdc/src/mdc/events/sealing.py:29-48 | during a rotation, with or without a key check yet, every record opens under exactly one of the two keys, with its plaintext unchanged |
| EventRotation.AttemptKeepsOrFinishes | mdc/src/mdc/events/store.py:289-341 | one attempt cut after any prefix of its writes keeps the rotation resumable; uncut it puts every stream under the new key and records the key check; without streams it writes nothing |
| EventRotation.RotationResumes | mdc/src/mdc/events/store.py:289-341 | from a key check under the old key or absent: after any number of attempts, each with its own listing order and cut anywhere or not at all, every record opens under exactly one key, and the next uncut attempt completes with a key check recorded; a store without streams is unchanged and the run still completes |
| EventRotation.RotationIdempotent | mdc/src/mdc/events/store.py:307-313 | a finished rotation run again writes nothing and reports every record as already moved |
| EventRotation.RotationMovesIffStreams | mdc/src/mdc/events/store.py:336-336 | an uncut rotation puts the store under the new key if and only if it has a stream or no key check |
| EventRotation.EmptyRotationLocksOut | mdc/src/mdc/events/store.py:336-336 | after rotating a store without streams that has a key check, a new process with the new key is refused |
| EventTamper.TamperedAuthentic | mdc/src/mdc/events/sealing.py:33-48 | removing, copying or moving sealed records yields only records that are authentic for the name they claim, or fail to open |
| EventTamper.TamperedReads | mdc/src/mdc/events/store.py:448-480 | after any run and any such rearrangement, a read raises or returns a real prefix of the stream |
| EventPathOps.PathOpsExact | mdc/src/mdc/events/codec.py:57-109 | the default codec meets what the store assumes of a codec |
| EventPathOps.AppendedStateReadsBack | mdc/src/mdc/events/store.py:198-256 | a state proposed and accepted by `append` is, to the last key, what the next read returns |
| EventPathOps.PathOpsPasses | mdc/src/mdc/events/store.py:198-235 | a new state passes at a tail if and only if it differs from the state there in a way that can be recorded, and the other arguments fit |
| EventPathOps.StaleWitness | mdc/src/mdc/events/store.py:198-235 | two instances, two calls: the first instance is then stale; told the true last event, or asked for the state it remembers, it refuses and stays stale where a new process succeeds; asked for another state it refuses, forgets, and succeeds on the second try |
| EventStore.HistoryIsLog | mdc/src/mdc/events/store.py:258-275 | the listing is the log within the times asked for, oldest first, cut to the newest `limit` |
| EventStore.HistoryExact | mdc/src/mdc/events/store.py:258-275 | the lines are those of exactly the records whose time is neither before `since` nor after `until`, in order, each with its number, time, note and state or payload; a positive limit keeps that many at the end |
| EventStore.NewestIsEnd | mdc/src/mdc/events/store.py:275-275 | a positive limit keeps that many at the end, a negative one leaves out as many at the start, zero and none keep all |
| EventStore.EventStore.CheckKeyNow | mdc/src/mdc/events/store.py:363-378 | result, fields and storage after `_check_key` |
| EventStore.EventStore.RememberTail | mdc/src/mdc/events/store.py:433-437 | the tail cache after `_remember` |
| EventStore.EventStore.FindStart | mdc/src/mdc/events/store.py:462-471 | the loop over snapshots picks the specified starting view |
| EventStore.EventStore.ReplayFrom | mdc/src/mdc/events/store.py:473-480 | the replay loop gives the specified view or refusal |
| EventStore.EventStore.RebuildView | mdc/src/mdc/events/store.py:448-480 | `_rebuild` on whatever storage holds |
| EventStore.EventStore.FindTailNow | mdc/src/mdc/events/store.py:439-446 | tail and cache after `_tail` |
| EventStore.EventStore.CreateStream | mdc/src/mdc/events/store.py:181-196 | result, fields and storage after `create_stream`, tying it to the transition the run theorems speak of |
| EventStore.EventStore.PutEvent | mdc/src/mdc/events/store.py:413-437 | result, fields and storage after the writes of an append |
| EventStore.EventStore.AppendEvent | mdc/src/mdc/events/store.py:198-235 | result, fields and storage after `append`, tying it to the transition the run theorems speak of |
| EventStore.EventStore.StateAt | mdc/src/mdc/events/store.py:248-256 | the answer of `state_at` in each case; storage unchanged |
| EventStore.EventStore.ListHistory | mdc/src/mdc/events/store.py:258-275 | `history` on whatever storage holds |
| EventStore.EventStore.MakePlan | mdc/src/mdc/events/store.py:315-333 | the in-memory half of a rotation, without any write |
| EventStore.EventStore.RotateKey | mdc/src/mdc/events/store.py:289-341 | result, fields and storage after `rotate_key` |
| KeySpace.TaggedInjective | mdc/src/mdc/events/store.py:94-107 | a key of tag and rest determines both |
| KeySpace.DecimalReadsBack | mdc/src/mdc/events/store.py:94-107 | zero-padded sequence numbers are digits only and read back, past the padding width too |
| KeySpace.EventKeysDiffer | mdc/src/mdc/events/store.py:94-107 | event and snapshot ids determine kind, stream and sequence |
| KeySpace.LocationsDiffer | mdc/src/mdc/storage_intelligence/router.py:97-99 | an object's location determines its type and id |
| KeySpace.KeySpacesDisjoint | mdc/src/mdc/index/object_index.py:57-91 | object locations, index entries, archive rows, event records and the key check never share a key |
| Archive.PackRoundTripIff | mdc/src/mdc/dna/storage.py:53-67 | packed copies read back exactly if and only if they have one length |
| Archive.SaneSettings | mdc/src/mdc/dna/storage.py:111-144 | the assumptions on cipher and vote can be met for any 256 keys at once and any number of copies the backend accepts |
| Archive.WrittenReads | mdc/src/mdc/dna/storage.py:111-144 | a block as written reads back under its own key and under no other key in play |
| Archive.PlanWorks | mdc/src/mdc/dna/storage.py:168-193 | while every block is under one of two keys, planning succeeds and lists exactly the blocks still to move, with their contents |
| Archive.PlanFailsIff | mdc/src/mdc/dna/storage.py:168-193 | planning fails if and only if some block reads under neither key |
| Archive.AttemptWorks | mdc/src/mdc/dna/storage.py:168-193 | an attempt cut after any number of blocks keeps every block readable; uncut it moves all |
| Archive.RotationResumes | mdc/src/mdc/dna/storage.py:168-193 | after any number of attempts, each with its own listing order and nonces and cut anywhere, every block reads under exactly one key with its content unchanged, and the next uncut attempt completes |
| Router.StoreRefines | mdc/src/mdc/storage_intelligence/router.py:86-118 | storing succeeds exactly when the compressor exists and the size fits, and then sets that object and no other |
| Router.DeleteRefines | mdc/src/mdc/storage_intelligence/router.py:137-140 | deleting removes that object and no other |
| Router.MoveRefines | mdc/src/mdc/storage_intelligence/router.py:142-172 | moving keeps the content of every object and changes the tier of one |
| RouterErasure.DeleteErases | mdc/src/mdc/storage_intelligence/router.py:137-140 | after a delete the object's backend no longer has the bytes |
| RouterErasure.MoveErases | mdc/src/mdc/storage_intelligence/router.py:142-172 | nor has the old backend after a move to another one |
| RouterErasure.StoreLeavesOldCopy | mdc/src/mdc/storage_intelligence/router.py:86-118 | storing an object again, in another backend, leaves the old copy where it was, and a later delete does not reach it |
| Router.RestartRefines | mdc/src/mdc/dna/storage.py:195-202 | a new process finds every durable and archived object again and loses the contents held in memory |
| Router.RunRefines | mdc/src/mdc/storage_intelligence/router.py:86-172 | after every run of store, delete, move and restart the three backends and the index refine the map |
| Router.RetrieveIsLookup | mdc/src/mdc/storage_intelligence/router.py:120-135 | hence every retrieve answers as the map does: the last stored content, unavailable, or no such object |
| Router.Retrieve | mdc/src/mdc/storage_intelligence/router.py:120-135 | whatever has become of the stored bytes, content that was verified has the checksum recorded when it was stored |
| Router.TrustedParts | mdc/src/mdc/storage_intelligence/router.py:181-197 | parts that meet the assumptions of the router theorems exist, for any 256 keys used one after the other |
| Router.UnavailableIffLost | mdc/src/mdc/storage_intelligence/router.py:86-172 | over every run, an object is unavailable if and only if some restart found it in the memory tier and it was not stored again or deleted since |
| RouterRotation.RotationRefines | mdc/src/mdc/dna/storage.py:168-193 | a finished rotation of the archive key, after any number of cut ones, leaves every object as it was, under the new key |
| RouterRotation.RetrieveAcrossKeys | mdc/src/mdc/storage_intelligence/router.py:120-135 | over any number of keys, with any run of store, move, delete and restart under each and every rotation cut off and resumed at will, retrieve answers as the plain map does |
| StorageRouter.MemoryBackend.Put | mdc/src/mdc/storage/memory_store.py:18-45 | the bytes are held under the id |
| StorageRouter.MemoryBackend.Delete | mdc/src/mdc/storage/memory_store.py:18-45 | the id is forgotten |
| StorageRouter.ArchiveBackend.constructor | mdc/src/mdc/dna/storage.py:195-202 | the index of a new archive is what the durable store holds |
| StorageRouter.ArchiveBackend.Put | mdc/src/mdc/dna/storage.py:108-129 | rows and index after a put, or nothing changed and the reason |
| StorageRouter.ArchiveBackend.Delete | mdc/src/mdc/dna/storage.py:160-166 | rows and index after a delete |
| StorageRouter.ArchiveBackend.RotateKey | mdc/src/mdc/dna/storage.py:168-193 | rows and held key after a rotation: nothing changes when planning fails or the key is the same; when a write is refused midway, the writes before it stay and the key is kept |
| StorageRouter.ObjectRouter.constructor | mdc/src/mdc/storage_intelligence/router.py:181-197 | a new process over the same durable store |
| StorageRouter.ObjectRouter.StoreContent | mdc/src/mdc/storage_intelligence/router.py:86-118 | backends and index after `store`, or unchanged with the reason |
| StorageRouter.ObjectRouter.RetrieveContent | mdc/src/mdc/storage_intelligence/router.py:120-135 | what `retrieve` answers |
| StorageRouter.ObjectRouter.DeleteContent | mdc/src/mdc/storage_intelligence/router.py:137-140 | backends and index after `delete` |
| StorageRouter.ObjectRouter.MoveContent | mdc/src/mdc/storage_intelligence/router.py:142-172 | backends and index after `move`, which writes the new copy before deleting the old |
| Manager.OneDatabase | mdc/src/mdc/databases/manager.py:195-209 | rotating one database, stopped anywhere, keeps it resumable; not stopped, its streams and archive are wholly under the new key, and without streams its records are unchanged |
| Manager.ManagerResumes | mdc/src/mdc/databases/manager.py:195-209 | after any sequence of processes, each with its own listing orders and nonces and stopped in any database at any write, one more run completes and puts every stream and archive block of every database under the new key, whether or not it had a key check; a database without streams keeps its records and holds up no other |
| Manager.SameProcessRerunRefused | mdc/src/mdc/databases/manager.py:195-209 | a rerun within the process that had finished the first database is refused at once and changes nothing |
| Manager.DatabaseManager.RotateEventKey | mdc/src/mdc/databases/manager.py:195-209 | the databases after the loop; the key held changes only when all are done |
| SqlLexer.StringReadsBack | mdc/src/mdc/portability/readers.py:204-257 | a quoted string with doubled quotes is read as the string, whatever its characters |
| SqlLexer.NumberReadsBack | mdc/src/mdc/portability/readers.py:204-257 | the number pattern takes exactly a printed number |
| SqlLexer.ReadsPiece | mdc/src/mdc/portability/readers.py:204-257 | each printed piece is read as that piece before any text it cannot run into |
| SqlLexer.RenderReadsBack | mdc/src/mdc/portability/readers.py:204-257 | tokenizing a rendered sequence of pieces gives exactly their tokens |
| SqlLexer.Tokenize | mdc/src/mdc/portability/readers.py:204-257 | the index-advancing loop gives the specified tokens or refusal on every text |
| SqlText.HandTextReads | mdc/src/mdc/portability/readers.py:204-257 | hand-written text of words, numbers, strings, names in three kinds of quotes, operators, both kinds of comments and any white space gives exactly its tokens, if no piece runs on into the next |
| SqlText.NeverEndingRefused | mdc/src/mdc/portability/readers.py:213-238 | a string, quoted name or comment that is never closed refuses the text, whatever good text comes before it |
| SqlWriter.SafeNameChars | mdc/src/mdc/portability/plan.py:89-104 | a safe identifier is not empty and holds only lower-case letters, digits and underscores |
| SqlNames.SafeIff | mdc/src/mdc/portability/plan.py:92-96 | the names that survive unchanged are exactly those of lower-case letters, digits and underscores that do not end in an underscore and start with a letter, or an underscore and a digit |
| SqlNames.SafeNameTwice | mdc/src/mdc/portability/plan.py:92-96 | making a name safe twice changes nothing more |
| SqlNames.LettersKept | mdc/src/mdc/portability/plan.py:92-96 | no letter or digit of a name is lost or changes its place |
| SqlWriter.ScriptReadable | mdc/src/mdc/portability/writers.py:201-226 | no two neighbouring pieces of an export run together |
| SqlRoundTrip.ScriptTokens | mdc/src/mdc/portability/writers.py:201-226 | the tokens of an export are its statements, each ended by a semicolon; comments leave none |
| SqlRoundTrip.StatementsCut | mdc/src/mdc/portability/readers.py:270-282 | cutting at semicolons gives back the statements, since no literal holds a semicolon token |
| SqlRoundTrip.PartsOfJoined | mdc/src/mdc/portability/readers.py:319-335 | cutting at top-level commas gives back the parts, nested parentheses kept together |
| SqlRoundTrip.GroupRead | mdc/src/mdc/portability/readers.py:305-316 | a balanced group is found whole, with the position behind it |
| SqlImport.TypeNamesBack | mdc/src/mdc/portability/plan.py:111-126 | each datatype's SQL name maps back to that datatype |
| SqlColumns.TypeTable | mdc/src/mdc/portability/plan.py:111-126 | the first word of a column's type, in any case, decides its datatype; no name belongs to two, and an unknown one means text |
| SqlColumns.SafeUniqueFree | mdc/src/mdc/portability/plan.py:97-103 | a column never gets the name of another: its safe name, with a number behind it only where that is taken |
| SqlColumns.ColumnNamesDiffer | mdc/src/mdc/portability/readers.py:401-436 | so the columns of a created table have different names |
| SqlColumns.SignedLiteral | mdc/src/mdc/portability/readers.py:447-466 | a minus turns a number around; a sign before anything else is dropped |
| SqlImport.ColumnRead | mdc/src/mdc/portability/readers.py:415-436 | a printed column reads back with its name, type and required flag |
| SqlImport.CreateRead | mdc/src/mdc/portability/readers.py:386-444 | a printed CREATE TABLE reads back as its table, or is refused exactly when it has no field |
| SqlImport.LiteralRead | mdc/src/mdc/portability/readers.py:447-466 | a printed literal reads back as the value it was |
| SqlImport.RowsRead | mdc/src/mdc/portability/readers.py:492-512 | the printed groups read back as the rows, record ids and non-null values included |
| SqlImport.InsertRead | mdc/src/mdc/portability/readers.py:469-512 | a printed INSERT appends its rows to its own table and touches no other |
| SqlScript.ScriptStatements | mdc/src/mdc/portability/readers.py:344-383 | an export falls into exactly the statements written: no name, literal or comment ends one early |
| SqlScript.CreatesRead | mdc/src/mdc/portability/readers.py:344-383 | all tables come back in order, up to the first without a field |
| SqlScript.ChunksJoin | mdc/src/mdc/portability/writers.py:220-223 | rows written a hundred at a time are all the rows, in order |
| SqlScript.InsertsRead | mdc/src/mdc/portability/readers.py:344-383 | all rows of all tables come back in order |
| SqlScript.DatabaseFound | mdc/src/mdc/portability/readers.py:345-346 | the database name found is the exported one, whatever the rows hold |
| SqlScript.ExportReadsBack | mdc/src/mdc/portability/readers.py:344-383 | importing an export recovers the database exactly, or is refused exactly when there is no table or some table has no field |
| SqlHand.HandCreateRead | mdc/src/mdc/portability/readers.py:386-444 | a CREATE TABLE in any accepted shape (temporary, IF NOT EXISTS, qualified name, types of several words and sizes, defaults, constraints, table-level keys) is refused exactly when it declares no field, and otherwise reads as the table it says |
| SqlHand.HandInsertRead | mdc/src/mdc/portability/readers.py:469-512 | an INSERT in any accepted shape: each value goes to the column listed in its place or, without a list, to the columns in declared order, record ids apart; it is refused exactly for a missing table, a wrong number of values or one that is no literal |
| SqlHand.HandStatementRead | mdc/src/mdc/portability/readers.py:356-377 | every statement reads as what it says, USE and CREATE DATABASE included, and unknown ones change nothing |
| SqlHand.HandScriptRead | mdc/src/mdc/portability/readers.py:344-383 | any text whose tokens are such statements reads as what they say one after the other, up to the first that is refused |
| SqlHand.ListMakesNoDifference | mdc/src/mdc/portability/readers.py:483-487 | on a table whose declared columns are the listed ones in that order, an INSERT means the same without its column list |
| SqlHand.ListNeeded | mdc/src/mdc/portability/readers.py:483-487 | without a column list an INSERT is refused for want of one exactly when no table of that name was created |
| SqlUnlisted.UnlistedInsertRead | mdc/src/mdc/portability/readers.py:469-512 | the INSERT of an export, its column list left out, reads the same into the table its CREATE left, whatever rows that has by now |
| SqlUnlisted.UnlistedReadsBack | mdc/src/mdc/portability/readers.py:344-512 | any text with the tokens of an export, all column lists left out, gives the plan the export gives, and is refused in the same cases |
| SqlColumns.TestScriptReads | mdc/tests/test_portability.py:147-149 | the script of that test, with blanks between its tokens, gives one table of an integer and a text column, and one row with a = 1 and b = 'x' |
| SqlMethods.LiteralRendered | mdc/src/mdc/portability/writers.py:191-198 | the pieces of a literal render to the text the writer produces |
| SqlMethods.CreateRendered | mdc/src/mdc/portability/writers.py:209-214 | likewise for CREATE TABLE |
| SqlMethods.InsertRendered | mdc/src/mdc/portability/writers.py:216-223 | likewise for INSERT |
| SqlMethods.WriteRows | mdc/src/mdc/portability/writers.py:216-225 | the loop over a table's rows appends exactly its INSERTs |
| SqlMethods.WriteSql | mdc/src/mdc/portability/writers.py:201-226 | the writer's loops produce the export text |
| SqlMethods.SplitStatements | mdc/src/mdc/portability/readers.py:270-282 | the splitting loop, on every token list |
| SqlMethods.MatchGroup | mdc/src/mdc/portability/readers.py:305-316 | the depth counter finds the closing parenthesis or refuses, on every token list |
| SqlMethods.SplitTopLevel | mdc/src/mdc/portability/readers.py:319-335 | the splitting loop, on every token list |
| SqlMethods.ReadGroups | mdc/src/mdc/portability/readers.py:492-512 | the loop over VALUES groups, on every statement |
| SqlMethods.ReadScript | mdc/src/mdc/portability/readers.py:344-383 | `read_sql` on every text |
| SqlMethods.ExportThenImport | mdc/src/mdc/portability/writers.py:201-226 | running the writer and then the reader recovers the database |

## Left out

- The delta stage (`src/delta.cpp`): the engine never calls it, and it does not
  round-trip a chunk longer than its reference.
- Entropy estimates, stage recommendation, shuffle-size detection and low-rank
  factorisation: floating-point choices, taken as arbitrary.
- The loops that count and sort pattern candidates: the codec takes any list of patterns
  of at most eight bytes; `PatternChoice` says what counting and sorting leave.
- The values of the FNV-1a hash: any function from bytes to hashes.
- File and stream C interfaces, the chunk registry's text file, logging, statistics.
- Threads: workers are an arbitrary interleaving of whole chunk steps; locks inside
  `EventStore` make each of its calls one step.
- Real cryptography, key derivation, nonces and the repetition code's vote: an ideal
  authenticated cipher, and a vote that returns what agreeing copies hold.
- JSON text: records are values, and writing and reading them is the identity. Sizes
  are bounded by an arbitrary predicate.
- Editing a deep copy in place in `PathOpsCodec.apply`: states are values, so aliasing
  is not modelled.
- Storage metadata of event records: derived from the record's id, so altered metadata
  is not modelled.
- Deleting streams, and a stream deleted by one instance while another caches its tail.
- `ObjectIndex.search`, the archive's in-memory mode and its older row format, which is
  a parameter of the reader; corruption research.
- Exports with scope "schema" or "data", and the text of warnings and error messages.
- Non-ASCII letters and digits outside quotes in SQL: classified by a parameter.
- The value of a floating-point literal: kept as its sign and text, as printed.
- DuckDB's own SQL, CSV, Markdown, Mermaid and spreadsheet formats, the web interface,
  command line, chat, monitoring, tokens and users.
- Engine.EngineRoundTrip: assumes collision-free hashes and an input of at most
  (2^32 - 1 - cores) * 1024 bytes, since chunk counts are 32-bit fields.
- Engine.EngineOutcome: the same size bound, without the assumption on hashes.
- Engine.CollisionsAreCaught: the same size bound.
- Entropy.Order0RoundTrip: inputs of at most 2^30 - 3 bytes, since the reader's byte
  position is a signed 32-bit integer.
- Entropy.Order1RoundTrip: the same bound.
- Entropy.EntropyRoundTrip: the same bound.
- EntropyCoder.EncodeOrder0: inputs below 2^32 bytes, so that no 32-bit count wraps.
- EntropyCoder.EncodeOrder1: the same bound.
- EntropyCoder.EncodeEntropy: the same bound.
- ChunkPipeline.ChunkRoundTrip: chunks of at most 65536 bytes, because of the window edge.
- ChunkPipeline.LzInverts: the same bound.
- LzFormat.LzRoundTrip: the same bound; LzFormat.StorableRoundTrip covers longer inputs.
- LzFormat.StorableRoundTrip: no match at distance 65536; LzWindow.ClosingTokensDecide says when
  one is harmful, but not for one inside a group of eight, as explained above.
- LzSearch.TokensGreedy: inputs of at most 2^31 bytes, since positions are kept as signed
  32-bit numbers.
- LzSearch.NextIndexed: the same bound.
- PatternChoice.EntryIsLongest: patterns of one length with different hashes; where two
  share one, the later hides the earlier.
- SqlHand.HandScriptRead: each statement ends with a semicolon, and no entry of a column
  list or cell of a row is empty.
- SqlText.HandTextReads: words and digits outside quotes are ASCII.
- EventRuns.RunsAreGood: runs of create and append, without deletions, from empty storage;
  EventLegacy.OldRunsAreGood starts from a database without a key check.
- SqlScript.ExportReadsBack: names are safe identifiers and numbers are finite; record
  ids are strings.
