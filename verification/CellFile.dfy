/** The `.cell` container (src/file_format.cpp). */
module CellFiles {
  // Fields are written and read through little-endian buffers (src/utils.cpp:73-156).

  import opened Bytes
  import opened PatternCodec
  import opened Dedup

  const MAGIC: seq<byte> := [0x43, 0x45, 0x4C, 0x4C]
  const VERSION_1 := 1
  const VERSION_2 := 2

  datatype Header = Header(version: nat, flags: byte, pipeline: byte, originalSize: nat, payloadSize: nat,
                           chunkCount: nat, uniqueCount: nat, genomeSize: nat, crc: nat)

  datatype MapEntry = MapEntry(hash: Hash128, offset: nat, compressedSize: nat, originalSize: nat)

  datatype CellFile = CellFile(header: Header, genome: Genome, refs: seq<nat>, chunkMap: seq<MapEntry>,
                               chunks: seq<seq<byte>>, payloadCrc: nat)

  /** FLAG_HAS_GENOME. */
  predicate HasGenome(flags: byte) {
    flags % 2 == 1
  }

  // ----------------------------------------------------------------- writing

  function HeaderBytes(h: Header): seq<byte> {
    MAGIC + (LE(h.version, 2) + ([h.flags] + ([h.pipeline] + (LE(h.originalSize, 8) + (LE(h.payloadSize, 8)
    + (LE(h.chunkCount, 4) + (LE(h.uniqueCount, 4) + (LE(h.genomeSize, 4) + LE(h.crc, 4)))))))))
  }

  /** One reference per chunk; a missing one stands for the chunk itself. */
  function RefAt(refs: seq<nat>, i: nat): nat {
    if i < |refs| then refs[i] else i
  }

  function RefsFrom(refs: seq<nat>, i: nat, n: nat): seq<byte>
    requires i <= n
    decreases n - i
  {
    if i == n then [] else LE(RefAt(refs, i), 4) + RefsFrom(refs, i + 1, n)
  }

  function EntryBytes(e: MapEntry): seq<byte> {
    LE(e.hash.low, 8) + (LE(e.hash.high, 8) + (LE(e.offset, 8) + (LE(e.compressedSize, 4) + LE(e.originalSize, 4))))
  }

  function MapBytes(es: seq<MapEntry>): seq<byte>
  {
    if |es| == 0 then [] else EntryBytes(es[0]) + MapBytes(es[1..])
  }

  function ChunkBytes(cs: seq<seq<byte>>): seq<byte>
  {
    if |cs| == 0 then [] else cs[0] + ChunkBytes(cs[1..])
  }

  function GenomeBytes(cf: CellFile): seq<byte>
    requires Usable(cf.genome)
  {
    if HasGenome(cf.header.flags) then PatternCodec.Serialize(cf.genome) else []
  }

  /** `CellFile::serialize`. */
  function Serialize(cf: CellFile): seq<byte>
    requires Usable(cf.genome)
  {
    HeaderBytes(cf.header)
    + (GenomeBytes(cf)
       + (RefsFrom(cf.refs, 0, cf.header.chunkCount)
          + (MapBytes(cf.chunkMap) + (ChunkBytes(cf.chunks) + LE(cf.payloadCrc, 4)))))
  }

  // ----------------------------------------------------------------- reading

  datatype Error = PastEnd | BadMagic | BadVersion | DamagedGenome

  datatype Read<+T> = Fail(error: Error) | Got(value: T, pos: nat)
  {
    predicate IsFailure() { Fail? }
    function PropagateFailure<U>(): Read<U>
      requires Fail?
    {
      Fail(error)
    }
    function Extract(): (T, nat)
      requires Got?
    {
      (value, pos)
    }
  }

  function ReadBytes(d: seq<byte>, pos: nat, n: nat): Read<seq<byte>> {
    if pos + n > |d| then Fail(PastEnd) else Got(d[pos..pos + n], pos + n)
  }

  function ReadUint(d: seq<byte>, pos: nat, n: nat): Read<nat> {
    if pos + n > |d| then Fail(PastEnd) else Got(FromLE(d[pos..pos + n]), pos + n)
  }

  function ReadHeader(d: seq<byte>): Read<Header> {
    var (magic, p0) :- ReadBytes(d, 0, 4);
    if magic != MAGIC then Fail(BadMagic) else
    var (version, p1) :- ReadUint(d, p0, 2);
    if version != VERSION_1 && version != VERSION_2 then Fail(BadVersion) else
    var (flags, p2) :- ReadBytes(d, p1, 1);
    var (pipeline, p3) :- ReadBytes(d, p2, 1);
    var (originalSize, p4) :- ReadUint(d, p3, 8);
    var (payloadSize, p5) :- ReadUint(d, p4, 8);
    var (chunkCount, p6) :- ReadUint(d, p5, 4);
    var (uniqueCount, p7) :- ReadUint(d, p6, 4);
    var (genomeSize, p8) :- ReadUint(d, p7, 4);
    var (crc, p9) :- ReadUint(d, p8, 4);
    Got(Header(version, flags[0], pipeline[0], originalSize, payloadSize, chunkCount, uniqueCount, genomeSize, crc), p9)
  }

  function ReadGenome(d: seq<byte>, pos: nat, h: Header): Read<Genome> {
    if !HasGenome(h.flags) then Got(NoGenome, pos)
    else
      var (bytes, p) :- ReadBytes(d, pos, h.genomeSize);
      var r := PatternCodec.Deserialize(bytes);
      if r.BadGenome? then Fail(DamagedGenome) else Got(r.g, p)
  }

  function ReadRefs(d: seq<byte>, pos: nat, n: nat): Read<seq<nat>>
    decreases n
  {
    if n == 0 then Got([], pos)
    else
      var (r, p) :- ReadUint(d, pos, 4);
      var (rest, q) :- ReadRefs(d, p, n - 1);
      Got([r] + rest, q)
  }

  function ReadEntry(d: seq<byte>, pos: nat): Read<MapEntry> {
    var (low, p1) :- ReadUint(d, pos, 8);
    var (high, p2) :- ReadUint(d, p1, 8);
    var (offset, p3) :- ReadUint(d, p2, 8);
    var (compressedSize, p4) :- ReadUint(d, p3, 4);
    var (originalSize, p5) :- ReadUint(d, p4, 4);
    Got(MapEntry(Hash128(low, high), offset, compressedSize, originalSize), p5)
  }

  function ReadMap(d: seq<byte>, pos: nat, n: nat): Read<seq<MapEntry>>
    decreases n
  {
    if n == 0 then Got([], pos)
    else
      var (e, p) :- ReadEntry(d, pos);
      var (rest, q) :- ReadMap(d, p, n - 1);
      Got([e] + rest, q)
  }

  /** The chunk data, cut by the sizes in the chunk map. */
  function ReadChunks(d: seq<byte>, pos: nat, es: seq<MapEntry>): Read<seq<seq<byte>>>
    decreases |es|
  {
    if |es| == 0 then Got([], pos)
    else
      var (c, p) :- ReadBytes(d, pos, es[0].compressedSize);
      var (rest, q) :- ReadChunks(d, p, es[1..]);
      Got([c] + rest, q)
  }

  /** `CellFile::deserialize`. Bytes after the checksum are ignored. */
  function Deserialize(d: seq<byte>): Read<CellFile> {
    var (h, p0) :- ReadHeader(d);
    var (genome, p1) :- ReadGenome(d, p0, h);
    var (refs, p2) :- ReadRefs(d, p1, h.chunkCount);
    var (chunkMap, p3) :- ReadMap(d, p2, h.uniqueCount);
    var (chunks, p4) :- ReadChunks(d, p3, chunkMap);
    var (crc, p5) :- ReadUint(d, p4, 4);
    Got(CellFile(h, genome, refs, chunkMap, chunks, crc), p5)
  }

  // -------------------------------------------------------------- round trip

  ghost predicate HeaderFits(h: Header) {
    (h.version == VERSION_1 || h.version == VERSION_2) && h.originalSize < U64 && h.payloadSize < U64
    && h.chunkCount < U32 && h.uniqueCount < U32 && h.genomeSize < U32 && h.crc < U32
  }

  ghost predicate EntryFits(e: MapEntry) {
    e.hash.low < U64 && e.hash.high < U64 && e.offset < U64 && e.compressedSize < U32 && e.originalSize < U32
  }

  /** A container whose counts and sizes describe its contents. */
  ghost predicate WellFormed(cf: CellFile) {
    HeaderFits(cf.header) && Usable(cf.genome) && cf.payloadCrc < U32
    && |cf.refs| == cf.header.chunkCount && (forall i :: 0 <= i < |cf.refs| ==> cf.refs[i] < U32)
    && |cf.chunkMap| == |cf.chunks| == cf.header.uniqueCount
    && (forall i :: 0 <= i < |cf.chunkMap| ==> EntryFits(cf.chunkMap[i]) && cf.chunkMap[i].compressedSize == |cf.chunks[i]|)
    && (if HasGenome(cf.header.flags) then cf.header.genomeSize == |PatternCodec.Serialize(cf.genome)| else cf.genome == NoGenome)
  }

  lemma TakeField(d: seq<byte>, pos: nat, field: seq<byte>, rest: seq<byte>)
    requires pos <= |d| && d[pos..] == field + rest
    ensures pos + |field| <= |d| && d[pos..pos + |field|] == field && d[pos + |field|..] == rest
  {
    assert d[pos..][..|field|] == field && d[pos..][|field|..] == rest;
  }

  lemma ReadField(d: seq<byte>, pos: nat, v: nat, n: nat, rest: seq<byte>)
    requires pos <= |d| && d[pos..] == LE(v, n) + rest && v < Pow(256, n)
    ensures ReadUint(d, pos, n) == Got(v, pos + n) && pos + n <= |d| && d[pos + n..] == rest
  {
    TakeField(d, pos, LE(v, n), rest);
    FromLEOfLE(v, n);
  }

  lemma ReadWrittenHeader(d: seq<byte>, h: Header, rest: seq<byte>)
    requires HeaderFits(h) && d == HeaderBytes(h) + rest
    ensures |d| >= 40 && ReadHeader(d) == Got(h, 40) && d[40..] == rest
  {
    hide LE, FromLE, Pow;
    PowValues();
    var t9 := LE(h.crc, 4) + rest;
    var t8 := LE(h.genomeSize, 4) + t9;
    var t7 := LE(h.uniqueCount, 4) + t8;
    var t6 := LE(h.chunkCount, 4) + t7;
    var t5 := LE(h.payloadSize, 8) + t6;
    var t4 := LE(h.originalSize, 8) + t5;
    var t3 := [h.pipeline] + t4;
    var t2 := [h.flags] + t3;
    var t1 := LE(h.version, 2) + t2;
    HeaderRegroup(h, rest);
    assert d[0..] == MAGIC + t1;
    TakeField(d, 0, MAGIC, t1);
    ReadField(d, 4, h.version, 2, t2);
    TakeField(d, 6, [h.flags], t3);
    TakeField(d, 7, [h.pipeline], t4);
    ReadField(d, 8, h.originalSize, 8, t5);
    ReadField(d, 16, h.payloadSize, 8, t6);
    ReadField(d, 24, h.chunkCount, 4, t7);
    ReadField(d, 28, h.uniqueCount, 4, t8);
    ReadField(d, 32, h.genomeSize, 4, t9);
    ReadField(d, 36, h.crc, 4, rest);
  }

  lemma HeaderRegroup(h: Header, rest: seq<byte>)
    ensures HeaderBytes(h) + rest
            == MAGIC + (LE(h.version, 2) + ([h.flags] + ([h.pipeline] + (LE(h.originalSize, 8) + (LE(h.payloadSize, 8)
               + (LE(h.chunkCount, 4) + (LE(h.uniqueCount, 4) + (LE(h.genomeSize, 4) + (LE(h.crc, 4) + rest)))))))))
  {
    hide LE;
    var t8 := LE(h.genomeSize, 4) + LE(h.crc, 4);
    var t7 := LE(h.uniqueCount, 4) + t8;
    var t6 := LE(h.chunkCount, 4) + t7;
    var t5 := LE(h.payloadSize, 8) + t6;
    var t4 := LE(h.originalSize, 8) + t5;
    var t3 := [h.pipeline] + t4;
    var t2 := [h.flags] + t3;
    var t1 := LE(h.version, 2) + t2;
    Assoc(MAGIC, t1, rest);
    Assoc(LE(h.version, 2), t2, rest);
    Assoc([h.flags], t3, rest);
    Assoc([h.pipeline], t4, rest);
    Assoc(LE(h.originalSize, 8), t5, rest);
    Assoc(LE(h.payloadSize, 8), t6, rest);
    Assoc(LE(h.chunkCount, 4), t7, rest);
    Assoc(LE(h.uniqueCount, 4), t8, rest);
    Assoc(LE(h.genomeSize, 4), LE(h.crc, 4), rest);
  }

  lemma {:induction false} ReadWrittenRefs(d: seq<byte>, pos: nat, refs: seq<nat>, i: nat, n: nat, rest: seq<byte>)
    requires i <= n && |refs| == n && (forall k :: 0 <= k < n ==> refs[k] < U32)
    requires pos <= |d| && d[pos..] == RefsFrom(refs, i, n) + rest
    ensures pos + 4 * (n - i) <= |d| && d[pos + 4 * (n - i)..] == rest
    ensures ReadRefs(d, pos, n - i) == Got(refs[i..], pos + 4 * (n - i))
    decreases n - i
  {
    hide LE, FromLE, Pow;
    if i < n {
      PowValues();
      Assoc(LE(refs[i], 4), RefsFrom(refs, i + 1, n), rest);
      ReadField(d, pos, refs[i], 4, RefsFrom(refs, i + 1, n) + rest);
      ReadWrittenRefs(d, pos + 4, refs, i + 1, n, rest);
      assert refs[i..] == [refs[i]] + refs[i + 1..];
    } else {
      assert RefsFrom(refs, i, n) + rest == rest;
    }
  }

  lemma ReadWrittenEntry(d: seq<byte>, pos: nat, e: MapEntry, rest: seq<byte>)
    requires EntryFits(e) && pos <= |d| && d[pos..] == EntryBytes(e) + rest
    ensures pos + 32 <= |d| && ReadEntry(d, pos) == Got(e, pos + 32) && d[pos + 32..] == rest
  {
    hide LE, FromLE, Pow;
    PowValues();
    var t4 := LE(e.compressedSize, 4) + LE(e.originalSize, 4);
    var t3 := LE(e.offset, 8) + t4;
    var t2 := LE(e.hash.high, 8) + t3;
    Assoc(LE(e.hash.low, 8), t2, rest);
    Assoc(LE(e.hash.high, 8), t3, rest);
    Assoc(LE(e.offset, 8), t4, rest);
    Assoc(LE(e.compressedSize, 4), LE(e.originalSize, 4), rest);
    ReadField(d, pos, e.hash.low, 8, t2 + rest);
    ReadField(d, pos + 8, e.hash.high, 8, t3 + rest);
    ReadField(d, pos + 16, e.offset, 8, t4 + rest);
    ReadField(d, pos + 24, e.compressedSize, 4, LE(e.originalSize, 4) + rest);
    ReadField(d, pos + 28, e.originalSize, 4, rest);
  }

  lemma {:induction false} ReadWrittenMap(d: seq<byte>, pos: nat, es: seq<MapEntry>, rest: seq<byte>)
    requires (forall i :: 0 <= i < |es| ==> EntryFits(es[i])) && pos <= |d| && d[pos..] == MapBytes(es) + rest
    ensures pos + 32 * |es| <= |d| && d[pos + 32 * |es|..] == rest
    ensures ReadMap(d, pos, |es|) == Got(es, pos + 32 * |es|)
    decreases |es|
  {
    hide EntryBytes, ReadEntry, EntryFits;
    if |es| > 0 {
      Assoc(EntryBytes(es[0]), MapBytes(es[1..]), rest);
      ReadWrittenEntry(d, pos, es[0], MapBytes(es[1..]) + rest);
      ReadWrittenMap(d, pos + 32, es[1..], rest);
      assert es == [es[0]] + es[1..];
    } else {
      assert MapBytes(es) + rest == rest;
    }
  }

  lemma {:induction false} ReadWrittenChunks(d: seq<byte>, pos: nat, es: seq<MapEntry>, cs: seq<seq<byte>>,
                                             rest: seq<byte>)
    requires |es| == |cs| && forall i :: 0 <= i < |es| ==> es[i].compressedSize == |cs[i]|
    requires pos <= |d| && d[pos..] == ChunkBytes(cs) + rest
    ensures pos + |ChunkBytes(cs)| <= |d| && d[pos + |ChunkBytes(cs)|..] == rest
    ensures ReadChunks(d, pos, es) == Got(cs, pos + |ChunkBytes(cs)|)
    decreases |es|
  {
    if |es| > 0 {
      Assoc(cs[0], ChunkBytes(cs[1..]), rest);
      TakeField(d, pos, cs[0], ChunkBytes(cs[1..]) + rest);
      ReadWrittenChunks(d, pos + |cs[0]|, es[1..], cs[1..], rest);
      assert cs == [cs[0]] + cs[1..];
    } else {
      assert ChunkBytes(cs) + rest == rest;
    }
  }

  lemma ReadWrittenGenome(d: seq<byte>, pos: nat, cf: CellFile, rest: seq<byte>)
    requires WellFormed(cf) && pos <= |d| && d[pos..] == GenomeBytes(cf) + rest
    ensures pos + |GenomeBytes(cf)| <= |d| && d[pos + |GenomeBytes(cf)|..] == rest
    ensures ReadGenome(d, pos, cf.header) == Got(cf.genome, pos + |GenomeBytes(cf)|)
  {
    hide PatternCodec.Serialize, PatternCodec.Deserialize, HeaderFits, EntryFits;
    TakeField(d, pos, GenomeBytes(cf), rest);
    if HasGenome(cf.header.flags) { GenomeRoundTrip(cf.genome); }
  }

  /** Reading a well-formed container gives it back, with no byte left over. */
  lemma ContainerRoundTrip(cf: CellFile)
    requires WellFormed(cf)
    ensures Deserialize(Serialize(cf)) == Got(cf, |Serialize(cf)|)
  {
    hide LE, FromLE, Pow, HeaderBytes, GenomeBytes, RefsFrom, MapBytes, ChunkBytes,
      ReadHeader, ReadGenome, ReadRefs, ReadMap, ReadChunks, EntryFits;
    PowValues();
    var d := Serialize(cf);
    var end := LE(cf.payloadCrc, 4);
    var t3 := ChunkBytes(cf.chunks) + end;
    var t2 := MapBytes(cf.chunkMap) + t3;
    var t1 := RefsFrom(cf.refs, 0, cf.header.chunkCount) + t2;
    ReadWrittenHeader(d, cf.header, GenomeBytes(cf) + t1);
    ReadWrittenGenome(d, 40, cf, t1);
    var p1 := 40 + |GenomeBytes(cf)|;
    ReadWrittenRefs(d, p1, cf.refs, 0, cf.header.chunkCount, t2);
    var p2 := p1 + 4 * cf.header.chunkCount;
    ReadWrittenMap(d, p2, cf.chunkMap, t3);
    var p3 := p2 + 32 * |cf.chunkMap|;
    ReadWrittenChunks(d, p3, cf.chunkMap, cf.chunks, end);
    var p4 := p3 + |ChunkBytes(cf.chunks)|;
    assert end == end + [];
    ReadField(d, p4, cf.payloadCrc, 4, []);
    assert cf.refs[0..] == cf.refs;
  }

  // ----------------------------------------------------------------- buffers

  class BufferWriter {
    var buf: seq<byte>

    constructor ()
      ensures buf == []
    {
      buf := [];
    }

    method WriteUint(v: nat, n: nat)
      modifies this
      ensures buf == old(buf) + LE(v, n)
    {
      var i, rest := 0, v;
      while i < n
        invariant 0 <= i <= n && buf + LE(rest, n - i) == old(buf) + LE(v, n)
      {
        buf := buf + [rest % 256];
        rest := rest / 256;
        i := i + 1;
      }
    }

    method WriteBytes(data: seq<byte>)
      modifies this
      ensures buf == old(buf) + data
    {
      buf := buf + data;
    }
  }

  class BufferReader {
    const data: seq<byte>
    var pos: nat

    constructor (d: seq<byte>)
      ensures data == d && pos == 0
    {
      data := d;
      pos := 0;
    }

    /** Reads past the end are refused and leave the position alone. */
    method TakeBytes(n: nat) returns (r: Read<seq<byte>>)
      modifies this
      ensures r == ReadBytes(data, old(pos), n)
      ensures pos == if r.Got? then r.pos else old(pos)
    {
      if pos + n > |data| { return Fail(PastEnd); }
      pos := pos + n;
      r := Got(data[pos - n..pos], pos);
    }

    method TakeUint(n: nat) returns (r: Read<nat>)
      modifies this
      ensures r == ReadUint(data, old(pos), n)
      ensures pos == if r.Got? then r.pos else old(pos)
    {
      if pos + n > |data| { return Fail(PastEnd); }
      var i: nat, v: nat := n, 0;
      assert data[pos + n..pos + n] == [];
      while i > 0
        invariant 0 <= i <= n && v == FromLE(data[pos + i..pos + n])
      {
        i := i - 1;
        assert data[pos + i..pos + n][1..] == data[pos + i + 1..pos + n];
        v := data[pos + i] + 256 * v;
      }
      pos := pos + n;
      r := Got(v, pos);
    }
  }

  method WriteRefs(w: BufferWriter, refs: seq<nat>, n: nat)
    modifies w
    ensures w.buf == old(w.buf) + RefsFrom(refs, 0, n)
  {
    hide LE;
    for i := 0 to n
      invariant w.buf + RefsFrom(refs, i, n) == old(w.buf) + RefsFrom(refs, 0, n)
    {
      Assoc(w.buf, LE(RefAt(refs, i), 4), RefsFrom(refs, i + 1, n));
      w.WriteUint(if i < |refs| then refs[i] else i, 4);
    }
    Unit(w.buf);
  }

  method WriteMap(w: BufferWriter, es: seq<MapEntry>)
    modifies w
    ensures w.buf == old(w.buf) + MapBytes(es)
  {
    hide EntryBytes;
    assert es[0..] == es;
    for i := 0 to |es|
      invariant w.buf + MapBytes(es[i..]) == old(w.buf) + MapBytes(es)
    {
      assert es[i..][1..] == es[i + 1..];
      Assoc(w.buf, EntryBytes(es[i]), MapBytes(es[i + 1..]));
      WriteEntry(w, es[i]);
    }
    Unit(w.buf);
  }

  method WriteChunks(w: BufferWriter, cs: seq<seq<byte>>)
    modifies w
    ensures w.buf == old(w.buf) + ChunkBytes(cs)
  {
    assert cs[0..] == cs;
    for i := 0 to |cs|
      invariant w.buf + ChunkBytes(cs[i..]) == old(w.buf) + ChunkBytes(cs)
    {
      assert cs[i..][1..] == cs[i + 1..];
      Assoc(w.buf, cs[i], ChunkBytes(cs[i + 1..]));
      w.WriteBytes(cs[i]);
    }
    Unit(w.buf);
  }

  /** `CellFile::serialize`, field by field. */
  method SerializeFile(cf: CellFile) returns (out: seq<byte>)
    requires Usable(cf.genome)
    ensures out == Serialize(cf)
  {
    hide LE, PatternCodec.Serialize, HeaderBytes, RefsFrom, MapBytes, ChunkBytes, Serialize;
    var w := new BufferWriter();
    WriteHeader(w, cf.header);
    if HasGenome(cf.header.flags) { w.WriteBytes(PatternCodec.Serialize(cf.genome)); }
    ghost var before := w.buf;
    assert before == HeaderBytes(cf.header) + GenomeBytes(cf);
    hide GenomeBytes;
    WriteRefs(w, cf.refs, cf.header.chunkCount);
    WriteMap(w, cf.chunkMap);
    WriteChunks(w, cf.chunks);
    w.WriteUint(cf.payloadCrc, 4);
    out := w.buf;
    SerializeParts(cf, before, out);
  }

  lemma SerializeParts(cf: CellFile, before: seq<byte>, out: seq<byte>)
    requires Usable(cf.genome)
    requires before == HeaderBytes(cf.header) + GenomeBytes(cf)
    requires out == (((before + RefsFrom(cf.refs, 0, cf.header.chunkCount)) + MapBytes(cf.chunkMap))
                     + ChunkBytes(cf.chunks)) + LE(cf.payloadCrc, 4)
    ensures out == Serialize(cf)
  {
    hide HeaderBytes, GenomeBytes, RefsFrom, MapBytes, ChunkBytes, LE;
    var a, b, c := HeaderBytes(cf.header), GenomeBytes(cf), RefsFrom(cf.refs, 0, cf.header.chunkCount);
    var d, e, f := MapBytes(cf.chunkMap), ChunkBytes(cf.chunks), LE(cf.payloadCrc, 4);
    Assoc((before + c) + d, e, f);
    Assoc(before + c, d, e + f);
    Assoc(before, c, d + (e + f));
    Assoc(a, b, c + (d + (e + f)));
  }

  method WriteHeader(w: BufferWriter, h: Header)
    requires w.buf == []
    modifies w
    ensures w.buf == HeaderBytes(h)
  {
    hide LE;
    w.WriteBytes(MAGIC);
    w.WriteUint(h.version, 2);
    w.WriteBytes([h.flags]);
    w.WriteBytes([h.pipeline]);
    w.WriteUint(h.originalSize, 8);
    w.WriteUint(h.payloadSize, 8);
    w.WriteUint(h.chunkCount, 4);
    w.WriteUint(h.uniqueCount, 4);
    w.WriteUint(h.genomeSize, 4);
    w.WriteUint(h.crc, 4);
  }

  method WriteEntry(w: BufferWriter, e: MapEntry)
    modifies w
    ensures w.buf == old(w.buf) + EntryBytes(e)
  {
    hide LE;
    w.WriteUint(e.hash.low, 8);
    w.WriteUint(e.hash.high, 8);
    w.WriteUint(e.offset, 8);
    w.WriteUint(e.compressedSize, 4);
    w.WriteUint(e.originalSize, 4);
  }

  /** `CellFile::deserialize`: the first refusal ends the read. */
  method DeserializeFile(d: seq<byte>) returns (r: Read<CellFile>)
    ensures r == Deserialize(d)
  {
    hide ReadHeader, ReadGenome, ReadRefs, ReadMap, ReadChunks, ReadUint;
    var reader := new BufferReader(d);
    var header := TakeHeader(reader);
    if header.Fail? { return Fail(header.error); }
    var h := header.value;
    var genome := TakeGenome(reader, h);
    if genome.Fail? { return Fail(genome.error); }
    var refs := TakeRefs(reader, h.chunkCount);
    if refs.Fail? { return Fail(refs.error); }
    var entries := TakeMap(reader, h.uniqueCount);
    if entries.Fail? { return Fail(entries.error); }
    var chunks := TakeChunks(reader, entries.value);
    if chunks.Fail? { return Fail(chunks.error); }
    var crc := reader.TakeUint(4);
    if crc.Fail? { return Fail(crc.error); }
    r := Got(CellFile(h, genome.value, refs.value, entries.value, chunks.value, crc.value), reader.pos);
  }

  method TakeHeader(reader: BufferReader) returns (r: Read<Header>)
    requires reader.pos == 0
    modifies reader
    ensures r == ReadHeader(reader.data) && (r.Got? ==> reader.pos == r.pos)
  {
    hide FromLE;
    var magic := reader.TakeBytes(4);
    if magic.Fail? { return Fail(magic.error); }
    if magic.value != MAGIC { return Fail(BadMagic); }
    var version := reader.TakeUint(2);
    if version.Fail? { return Fail(version.error); }
    if version.value != VERSION_1 && version.value != VERSION_2 { return Fail(BadVersion); }
    var flags := reader.TakeBytes(1);
    if flags.Fail? { return Fail(flags.error); }
    var pipeline := reader.TakeBytes(1);
    if pipeline.Fail? { return Fail(pipeline.error); }
    var originalSize := reader.TakeUint(8);
    if originalSize.Fail? { return Fail(originalSize.error); }
    var payloadSize := reader.TakeUint(8);
    if payloadSize.Fail? { return Fail(payloadSize.error); }
    var chunkCount := reader.TakeUint(4);
    if chunkCount.Fail? { return Fail(chunkCount.error); }
    var uniqueCount := reader.TakeUint(4);
    if uniqueCount.Fail? { return Fail(uniqueCount.error); }
    var genomeSize := reader.TakeUint(4);
    if genomeSize.Fail? { return Fail(genomeSize.error); }
    var crc := reader.TakeUint(4);
    if crc.Fail? { return Fail(crc.error); }
    r := Got(Header(version.value, flags.value[0], pipeline.value[0], originalSize.value, payloadSize.value,
                    chunkCount.value, uniqueCount.value, genomeSize.value, crc.value), reader.pos);
  }

  method TakeGenome(reader: BufferReader, h: Header) returns (r: Read<Genome>)
    modifies reader
    ensures r == ReadGenome(reader.data, old(reader.pos), h) && (r.Got? ==> reader.pos == r.pos)
  {
    hide PatternCodec.Deserialize;
    if !HasGenome(h.flags) { return Got(NoGenome, reader.pos); }
    var bytes := reader.TakeBytes(h.genomeSize);
    if bytes.Fail? { return Fail(bytes.error); }
    var g := PatternCodec.Deserialize(bytes.value);
    if g.BadGenome? { return Fail(DamagedGenome); }
    r := Got(g.g, reader.pos);
  }

  /** What was read so far, then the outcome of reading the rest. */
  function Prepend<T>(xs: seq<T>, r: Read<seq<T>>): Read<seq<T>> {
    if r.Fail? then r else Got(xs + r.value, r.pos)
  }

  lemma PrependNothing<T>(r: Read<seq<T>>)
    ensures Prepend([], r) == r
  {
    if r.Got? { assert [] + r.value == r.value; }
  }

  lemma PrependStep<T>(xs: seq<T>, x: T, r: Read<seq<T>>)
    ensures Prepend(xs, Prepend([x], r)) == Prepend(xs + [x], r)
  {
    if r.Got? { Assoc(xs, [x], r.value); }
  }

  method TakeRefs(reader: BufferReader, n: nat) returns (r: Read<seq<nat>>)
    modifies reader
    ensures r == ReadRefs(reader.data, old(reader.pos), n) && (r.Got? ==> reader.pos == r.pos)
  {
    hide ReadUint;
    var refs: seq<nat> := [];
    PrependNothing(ReadRefs(reader.data, reader.pos, n));
    for i := 0 to n
      invariant ReadRefs(reader.data, old(reader.pos), n) == Prepend(refs, ReadRefs(reader.data, reader.pos, n - i))
    {
      var v := reader.TakeUint(4);
      if v.Fail? { return Fail(v.error); }
      PrependStep(refs, v.value, ReadRefs(reader.data, reader.pos, n - i - 1));
      refs := refs + [v.value];
    }
    r := Got(refs, reader.pos);
    Unit(refs);
  }

  method TakeMap(reader: BufferReader, n: nat) returns (r: Read<seq<MapEntry>>)
    modifies reader
    ensures r == ReadMap(reader.data, old(reader.pos), n) && (r.Got? ==> reader.pos == r.pos)
  {
    hide ReadEntry;
    var entries: seq<MapEntry> := [];
    PrependNothing(ReadMap(reader.data, reader.pos, n));
    for i := 0 to n
      invariant ReadMap(reader.data, old(reader.pos), n) == Prepend(entries, ReadMap(reader.data, reader.pos, n - i))
    {
      var e := TakeEntry(reader);
      if e.Fail? { return Fail(e.error); }
      PrependStep(entries, e.value, ReadMap(reader.data, reader.pos, n - i - 1));
      entries := entries + [e.value];
    }
    r := Got(entries, reader.pos);
    Unit(entries);
  }

  method TakeEntry(reader: BufferReader) returns (r: Read<MapEntry>)
    modifies reader
    ensures r == ReadEntry(reader.data, old(reader.pos)) && (r.Got? ==> reader.pos == r.pos)
  {
    hide FromLE;
    var low := reader.TakeUint(8);
    if low.Fail? { return Fail(low.error); }
    var high := reader.TakeUint(8);
    if high.Fail? { return Fail(high.error); }
    var offset := reader.TakeUint(8);
    if offset.Fail? { return Fail(offset.error); }
    var compressedSize := reader.TakeUint(4);
    if compressedSize.Fail? { return Fail(compressedSize.error); }
    var originalSize := reader.TakeUint(4);
    if originalSize.Fail? { return Fail(originalSize.error); }
    r := Got(MapEntry(Hash128(low.value, high.value), offset.value, compressedSize.value, originalSize.value),
      reader.pos);
  }

  method TakeChunks(reader: BufferReader, es: seq<MapEntry>) returns (r: Read<seq<seq<byte>>>)
    modifies reader
    ensures r == ReadChunks(reader.data, old(reader.pos), es) && (r.Got? ==> reader.pos == r.pos)
  {
    hide ReadBytes;
    var chunks: seq<seq<byte>> := [];
    assert es[0..] == es;
    PrependNothing(ReadChunks(reader.data, reader.pos, es));
    for i := 0 to |es|
      invariant ReadChunks(reader.data, old(reader.pos), es) == Prepend(chunks,
                ReadChunks(reader.data, reader.pos, es[i..]))
    {
      var c := reader.TakeBytes(es[i].compressedSize);
      assert es[i..][1..] == es[i + 1..];
      if c.Fail? { return Fail(c.error); }
      PrependStep(chunks, c.value, ReadChunks(reader.data, reader.pos, es[i + 1..]));
      chunks := chunks + [c.value];
    }
    r := Got(chunks, reader.pos);
    Unit(chunks);
  }
}
