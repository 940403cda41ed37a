/** The pattern genome (src/pattern_codec.cpp). */
module PatternCodec {
  // Selecting a code book, replacing patterns by escape and code, and storing the
  // code book.

  import opened Bytes
  import opened FrequencyTable
  import opened Radix

  const MAX_ENTRIES := 255
  const MAX_PATTERN := 8
  const LITERAL_ESCAPE := 0xFF

  datatype Entry = Entry(pattern: seq<byte>, code: byte)
  datatype Genome = Genome(escape: byte, entries: seq<Entry>)

  const NoGenome := Genome(0, [])

  /** What `build_genome` produces: few enough entries that 0xFF is no code,
      each entry coded by its index, patterns of two to eight bytes. */
  ghost predicate Usable(g: Genome) {
    |g.entries| <= MAX_ENTRIES
    && forall e :: 0 <= e < |g.entries| ==>
         g.entries[e].code == e && 2 <= |g.entries[e].pattern| <= MAX_PATTERN
  }

  // --------------------------------------------------------------- selection

  /** A counted pattern; which ones there are, and their order, is up to the
      hash map and the sort of the source. */
  datatype Candidate = Candidate(pattern: seq<byte>, freq: nat)

  /** Index of the first smallest count among the first `n`. */
  function LeastFrequent(counts: seq<nat>, n: nat): (m: nat)
    requires 0 < n <= |counts|
    ensures m < n
    ensures forall i :: 0 <= i < n ==> counts[m] <= counts[i]
    ensures forall i :: 0 <= i < m ==> counts[m] < counts[i]
  {
    if n == 1 then 0
    else
      var m := LeastFrequent(counts, n - 1);
      if counts[n - 1] < counts[m] then n - 1 else m
  }

  /** Saves something: longer than the two bytes that replace it, and frequent. */
  predicate Worthwhile(c: Candidate) {
    |c.pattern| > 2 && c.freq >= 4
  }

  function Select(cs: seq<Candidate>): (es: seq<Entry>)
    requires |cs| <= MAX_ENTRIES
    ensures |es| <= |cs|
  {
    if |cs| == 0 then []
    else
      var es := Select(cs[..|cs| - 1]);
      var c := cs[|cs| - 1];
      if Worthwhile(c) then es + [Entry(c.pattern, |es|)] else es
  }

  /** Byte counts as the source keeps them, in 32-bit words. */
  function Histogram(data: seq<byte>): (c: seq<nat>)
    ensures |c| == SYMBOLS
  {
    seq(SYMBOLS, i requires 0 <= i < SYMBOLS => Counts(data)[i] % U32)
  }

  /** `build_genome`, for any list of counted candidates. */
  function BuildGenome(data: seq<byte>, cs: seq<Candidate>): Genome
  {
    if |data| < 4 then NoGenome
    else
      var limit := if |cs| < MAX_ENTRIES then |cs| else MAX_ENTRIES;
      Genome(LeastFrequent(Histogram(data), SYMBOLS), Select(cs[..limit]))
  }

  lemma {:induction false} SelectUsable(escape: byte, cs: seq<Candidate>)
    requires |cs| <= MAX_ENTRIES
    requires forall c :: c in cs ==> |c.pattern| <= MAX_PATTERN
    ensures Usable(Genome(escape, Select(cs)))
  {
    if |cs| > 0 { SelectUsable(escape, cs[..|cs| - 1]); }
  }

  lemma HistogramExact(data: seq<byte>)
    requires |data| < U32
    ensures Histogram(data) == Counts(data)
  {
    hide Counts, Sum;
    CountsProperties(data);
    forall b | 0 <= b < SYMBOLS ensures Histogram(data)[b] == Counts(data)[b] { EntryAtMostSum(Counts(data), b); }
  }

  /** Every genome that can be built is usable, and while the counts fit their
      words no byte of the data is rarer than the escape byte. */
  lemma BuiltGenomeUsable(data: seq<byte>, cs: seq<Candidate>)
    requires forall c :: c in cs ==> |c.pattern| <= MAX_PATTERN
    ensures Usable(BuildGenome(data, cs))
    ensures 4 <= |data| < U32 ==> forall b: byte :: Counts(data)[BuildGenome(data, cs).escape] <= Counts(data)[b]
  {
    var limit := if |cs| < MAX_ENTRIES then |cs| else MAX_ENTRIES;
    SelectUsable(BuildGenome(data, cs).escape, cs[..limit]);
    if 4 <= |data| < U32 { HistogramExact(data); }
  }

  // ---------------------------------------------------------------- encoding

  /** Which entry a lookup table of patterns of length `len` holds under hash
      `h`: the last one inserted, or -1. */
  function Slot(g: Genome, hash: seq<byte> -> nat, len: nat, h: nat, n: nat): (e: int)
    requires n <= |g.entries|
    ensures -1 <= e < n
    ensures e >= 0 ==> |g.entries[e].pattern| == len
  {
    if n == 0 then -1
    else if |g.entries[n - 1].pattern| == len && hash(g.entries[n - 1].pattern) == h then n - 1
    else Slot(g, hash, len, h, n - 1)
  }

  /** The entry that matches at `i` with a pattern of at most `len` bytes, longest
      first; the lookup only proposes, the bytes decide. */
  function MatchAt(g: Genome, hash: seq<byte> -> nat, data: seq<byte>, i: nat, len: nat): (e: int)
    requires i <= |data|
    ensures -1 <= e < |g.entries|
    ensures e >= 0 ==> var p := g.entries[e].pattern;
                       2 <= |p| && i + |p| <= |data| && data[i..i + |p|] == p
  {
    if len < 2 then -1
    else if i + len > |data| then MatchAt(g, hash, data, i, len - 1)
    else
      var e := Slot(g, hash, len, hash(data[i..i + len]), |g.entries|);
      if e >= 0 && data[i..i + len] == g.entries[e].pattern then e
      else MatchAt(g, hash, data, i, len - 1)
  }

  function LongestPattern(g: Genome, n: nat): nat
    requires n <= |g.entries|
  {
    if n == 0 then 2
    else
      var m := LongestPattern(g, n - 1);
      if |g.entries[n - 1].pattern| > m then |g.entries[n - 1].pattern| else m
  }

  function LiteralBytes(g: Genome, b: byte): seq<byte> {
    if b == g.escape then [g.escape, LITERAL_ESCAPE] else [b]
  }

  /** The entry that replaces the bytes at `i`, or -1. */
  function EntryFor(g: Genome, hash: seq<byte> -> nat, data: seq<byte>, i: nat): (e: int)
    requires i < |data|
    ensures -1 <= e < |g.entries|
    ensures e >= 0 ==> var p := g.entries[e].pattern;
                       2 <= |p| && i + |p| <= |data| && data[i..i + |p|] == p
  {
    if |g.entries| == 0 then -1 else MatchAt(g, hash, data, i, LongestPattern(g, |g.entries|))
  }

  /** What is written for the bytes at `i`, and how many bytes it covers. */
  function Item(g: Genome, hash: seq<byte> -> nat, data: seq<byte>, i: nat): (r: (seq<byte>, nat))
    requires i < |data|
    ensures 0 < r.1 <= |data| - i
  {
    var e := EntryFor(g, hash, data, i);
    if e >= 0 then ([g.escape, g.entries[e].code], |g.entries[e].pattern|)
    else (LiteralBytes(g, data[i]), 1)
  }

  /** `encode` from position `i`. */
  function EncodeFrom(g: Genome, hash: seq<byte> -> nat, data: seq<byte>, i: nat): seq<byte>
    requires i <= |data|
    decreases |data| - i
  {
    if i == |data| then []
    else Item(g, hash, data, i).0 + EncodeFrom(g, hash, data, i + Item(g, hash, data, i).1)
  }

  function Encode(g: Genome, hash: seq<byte> -> nat, data: seq<byte>): seq<byte> {
    EncodeFrom(g, hash, data, 0)
  }

  // ---------------------------------------------------------------- decoding

  /** The entry a code stands for: the last with that code, or -1. */
  function EntryOf(g: Genome, code: byte, n: nat): (e: int)
    requires n <= |g.entries|
    ensures -1 <= e < n
  {
    if n == 0 then -1
    else if g.entries[n - 1].code == code then n - 1
    else EntryOf(g, code, n - 1)
  }

  /** What an escape followed by `code` stands for. */
  function Escaped(g: Genome, code: byte): seq<byte> {
    if code == LITERAL_ESCAPE then [g.escape]
    else
      var e := EntryOf(g, code, |g.entries|);
      if e >= 0 then g.entries[e].pattern else [g.escape, code]
  }

  /** What the bytes at `i` decode to, and how many there are of them; a lone
      escape at the end is dropped. */
  function DecodedItem(g: Genome, d: seq<byte>, i: nat): (r: (seq<byte>, nat))
    requires i < |d|
    ensures 0 < r.1 <= |d| - i
  {
    if d[i] != g.escape then ([d[i]], 1)
    else if i + 1 == |d| then ([], 1)
    else (Escaped(g, d[i + 1]), 2)
  }

  /** `decode` from position `i`. */
  function DecodeFrom(g: Genome, d: seq<byte>, i: nat): seq<byte>
    requires i <= |d|
    decreases |d| - i
  {
    if i == |d| then []
    else DecodedItem(g, d, i).0 + DecodeFrom(g, d, i + DecodedItem(g, d, i).1)
  }

  function Decode(g: Genome, d: seq<byte>): seq<byte> {
    DecodeFrom(g, d, 0)
  }

  lemma {:induction false} EntryOfIndex(g: Genome, e: nat, n: nat)
    requires Usable(g) && e < n <= |g.entries|
    ensures EntryOf(g, e, n) == e
  {
    if e < n - 1 { EntryOfIndex(g, e, n - 1); }
  }

  /** One item decodes to the bytes it covers, whatever follows it. */
  lemma ItemRoundTrip(g: Genome, hash: seq<byte> -> nat, data: seq<byte>, i: nat, d: seq<byte>, j: nat, rest: seq<byte>)
    requires Usable(g) && i < |data| && j <= |d|
    requires d[j..] == Item(g, hash, data, i).0 + rest
    ensures j < |d|
    ensures var (item, n) := Item(g, hash, data, i);
            DecodedItem(g, d, j) == (data[i..i + n], |item|) && d[j + |item|..] == rest
  {
    hide MatchAt, EntryOf;
    var tail, e := d[j..], EntryFor(g, hash, data, i);
    assert data[i..i + 1] == [data[i]];
    assert d[j] == tail[0];
    if e >= 0 {
      EntryOfIndex(g, e, |g.entries|);
      assert d[j + 1] == tail[1] && d[j + 2..] == tail[2..];
    } else if data[i] == g.escape {
      assert d[j + 1] == tail[1] && d[j + 2..] == tail[2..];
    } else {
      assert d[j + 1..] == tail[1..];
    }
  }

  lemma {:induction false} DecodeInvertsEncode(g: Genome, hash: seq<byte> -> nat, data: seq<byte>, i: nat, d: seq<byte>,
                                              j: nat)
    requires Usable(g) && i <= |data| && j <= |d| && d[j..] == EncodeFrom(g, hash, data, i)
    ensures DecodeFrom(g, d, j) == data[i..]
    decreases |data| - i
  {
    hide Item, DecodedItem;
    if i < |data| {
      var (item, n) := Item(g, hash, data, i);
      ItemRoundTrip(g, hash, data, i, d, j, EncodeFrom(g, hash, data, i + n));
      DecodeInvertsEncode(g, hash, data, i + n, d, j + |item|);
      assert data[i..] == data[i..i + n] + data[i + n..];
    }
  }

  /** Whatever the lookup hash does, and even when the escape byte occurs in the
      data, decoding restores the data. */
  lemma PatternRoundTrip(g: Genome, hash: seq<byte> -> nat, data: seq<byte>)
    requires Usable(g)
    ensures Decode(g, Encode(g, hash, data)) == data
  {
    var d := Encode(g, hash, data);
    assert d[0..] == d && data[0..] == data;
    DecodeInvertsEncode(g, hash, data, 0, d, 0);
  }

  // ----------------------------------------------------------- serialisation

  function EntryBytes(e: Entry): seq<byte>
    requires |e.pattern| < 256
  {
    [|e.pattern|] + e.pattern + [e.code]
  }

  function EntriesBytes(es: seq<Entry>): seq<byte>
    requires forall e :: e in es ==> |e.pattern| < 256
  {
    if |es| == 0 then [] else EntryBytes(es[0]) + EntriesBytes(es[1..])
  }

  /** `Genome::serialize`. */
  function Serialize(g: Genome): seq<byte>
    requires Usable(g)
  {
    [g.escape] + LE(|g.entries|, 2) + EntriesBytes(g.entries)
  }

  datatype Parsed = Damaged | Parsed(entries: seq<Entry>)

  /** `n` entries from `pos`. Where the bytes run out the source leaves entries
      uninitialised; here that is `Damaged`. */
  function ReadEntriesFrom(d: seq<byte>, pos: nat, n: nat): Parsed
    decreases n
  {
    if n == 0 then Parsed([])
    else if pos >= |d| then Damaged
    else
      var len: nat := if d[pos] > MAX_PATTERN then MAX_PATTERN else d[pos];
      if pos + 1 + len >= |d| then Damaged
      else
        var rest := ReadEntriesFrom(d, pos + 2 + len, n - 1);
        if rest.Damaged? then Damaged
        else Parsed([Entry(d[pos + 1..pos + 1 + len], d[pos + 1 + len])] + rest.entries)
  }

  datatype GenomeResult = BadGenome | GoodGenome(g: Genome)

  /** `Genome::deserialize`. */
  function Deserialize(d: seq<byte>): GenomeResult {
    if |d| < 3 then GoodGenome(NoGenome)
    else
      var r := ReadEntriesFrom(d, 3, FromLE(d[1..3]));
      if r.Damaged? then BadGenome else GoodGenome(Genome(d[0], r.entries))
  }

  lemma EntrySlices(d: seq<byte>, pos: nat, e: Entry, rest: seq<byte>)
    requires pos <= |d| && |e.pattern| < 256 && d[pos..] == EntryBytes(e) + rest
    ensures var len := |e.pattern|;
            && pos + 2 + len <= |d|
            && d[pos] == len && d[pos + 1..pos + 1 + len] == e.pattern
            && d[pos + 1 + len] == e.code && d[pos + 2 + len..] == rest
  {
    var tail, len := d[pos..], |e.pattern|;
    EntryParts(len, e.pattern, e.code, rest, tail);
    hide EntryBytes;
    assert d[pos] == tail[0];
    assert d[pos + 1..pos + 1 + len] == tail[1..1 + len];
    assert d[pos + 1 + len] == tail[1 + len];
    assert d[pos + 2 + len..] == tail[2 + len..];
  }

  lemma EntryParts(len: byte, p: seq<byte>, code: byte, rest: seq<byte>, all: seq<byte>)
    requires all == [len] + p + [code] + rest
    ensures |all| == |p| + |rest| + 2
    ensures all[0] == len && all[1..1 + |p|] == p && all[1 + |p|] == code && all[2 + |p|..] == rest
  {
  }

  lemma {:induction false} ReadWrittenEntries(d: seq<byte>, pos: nat, es: seq<Entry>)
    requires forall e :: e in es ==> 2 <= |e.pattern| <= MAX_PATTERN
    requires pos <= |d| && d[pos..] == EntriesBytes(es)
    ensures ReadEntriesFrom(d, pos, |es|) == Parsed(es)
    decreases |es|
  {
    if |es| > 0 {
      hide EntryBytes;
      var rest, next := es[1..], pos + 2 + |es[0].pattern|;
      EntrySlices(d, pos, es[0], EntriesBytes(rest));
      ReadWrittenEntries(d, next, rest);
      FirstEntry(d, pos, es[0], Parsed(rest), |es|);
      assert es == [es[0]] + rest;
    }
  }

  lemma FirstEntry(d: seq<byte>, pos: nat, e: Entry, rest: Parsed, n: nat)
    requires n > 0 && |e.pattern| <= MAX_PATTERN && pos + 2 + |e.pattern| <= |d| && rest.Parsed?
    requires d[pos] == |e.pattern| && d[pos + 1..pos + 1 + |e.pattern|] == e.pattern
             && d[pos + 1 + |e.pattern|] == e.code
    requires ReadEntriesFrom(d, pos + 2 + |e.pattern|, n - 1) == rest
    ensures ReadEntriesFrom(d, pos, n) == Parsed([e] + rest.entries)
  {
  }

  /** The code book survives its own serialisation. */
  lemma GenomeRoundTrip(g: Genome)
    requires Usable(g)
    ensures Deserialize(Serialize(g)) == GoodGenome(g)
  {
    hide LE, FromLE, EntriesBytes;
    var d := Serialize(g);
    assert d[1..3] == LE(|g.entries|, 2) && d[3..] == EntriesBytes(g.entries);
    U16RoundTrip(|g.entries|);
    ReadWrittenEntries(d, 3, g.entries);
  }

  // ----------------------------------------------------------------- methods

  lemma ModAdd(x: nat, y: nat, m: nat)
    requires 0 < m
    ensures (x % m + y) % m == (x + y) % m
  {
    DivModDef(x, m);
    ModAddMultiple(x % m + y, m, x / m);
  }

  method CountBytes(data: seq<byte>) returns (freq: seq<nat>)
    ensures freq == Histogram(data)
  {
    freq := NoCounts();
    for i := 0 to |data|
      invariant |freq| == SYMBOLS && forall k :: 0 <= k < SYMBOLS ==> freq[k] == Counts(data[..i])[k] % U32
    {
      assert data[..i + 1][..i] == data[..i];
      ModAdd(Counts(data[..i])[data[i]], 1, U32);
      freq := freq[data[i] := (freq[data[i]] + 1) % U32];
    }
    assert data[..|data|] == data;
  }

  /** `build_genome` once the candidates are counted and sorted. */
  method SelectGenome(data: seq<byte>, cs: seq<Candidate>) returns (g: Genome)
    requires forall c :: c in cs ==> |c.pattern| <= MAX_PATTERN
    ensures g == BuildGenome(data, cs) && Usable(g)
  {
    hide Sum;
    BuiltGenomeUsable(data, cs);
    if |data| < 4 { return NoGenome; }
    var freq := CountBytes(data);
    var escape := 0;
    for i := 1 to SYMBOLS
      invariant 0 <= escape < i && escape == LeastFrequent(freq, i)
    {
      if freq[i] < freq[escape] { escape := i; }
    }
    var limit := if |cs| < MAX_ENTRIES then |cs| else MAX_ENTRIES;
    var entries: seq<Entry> := [];
    for i := 0 to limit
      invariant |entries| <= i && entries == Select(cs[..i])
    {
      assert cs[..i + 1][..i] == cs[..i];
      if Worthwhile(cs[i]) { entries := entries + [Entry(cs[i].pattern, |entries|)]; }
    }
    g := Genome(escape, entries);
  }

  /** The hash tables of `encode`, one per pattern length. */
  method BuildLookup(g: Genome, hash: seq<byte> -> nat) returns (lookup: seq<map<nat, nat>>)
    requires Usable(g)
    ensures |lookup| == MAX_PATTERN + 1
    ensures forall len, h :: 0 <= len <= MAX_PATTERN && 0 <= h ==>
              Slot(g, hash, len, h, |g.entries|) == if h in lookup[len] then lookup[len][h] else -1
  {
    lookup := seq(MAX_PATTERN + 1, _ => map[]);
    for e := 0 to |g.entries|
      invariant |lookup| == MAX_PATTERN + 1
      invariant forall len, h :: 0 <= len <= MAX_PATTERN && 0 <= h ==>
                  Slot(g, hash, len, h, e) == if h in lookup[len] then lookup[len][h] else -1
    {
      var p := g.entries[e].pattern;
      var table: map<nat, nat> := lookup[|p|];
      table := table[hash(p) := e];
      lookup := lookup[|p| := table];
    }
  }

  /** `encode`. */
  method EncodePatterns(g: Genome, hash: seq<byte> -> nat, data: seq<byte>) returns (out: seq<byte>)
    requires Usable(g)
    ensures out == Encode(g, hash, data)
  {
    hide MatchAt, Slot, LongestPattern, LiteralBytes, Item, EncodeFrom;
    out := [];
    var i := 0;
    Nothing(EncodeFrom(g, hash, data, 0));
    if |g.entries| == 0 {
      while i < |data|
        invariant 0 <= i <= |data|
        invariant out + EncodeFrom(g, hash, data, i) == Encode(g, hash, data)
      {
        LiteralItem(g, hash, data, i);
        EncodeMore(g, hash, data, i, out);
        out := out + LiteralBytes(g, data[i]);
        i := i + 1;
      }
      EncodeEnds(g, hash, data, out);
      return;
    }
    var lookup := BuildLookup(g, hash);
    var maxLen := FindLongest(g);
    hide Usable;
    while i < |data|
      invariant 0 <= i <= |data|
      invariant out + EncodeFrom(g, hash, data, i) == Encode(g, hash, data)
      decreases |data| - i
    {
      var e := FindEntry(g, hash, lookup, data, i, maxLen);
      ItemOf(g, hash, data, i, e);
      EncodeMore(g, hash, data, i, out);
      if e >= 0 {
        out := out + [g.escape, g.entries[e].code];
        i := i + |g.entries[e].pattern|;
      } else {
        out := out + LiteralBytes(g, data[i]);
        i := i + 1;
      }
    }
    EncodeEnds(g, hash, data, out);
  }

  lemma Nothing(rest: seq<byte>)
    ensures [] + rest == rest
  {
  }

  /** What is written for one item moves from what is to come to what is there. */
  lemma EncodeMore(g: Genome, hash: seq<byte> -> nat, data: seq<byte>, i: nat, out: seq<byte>)
    requires i < |data|
    ensures var (item, n) := Item(g, hash, data, i);
            out + EncodeFrom(g, hash, data, i) == (out + item) + EncodeFrom(g, hash, data, i + n)
  {
    hide Item;
    var (item, n) := Item(g, hash, data, i);
    Assoc(out, item, EncodeFrom(g, hash, data, i + n));
  }

  lemma EncodeEnds(g: Genome, hash: seq<byte> -> nat, data: seq<byte>, out: seq<byte>)
    ensures out + EncodeFrom(g, hash, data, |data|) == out
  {
  }

  lemma LiteralItem(g: Genome, hash: seq<byte> -> nat, data: seq<byte>, i: nat)
    requires i < |data| && |g.entries| == 0
    ensures Item(g, hash, data, i) == (LiteralBytes(g, data[i]), 1)
  {
  }

  lemma ItemOf(g: Genome, hash: seq<byte> -> nat, data: seq<byte>, i: nat, e: int)
    requires i < |data| && |g.entries| > 0 && e == MatchAt(g, hash, data, i, LongestPattern(g, |g.entries|))
    ensures Item(g, hash, data, i) == if e >= 0 then ([g.escape, g.entries[e].code], |g.entries[e].pattern|)
                                      else (LiteralBytes(g, data[i]), 1)
  {
    hide MatchAt;
  }

  method FindLongest(g: Genome) returns (m: nat)
    requires Usable(g)
    ensures m == LongestPattern(g, |g.entries|) && m <= MAX_PATTERN
  {
    m := 2;
    for e := 0 to |g.entries|
      invariant m == LongestPattern(g, e) && m <= MAX_PATTERN
    {
      if |g.entries[e].pattern| > m { m := |g.entries[e].pattern|; }
    }
  }

  /** The inner search: longest pattern first, exact bytes required. */
  method FindEntry(g: Genome, hash: seq<byte> -> nat, lookup: seq<map<nat, nat>>, data: seq<byte>, i: nat, maxLen: nat)
    returns (e: int)
    requires i < |data| && maxLen <= MAX_PATTERN && |lookup| == MAX_PATTERN + 1
    requires forall len, h :: 0 <= len <= MAX_PATTERN && 0 <= h ==>
               Slot(g, hash, len, h, |g.entries|) == if h in lookup[len] then lookup[len][h] else -1
    ensures e == MatchAt(g, hash, data, i, maxLen)
  {
    hide Slot;
    var len := maxLen;
    while len >= 2
      invariant 0 <= len <= maxLen
      invariant MatchAt(g, hash, data, i, len) == MatchAt(g, hash, data, i, maxLen)
    {
      if i + len <= |data| {
        var h := hash(data[i..i + len]);
        assert Slot(g, hash, len, h, |g.entries|) == if h in lookup[len] then lookup[len][h] else -1;
        if h in lookup[len] {
          var idx := lookup[len][h];
          if data[i..i + len] == g.entries[idx].pattern { return idx; }
        }
      }
      len := len - 1;
    }
    e := -1;
  }

  /** `decode`, on every byte string and any genome. */
  method DecodePatterns(g: Genome, d: seq<byte>) returns (out: seq<byte>)
    ensures out == Decode(g, d)
  {
    hide Escaped, DecodeFrom;
    var codeToEntry := BuildCodeTable(g);
    out := [];
    var i := 0;
    Nothing(DecodeFrom(g, d, 0));
    while i < |d|
      invariant 0 <= i <= |d|
      invariant out + DecodeFrom(g, d, i) == Decode(g, d)
      decreases |d| - i
    {
      DecodeMore(g, d, i, out);
      if d[i] == g.escape {
        i := i + 1;
        if i >= |d| {
          assert out + [] == out;
          break;
        }
        var bytes := Expand(g, codeToEntry, d[i]);
        out := out + bytes;
        i := i + 1;
      } else {
        out := out + [d[i]];
        i := i + 1;
      }
    }
    DecodeEnds(g, d, out);
  }

  lemma DecodeMore(g: Genome, d: seq<byte>, i: nat, out: seq<byte>)
    requires i < |d|
    ensures var (item, n) := DecodedItem(g, d, i);
            out + DecodeFrom(g, d, i) == (out + item) + DecodeFrom(g, d, i + n)
  {
    hide DecodedItem;
    var (item, n) := DecodedItem(g, d, i);
    Assoc(out, item, DecodeFrom(g, d, i + n));
  }

  lemma DecodeEnds(g: Genome, d: seq<byte>, out: seq<byte>)
    ensures out + DecodeFrom(g, d, |d|) == out
  {
  }

  method Expand(g: Genome, codeToEntry: seq<int>, code: byte) returns (bytes: seq<byte>)
    requires |codeToEntry| == 256 && codeToEntry[code] == EntryOf(g, code, |g.entries|)
    ensures bytes == Escaped(g, code)
  {
    if code == LITERAL_ESCAPE { return [g.escape]; }
    var e := codeToEntry[code];
    bytes := if e >= 0 then g.entries[e].pattern else [g.escape, code];
  }

  method BuildCodeTable(g: Genome) returns (t: seq<int>)
    ensures |t| == 256 && forall c: byte :: t[c] == EntryOf(g, c, |g.entries|)
  {
    var a := new int[256](_ => -1);
    for e := 0 to |g.entries|
      invariant forall c: byte :: a[c] == EntryOf(g, c, e)
    {
      a[g.entries[e].code] := e;
    }
    t := a[..];
  }
}
