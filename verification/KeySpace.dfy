/** The block ids of the shared store. */
module KeySpace {
  // Every component puts its own tag and a colon in front
  // (mdc/src/mdc/index/object_index.py, mdc/src/mdc/dna/storage.py,
  // mdc/src/mdc/storage_intelligence/router.py, mdc/src/mdc/events/store.py).

  function Tagged(tag: string, rest: string): string {
    tag + ":" + rest
  }

  predicate NoColon(s: string) {
    forall i :: 0 <= i < |s| ==> s[i] != ':'
  }

  /** A tagged key tells its tag and its rest. */
  lemma TaggedInjective(tag1: string, rest1: string, tag2: string, rest2: string)
    requires NoColon(tag1) && NoColon(tag2) && Tagged(tag1, rest1) == Tagged(tag2, rest2)
    ensures tag1 == tag2 && rest1 == rest2
  {
    var k := Tagged(tag1, rest1);
    assert k[|tag1|] == ':' && k[|tag2|] == ':';
    assert forall i :: 0 <= i < |tag1| ==> k[i] == tag1[i];
    assert forall i :: 0 <= i < |tag2| ==> k[i] == tag2[i];
    assert |tag1| == |tag2|;
    assert tag1 == k[..|tag1|] == tag2;
    assert rest1 == k[|tag1| + 1..] == rest2;
  }

  // ------------------------------------------------------------ event block ids

  function Digit(n: nat): char
    requires n < 10
  {
    '0' + n as char
  }

  /** `n` in decimal, in at least `width` digits. */
  function Decimal(n: nat, width: nat): (s: string)
    ensures |s| >= width
    decreases n, width
  {
    if n == 0 && width == 0 then ""
    else if n == 0 then Decimal(0, width - 1) + ['0']
    else Decimal(n / 10, if width == 0 then 0 else width - 1) + [Digit(n % 10)]
  }

  function ReadDecimal(s: string): nat
    requires forall i :: 0 <= i < |s| ==> '0' <= s[i] <= '9'
  {
    if |s| == 0 then 0 else ReadDecimal(s[..|s| - 1]) * 10 + (s[|s| - 1] as nat - '0' as nat)
  }

  /** `_seq_of` undoes the padding of an event id. */
  lemma {:induction false} DecimalReadsBack(n: nat, width: nat)
    ensures forall i :: 0 <= i < |Decimal(n, width)| ==> '0' <= Decimal(n, width)[i] <= '9'
    ensures ReadDecimal(Decimal(n, width)) == n
    decreases n, width
  {
    var s := Decimal(n, width);
    if n == 0 && width > 0 {
      DecimalReadsBack(0, width - 1);
      assert s[..|s| - 1] == Decimal(0, width - 1);
    } else if n > 0 {
      var w := if width == 0 then 0 else width - 1;
      DecimalReadsBack(n / 10, w);
      assert s[..|s| - 1] == Decimal(n / 10, w);
    }
  }

  const SEQ_DIGITS := 12

  /** `_event_id` and `_snapshot_id`. */
  function EventKey(snapshot: bool, stream: string, n: nat): string {
    Tagged(if snapshot then "snp" else "evt", Tagged(stream, Decimal(n, SEQ_DIGITS)))
  }

  /** Two records share a block id only if they are the same record: stream ids
      have no colon. */
  lemma EventKeysDiffer(snap1: bool, s1: string, n1: nat, snap2: bool, s2: string, n2: nat)
    requires NoColon(s1) && NoColon(s2) && EventKey(snap1, s1, n1) == EventKey(snap2, s2, n2)
    ensures snap1 == snap2 && s1 == s2 && n1 == n2
  {
    hide Decimal, Tagged;
    TaggedInjective(if snap1 then "snp" else "evt", Tagged(s1, Decimal(n1, SEQ_DIGITS)),
                    if snap2 then "snp" else "evt", Tagged(s2, Decimal(n2, SEQ_DIGITS)));
    TagsDiffer();
    TaggedInjective(s1, Decimal(n1, SEQ_DIGITS), s2, Decimal(n2, SEQ_DIGITS));
    DecimalReadsBack(n1, SEQ_DIGITS);
    DecimalReadsBack(n2, SEQ_DIGITS);
  }

  lemma TagsDiffer()
    ensures "evt" != "snp" && NoColon("evt") && NoColon("snp")
  {
    assert "evt"[0] == 'e' && "snp"[0] == 's';
  }

  // --------------------------------------------------------- objects and archive

  datatype DataType =
    | DatabaseRecord | Tabular | AiModel | Tensor | Image | Video | Audio
    | Document | TextFile | LogFile | TimeSeries | Binary | ArchiveFile | Unknown

  function TypeName(t: DataType): string {
    match t
    case DatabaseRecord => "DATABASE_RECORD"
    case Tabular => "TABULAR"
    case AiModel => "AI_MODEL"
    case Tensor => "TENSOR"
    case Image => "IMAGE"
    case Video => "VIDEO"
    case Audio => "AUDIO"
    case Document => "DOCUMENT"
    case TextFile => "TEXT"
    case LogFile => "LOG"
    case TimeSeries => "TIME_SERIES"
    case Binary => "BINARY"
    case ArchiveFile => "ARCHIVE"
    case Unknown => "UNKNOWN"
  }

  function Location(t: DataType, id: string): string {
    Tagged(TypeName(t), id)
  }

  function IndexKey(id: string): string {
    Tagged("__index__", id)
  }

  function ArchiveKey(block: string): string {
    Tagged("dna", block)
  }

  /** Type names start in upper case and hold no colon. */
  lemma TypeNames(t: DataType)
    ensures NoColon(TypeName(t)) && TypeName(t) != "" && 'A' <= TypeName(t)[0] <= 'Z'
  {
  }

  lemma TypeNamesDiffer(t: DataType, u: DataType)
    requires TypeName(t) == TypeName(u)
    ensures t == u
  {
    var s, r := TypeName(t), TypeName(u);
    assert |s| == |r| && s[0] == r[0] && (|s| > 1 ==> s[1] == r[1]);
  }

  lemma LocationsDiffer(t: DataType, id: string, u: DataType, other: string)
    requires Location(t, id) == Location(u, other)
    ensures t == u && id == other
  {
    hide TypeName;
    TypeNames(t);
    TypeNames(u);
    TaggedInjective(TypeName(t), id, TypeName(u), other);
    TypeNamesDiffer(t, u);
  }

  lemma IndexKeysDiffer(a: string, b: string)
    requires IndexKey(a) == IndexKey(b)
    ensures a == b
  {
    TaggedInjective("__index__", a, "__index__", b);
  }

  lemma ArchiveKeysDiffer(a: string, b: string)
    requires ArchiveKey(a) == ArchiveKey(b)
    ensures a == b
  {
    TaggedInjective("dna", a, "dna", b);
  }

  /** Where the event store keeps its key check. */
  const CHECK_KEY := "keycheck:events"

  /** Object content, index entries, archive blocks, event records and the key check
      never meet in the shared store, whatever the object ids are. */
  lemma KeySpacesDisjoint(t: DataType, id: string, other: string, block: string, snap: bool, stream: string, n: nat)
    ensures Location(t, id) != IndexKey(other) && Location(t, id) != ArchiveKey(block)
            && IndexKey(other) != ArchiveKey(block)
    ensures EventKey(snap, stream, n) !in {Location(t, id), IndexKey(other), ArchiveKey(block), CHECK_KEY}
    ensures CHECK_KEY !in {Location(t, id), IndexKey(other), ArchiveKey(block)}
  {
    hide TypeName, Decimal;
    TypeNames(t);
    var loc, ix, ar, ev := Location(t, id), IndexKey(other), ArchiveKey(block), EventKey(snap, stream, n);
    assert loc[0] == TypeName(t)[0] && ix[0] == '_' && ar[0] == 'd';
    assert ev[0] == (if snap then 's' else 'e');
    assert CHECK_KEY[0] == 'k';
  }
}
