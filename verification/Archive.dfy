/** The encrypted archive tier. */
module Archive {
  // The packed form of a block, put, get, delete, the index loaded at start, and
  // key rotation (mdc/src/mdc/dna/storage.py), over the durable store it shares
  // with everything else. Encryption is an ideal cipher without associated data;
  // error correction is an arbitrary vote that agrees with equal copies.

  import opened Bytes
  import opened Listings
  import opened KeySpace
  import opened MasterKeys
  import opened Outcomes

  type Data = seq<byte>

  /** `encrypt` takes the random nonce as an argument. */
  datatype Cipher = Cipher(encrypt: (Master, nat, Data) -> Data, decrypt: (Master, Data) -> Option<Data>)

  /** Among the keys in play, what is written decrypts under its key and under no
      other, and grows by a nonce and a tag. (Over all keys there are not enough
      ciphertexts of one length for that.) */
  ghost predicate Ideal(c: Cipher, keys: set<Master>) {
    forall k, n, p :: k in keys ==>
      && c.decrypt(k, c.encrypt(k, n, p)) == Some(p) && |c.encrypt(k, n, p)| == |p| + 28
      && forall other :: other in keys && other != k ==> c.decrypt(other, c.encrypt(k, n, p)) == None
  }

  /** The backend's settings: its cipher, how many copies it writes, how copies
      are voted on, and how the older JSON form of a block is read. */
  datatype Settings = Settings(cipher: Cipher, copies: nat, vote: seq<Data> -> Option<Data>, legacy: Data -> Option<seq<Data>>)

  /** A vote among `n` equal copies returns what they hold. */
  ghost predicate Faithful(vote: seq<Data> -> Option<Data>, n: nat) {
    forall d :: vote(Repeat(d, n)) == Some(d)
  }

  /** The repetition code refuses even counts; with one copy there is no vote. */
  ghost predicate Sane(s: Settings, keys: set<Master>) {
    Ideal(s.cipher, keys) && s.copies % 2 == 1 && s.copies <= 255 && (s.copies > 1 ==> Faithful(s.vote, s.copies))
  }

  /** A cipher for the keys in `names`: it appends 28 bytes saying which one. */
  function TagCipher(names: seq<Master>): Cipher {
    Cipher((k: Master, n, p) => p + Tag(names, k),
           (k: Master, c) => if |c| >= 28 && c[|c| - 28..] == Tag(names, k) then Some(c[..|c| - 28]) else None)
  }

  function Tag(names: seq<Master>, k: Master): (t: Data)
    ensures |t| == 28 && t[0] == PlaceOf(names, k) % 256
  {
    [PlaceOf(names, k) % 256] + seq(27, _ => 0)
  }

  function PlaceOf(names: seq<Master>, k: Master): (i: nat)
    ensures k in names ==> i < |names| && names[i] == k
  {
    if |names| == 0 || names[0] == k then 0 else 1 + PlaceOf(names[1..], k)
  }

  /** The assumptions can be met, for any 256 keys at once and any number of copies
      the backend accepts. */
  lemma SaneSettings(names: seq<Master>, copies: nat) returns (s: Settings)
    requires |names| <= 256 && copies % 2 == 1 && copies <= 255
    ensures Sane(s, set k | k in names) && s.copies == copies
  {
    s := Settings(TagCipher(names), copies, cs => if |cs| > 0 then Some(cs[0]) else None, _ => None);
    forall k, n: nat, p: Data | k in names
      ensures s.cipher.decrypt(k, s.cipher.encrypt(k, n, p)) == Some(p) && |s.cipher.encrypt(k, n, p)| == |p| + 28
      ensures forall other :: other in names && other != k ==> s.cipher.decrypt(other, s.cipher.encrypt(k, n, p)) == None
    {
      TagReads(names, k, p);
      forall other | other in names && other != k ensures Tag(names, other) != Tag(names, k) {
        assert Tag(names, other)[0] != Tag(names, k)[0];
      }
    }
    assert forall d :: s.vote(Repeat(d, copies)) == Some(d);
  }

  lemma TagReads(names: seq<Master>, k: Master, p: Data)
    ensures (p + Tag(names, k))[..|p|] == p && (p + Tag(names, k))[|p|..] == Tag(names, k)
  {
  }

  function Repeat(d: Data, n: nat): (r: seq<Data>)
    ensures |r| == n
  {
    seq(n, _ => d)
  }

  datatype Problem = Missing | Undecryptable | Damaged | TooLarge | SameKey

  // ------------------------------------------------------------- packed blocks

  const PACK_MAGIC: Data := [0x4D, 0x44, 0x43, 0x44, 0x31]
  const HEADER := 10

  /** A 32-bit number, most significant byte first. */
  function BigEndian(v: nat): (s: Data)
    ensures |s| == 4
  {
    [v / 0x100_0000 % 256, v / 0x1_0000 % 256, v / 0x100 % 256, v % 256]
  }

  function FromBigEndian(s: Data): nat
    requires |s| == 4
  {
    var a: nat, b: nat, c: nat, d: nat := s[0], s[1], s[2], s[3];
    a * 0x100_0000 + b * 0x1_0000 + c * 0x100 + d
  }

  lemma BigEndianReadsBack(v: nat)
    requires v < U32
    ensures FromBigEndian(BigEndian(v)) == v
  {
  }

  function Join(copies: seq<Data>): Data
  {
    if |copies| == 0 then [] else copies[0] + Join(copies[1..])
  }

  /** `_pack`; a count or length that its field cannot hold is an error. */
  function Pack(copies: seq<Data>): Result<Data, Problem>
    requires |copies| > 0
  {
    if |copies| > 255 || |copies[0]| >= U32 then Err(TooLarge)
    else Ok(PACK_MAGIC + [|copies|] + BigEndian(|copies[0]|) + Join(copies))
  }

  /** `body[i * length : (i + 1) * length]` for each of `n` copies. */
  function Split(body: Data, n: nat, length: nat): seq<Data>
    requires |body| == Times(n, length)
    decreases n
  {
    if n == 0 then []
    else
      TimesFirst(n, length);
      [body[..length]] + Split(body[length..], n - 1, length)
  }

  lemma TimesFirst(n: nat, m: nat)
    requires n > 0
    ensures Times(n, m) == m + Times(n - 1, m)
  {
    MulDistributes(m, n - 1, 1);
  }

  /** `_unpack`, on any bytes: a damaged header is an error, and anything without
      the magic is taken for the older form. */
  function Unpack(s: Settings, blob: Data): Result<seq<Data>, Problem> {
    if |blob| >= 5 && blob[..5] == PACK_MAGIC then
      if |blob| < HEADER then Err(Damaged)
      else
        var count: nat := blob[5];
        var length, body := FromBigEndian(blob[6..HEADER]), blob[HEADER..];
        if count < 1 || |body| != Times(count, length) then Err(Damaged) else Ok(Split(body, count, length))
    else
      var letters := s.legacy(blob);
      if letters.None? then Err(Damaged) else Ok(letters.value)
  }

  ghost predicate EqualLengths(copies: seq<Data>) {
    forall i :: 0 <= i < |copies| ==> |copies[i]| == |copies[0]|
  }

  lemma {:induction false} JoinLength(copies: seq<Data>, length: nat)
    requires forall i :: 0 <= i < |copies| ==> |copies[i]| == length
    ensures |Join(copies)| == Times(|copies|, length)
  {
    if |copies| > 0 {
      JoinLength(copies[1..], length);
      TimesFirst(|copies|, length);
    }
  }

  lemma {:induction false} SplitJoin(copies: seq<Data>, length: nat)
    requires forall i :: 0 <= i < |copies| ==> |copies[i]| == length
    requires |Join(copies)| == Times(|copies|, length)
    ensures Split(Join(copies), |copies|, length) == copies
  {
    if |copies| > 0 {
      TimesFirst(|copies|, length);
      JoinLength(copies[1..], length);
      assert Join(copies)[..length] == copies[0] && Join(copies)[length..] == Join(copies[1..]);
      SplitJoin(copies[1..], length);
      assert copies == [copies[0]] + copies[1..];
    }
  }

  lemma {:induction false} SplitLengths(body: Data, n: nat, length: nat)
    requires |body| == Times(n, length)
    ensures |Split(body, n, length)| == n && forall i :: 0 <= i < n ==> |Split(body, n, length)[i]| == length
    decreases n
  {
    if n > 0 {
      TimesFirst(n, length);
      SplitLengths(body[length..], n - 1, length);
    }
  }

  /** A packed block reads back exactly when its copies have one length. */
  lemma PackRoundTripIff(s: Settings, copies: seq<Data>)
    requires |copies| > 0 && Pack(copies).Ok?
    ensures Unpack(s, Pack(copies).value) == Ok(copies) <==> EqualLengths(copies)
  {
    hide BigEndian, FromBigEndian, Times, Split, Join;
    var blob, n := Pack(copies).value, |copies|;
    assert blob[..5] == PACK_MAGIC && blob[5] == n;
    assert blob[6..HEADER] == BigEndian(|copies[0]|) && blob[HEADER..] == Join(copies);
    BigEndianReadsBack(|copies[0]|);
    if EqualLengths(copies) {
      JoinLength(copies, |copies[0]|);
      SplitJoin(copies, |copies[0]|);
    } else if |Join(copies)| == Times(n, |copies[0]|) {
      SplitLengths(Join(copies), n, |copies[0]|);
    }
  }

  // ------------------------------------------------------------ the shared store

  /** What the router records about an object. */
  datatype Tier = Hot | Warm | Cold | Archived
  datatype Compression = Uncompressed | Zlib | Gzip | Lz4 | Zstd
  datatype IndexEntry = IndexEntry(objectId: string, objectType: DataType, tier: Tier, location: string, size: nat,
                                   checksum: nat, compression: Compression)

  /** Rows of the durable store: plain content, index entries, and archive blocks,
      which carry the mark and the block id as metadata. */
  datatype Row = Content(data: Data) | IndexRow(entry: IndexEntry) | ArchiveRow(blob: Data, block: string)

  type Rows = map<string, Row>

  /** `_put` into the durable store. */
  function PutBlock(s: Settings, rows: Rows, key: Master, nonce: nat, block: string, payload: Data): Result<Rows,
                    Problem>
    requires s.copies > 0
  {
    var packed :- Pack(Repeat(s.cipher.encrypt(key, nonce, payload), s.copies));
    Ok(rows[ArchiveKey(block) := ArchiveRow(packed, block)])
  }

  /** `_read`: unpack, vote if there are several copies, decrypt. */
  function ReadBlob(s: Settings, key: Master, blob: Data): Result<Data, Problem> {
    var copies :- Unpack(s, blob);
    var voted := if |copies| == 1 then Some(copies[0]) else s.vote(copies);
    if voted.None? then Err(Missing)
    else
      var plain := s.cipher.decrypt(key, voted.value);
      if plain.None? then Err(Undecryptable) else Ok(plain.value)
  }

  function ReadBlock(s: Settings, rows: Rows, key: Master, block: string): Result<Data, Problem> {
    if ArchiveKey(block) !in rows || !rows[ArchiveKey(block)].ArchiveRow? then Err(Missing)
    else ReadBlob(s, key, rows[ArchiveKey(block)].blob)
  }

  /** `get`: only blocks in the index are looked up. */
  function GetBlock(s: Settings, rows: Rows, index: set<string>, key: Master, block: string): Result<Data, Problem> {
    if block !in index then Err(Missing) else ReadBlock(s, rows, key, block)
  }

  /** `_load_index`. */
  function LoadIndex(rows: Rows): set<string> {
    set k | k in rows && rows[k].ArchiveRow? :: rows[k].block
  }

  /** The bytes `_put` writes for a payload. */
  function Written(s: Settings, key: Master, nonce: nat, payload: Data): Data
    requires 1 <= s.copies <= 255 && |s.cipher.encrypt(key, nonce, payload)| < U32
  {
    Pack(Repeat(s.cipher.encrypt(key, nonce, payload), s.copies)).value
  }

  /** A block reads back as what was put, under its key and no other. */
  lemma WrittenReads(s: Settings, key: Master, other: Master, nonce: nat, payload: Data)
    requires Sane(s, {key, other}) && |payload| + 28 < U32
    ensures |s.cipher.encrypt(key, nonce, payload)| < U32
    ensures ReadBlob(s, other, Written(s, key, nonce, payload)) == if other == key then Ok(payload) else Err(Undecryptable)
  {
    hide Unpack, Pack;
    CipherLaws(s, key, other, nonce, payload);
    var c := s.cipher.encrypt(key, nonce, payload);
    PackFits(c, s.copies);
    PackRoundTripIff(s, Repeat(c, s.copies));
    VoteLaw(s, {key, other}, c);
  }

  lemma CipherLaws(s: Settings, key: Master, other: Master, nonce: nat, payload: Data)
    requires Sane(s, {key, other})
    ensures var c := s.cipher.encrypt(key, nonce, payload);
            |c| == |payload| + 28 && s.cipher.decrypt(other, c) == if other == key then Some(payload) else None
  {
  }

  lemma VoteLaw(s: Settings, keys: set<Master>, d: Data)
    requires Sane(s, keys)
    ensures s.copies > 1 ==> s.vote(Repeat(d, s.copies)) == Some(d)
  {
  }

  lemma PackFits(d: Data, n: nat)
    requires 1 <= n <= 255
    ensures Pack(Repeat(d, n)).Ok? <==> |d| < U32
  {
  }

  // ------------------------------------------------------------------ rotation

  datatype Job = Job(block: string, payload: Data)
  datatype Plan = Plan(jobs: seq<Job>, already: nat)

  /** Every block decrypted in memory; what fails only to decrypt under the old key
      has to decrypt under the new one. */
  function PlanFor(s: Settings, rows: Rows, before: Master, after: Master, order: seq<string>): Result<Plan, Problem>
  {
    if |order| == 0 then Ok(Plan([], 0))
    else
      var p :- PlanFor(s, rows, before, after, order[..|order| - 1]);
      var block := order[|order| - 1];
      var r := ReadBlock(s, rows, before, block);
      if r.Ok? then Ok(Plan(p.jobs + [Job(block, r.value)], p.already))
      else if r.error != Undecryptable && r.error != Damaged then Err(r.error)
      else
        var again := ReadBlock(s, rows, after, block);
        if again.Err? then Err(again.error) else Ok(Plan(p.jobs, p.already + 1))
  }

  /** The writes of the first `k` jobs. */
  function Reencrypt(s: Settings, rows: Rows, key: Master, nonces: nat -> nat, jobs: seq<Job>, k: nat): Result<Rows,
                     Problem>
    requires k <= |jobs| && s.copies > 0
    decreases k
  {
    if k == 0 then Ok(rows)
    else
      var r :- Reencrypt(s, rows, key, nonces, jobs, k - 1);
      PutBlock(s, r, key, nonces(k - 1), jobs[k - 1].block, jobs[k - 1].payload)
  }

  /** What the archive means: a payload per block. */
  type Contents = map<string, Data>

  /** Of the keys in play only `key` reads the block, as `payload`. */
  ghost predicate Under(s: Settings, rows: Rows, keys: set<Master>, key: Master, block: string, payload: Data) {
    ArchiveKey(block) in rows && rows[ArchiveKey(block)].ArchiveRow? && rows[ArchiveKey(block)].block == block
    && ReadBlock(s, rows, key, block) == Ok(payload)
    && forall other :: other in keys && other != key ==> ReadBlock(s, rows, other, block) == Err(Undecryptable)
  }

  /** Every archive row is a block of `contents`, readable under `key`. */
  ghost predicate Archives(s: Settings, rows: Rows, keys: set<Master>, key: Master, contents: Contents) {
    && LoadIndex(rows) == contents.Keys
    && forall b :: b in contents ==> |contents[b]| + 28 < U32 && Under(s, rows, keys, key, b, contents[b])
  }

  /** Between two keys: every block is under one of them, with its payload. */
  ghost predicate Between(s: Settings, rows: Rows, keys: set<Master>, before: Master, after: Master,
                          contents: Contents) {
    && {before, after} <= keys && LoadIndex(rows) == contents.Keys
    && forall b :: b in contents ==>
         |contents[b]| + 28 < U32 && (Under(s, rows, keys, before, b, contents[b])
           || Under(s, rows, keys, after, b, contents[b]))
  }

  lemma PutUnder(s: Settings, rows: Rows, keys: set<Master>, key: Master, nonce: nat, block: string, payload: Data)
    requires Sane(s, keys) && key in keys && |payload| + 28 < U32
    ensures var r := PutBlock(s, rows, key, nonce, block, payload);
            && r.Ok? && Under(s, r.value, keys, key, block, payload)
            && |s.cipher.encrypt(key, nonce, payload)| < U32
            && r.value == rows[ArchiveKey(block) := ArchiveRow(Written(s, key, nonce, payload), block)]
            && (forall k :: k != ArchiveKey(block) ==> (k in r.value <==> k in rows) && (k in rows ==> r.value[k] == rows[k]))
  {
    hide Pack, ReadBlob, Sane;
    SaneCopies(s, keys);
    SaneFewer(s, keys, {key, key});
    WrittenReads(s, key, key, nonce, payload);
    PackFits(s.cipher.encrypt(key, nonce, payload), s.copies);
    forall other | other in keys && other != key
      ensures ReadBlob(s, other, Written(s, key, nonce, payload)) == Err(Undecryptable)
    {
      SaneFewer(s, keys, {key, other});
      WrittenReads(s, key, other, nonce, payload);
    }
  }

  lemma SaneFewer(s: Settings, keys: set<Master>, fewer: set<Master>)
    requires Sane(s, keys) && fewer <= keys
    ensures Sane(s, fewer)
  {
  }

  lemma SaneCopies(s: Settings, keys: set<Master>)
    requires Sane(s, keys)
    ensures 1 <= s.copies <= 255
  {
  }

  /** Another block is not affected. */
  lemma UnderElsewhere(s: Settings, rows: Rows, keys: set<Master>, key: Master, block: string, payload: Data, row: Row,
                       k: string)
    requires Under(s, rows, keys, key, block, payload) && k != ArchiveKey(block)
    ensures Under(s, rows[k := row], keys, key, block, payload)
  {
    hide ReadBlob, ArchiveKey;
    var next := rows[k := row];
    forall other | other in keys && other != key ensures ReadBlock(s, next, other, block) == Err(Undecryptable) {
      assert ReadBlock(s, rows, other, block) == Err(Undecryptable);
    }
  }

  lemma PutKeepsBetween(s: Settings, rows: Rows, keys: set<Master>, before: Master, after: Master, contents: Contents,
                        nonce: nat, block: string)
    requires Sane(s, keys) && Between(s, rows, keys, before, after, contents) && block in contents
    ensures var r := PutBlock(s, rows, after, nonce, block, contents[block]);
            r.Ok? && Between(s, r.value, keys, before, after, contents)
              && Under(s, r.value, keys, after, block, contents[block])
            && forall b :: b in contents && Under(s, rows, keys, after, b, contents[b]) ==> Under(s, r.value, keys, after, b, contents[b])
  {
    hide PutBlock, Under, Sane, ArchiveKey;
    PutUnder(s, rows, keys, after, nonce, block, contents[block]);
    SaneCopies(s, keys);
    var r := PutBlock(s, rows, after, nonce, block, contents[block]).value;
    forall b | b in contents && b != block
      ensures Under(s, rows, keys, before, b, contents[b]) ==> Under(s, r, keys, before, b, contents[b])
      ensures Under(s, rows, keys, after, b, contents[b]) ==> Under(s, r, keys, after, b, contents[b])
    {
      if ArchiveKey(b) == ArchiveKey(block) { ArchiveKeysDiffer(b, block); }
      if Under(s, rows, keys, before, b, contents[b]) {
        UnderElsewhere(s, rows, keys, before, b, contents[b], r[ArchiveKey(block)], ArchiveKey(block));
      }
      if Under(s, rows, keys, after, b, contents[b]) {
        UnderElsewhere(s, rows, keys, after, b, contents[b], r[ArchiveKey(block)], ArchiveKey(block));
      }
    }
    RewriteKeepsIndex(s, rows, keys, before, after, contents, block, r[ArchiveKey(block)]);
  }

  lemma RewriteKeepsIndex(s: Settings, rows: Rows, keys: set<Master>, before: Master, after: Master, contents: Contents,
                          block: string, row: Row)
    requires Between(s, rows, keys, before, after, contents) && block in contents && row.ArchiveRow?
             && row.block == block
    ensures LoadIndex(rows[ArchiveKey(block) := row]) == contents.Keys
  {
    hide ReadBlock, ArchiveKey;
    var next := rows[ArchiveKey(block) := row];
    assert Under(s, rows, keys, before, block, contents[block]) || Under(s, rows, keys, after, block, contents[block]);
    forall b ensures b in LoadIndex(next) <==> b in LoadIndex(rows) {
      if b in LoadIndex(rows) {
        var k :| k in rows && rows[k].ArchiveRow? && rows[k].block == b;
        assert next[if k == ArchiveKey(block) then ArchiveKey(block) else k].block == b;
      }
      if b in LoadIndex(next) {
        var k :| k in next && next[k].ArchiveRow? && next[k].block == b;
        assert k in rows && rows[k].ArchiveRow? && rows[k].block == b;
      }
    }
  }

  lemma ReadBetween(s: Settings, rows: Rows, keys: set<Master>, before: Master, after: Master, contents: Contents,
                    b: string)
    requires Between(s, rows, keys, before, after, contents) && before != after && b in contents
    ensures var r := ReadBlock(s, rows, before, b);
            if Under(s, rows, keys, before, b, contents[b]) then r == Ok(contents[b])
            else r == Err(Undecryptable) && ReadBlock(s, rows, after, b) == Ok(contents[b])
  {
    hide ReadBlock;
  }

  /** The plan of a rotation over readable blocks: it never fails, and names
      exactly the blocks still under the old key, with their payloads. */
  lemma {:induction false} PlanWorks(s: Settings, rows: Rows, keys: set<Master>, before: Master, after: Master,
                                     contents: Contents, order: seq<string>)
    requires Between(s, rows, keys, before, after, contents) && before != after && forall b :: b in order ==> b in contents
    ensures var p := PlanFor(s, rows, before, after, order);
            && p.Ok?
            && (forall j :: 0 <= j < |p.value.jobs| ==> var job := p.value.jobs[j]; job.block in order && job.payload == contents[job.block])
            && (forall b :: b in order && !(exists j :: 0 <= j < |p.value.jobs| && p.value.jobs[j].block == b)
                            ==> Under(s, rows, keys, after, b, contents[b]))
            && |p.value.jobs| + p.value.already == |order|
  {
    hide Between, Under, ReadBlock;
    if |order| > 0 {
      var n := |order| - 1;
      var b := order[n];
      assert order == order[..n] + [b];
      PlanWorks(s, rows, keys, before, after, contents, order[..n]);
      ReadBetween(s, rows, keys, before, after, contents, b);
      EitherOne(s, rows, keys, before, after, contents, b);
      var p, q := PlanFor(s, rows, before, after, order[..n]).value, PlanFor(s, rows, before, after, order).value;
      assert forall j :: 0 <= j < |p.jobs| ==> q.jobs[j] == p.jobs[j];
      if Under(s, rows, keys, before, b, contents[b]) { assert q.jobs[|p.jobs|].block == b; }
    }
  }

  lemma EitherOne(s: Settings, rows: Rows, keys: set<Master>, before: Master, after: Master, contents: Contents,
                  b: string)
    requires Between(s, rows, keys, before, after, contents) && b in contents
    ensures Under(s, rows, keys, before, b, contents[b]) || Under(s, rows, keys, after, b, contents[b])
  {
    hide Under;
  }

  /** Stopping after any number of writes leaves every block under one of the keys;
      those written are under the new one. */
  lemma {:induction false} WritesKeepBetween(s: Settings, rows: Rows, keys: set<Master>, before: Master, after: Master,
                                             contents: Contents, nonces: nat -> nat, jobs: seq<Job>, k: nat)
    requires Sane(s, keys) && Between(s, rows, keys, before, after, contents) && k <= |jobs|
    requires forall j :: 0 <= j < |jobs| ==> jobs[j].block in contents && jobs[j].payload == contents[jobs[j].block]
    ensures s.copies > 0
    ensures var r := Reencrypt(s, rows, after, nonces, jobs, k);
            && r.Ok? && Between(s, r.value, keys, before, after, contents)
            && (forall j :: 0 <= j < k ==> Under(s, r.value, keys, after, jobs[j].block, contents[jobs[j].block]))
            && (forall b :: b in contents && Under(s, rows, keys, after, b, contents[b]) ==> Under(s, r.value, keys, after, b, contents[b]))
    decreases k
  {
    hide Between, Under, PutBlock, Sane;
    SaneCopies(s, keys);
    if k > 0 {
      WritesKeepBetween(s, rows, keys, before, after, contents, nonces, jobs, k - 1);
      var r := Reencrypt(s, rows, after, nonces, jobs, k - 1).value;
      PutKeepsBetween(s, r, keys, before, after, contents, nonces(k - 1), jobs[k - 1].block);
    }
  }

  /** One attempt at a rotation, cut off after `k` of its writes: nothing is lost,
      and all of it leaves the archive under the new key. */
  lemma AttemptWorks(s: Settings, rows: Rows, keys: set<Master>, before: Master, after: Master, contents: Contents,
                     nonces: nat -> nat, order: seq<string>, k: nat)
    requires Sane(s, keys) && Between(s, rows, keys, before, after, contents) && before != after
             && Lists(order, LoadIndex(rows))
    ensures s.copies > 0 && PlanFor(s, rows, before, after, order).Ok?
    ensures var jobs := PlanFor(s, rows, before, after, order).value.jobs;
            && (k <= |jobs| ==> Reencrypt(s, rows, after, nonces, jobs, k).Ok?
                                && Between(s, Reencrypt(s, rows, after, nonces, jobs, k).value, keys, before, after,
                                   contents))
            && Reencrypt(s, rows, after, nonces, jobs, |jobs|).Ok?
            && Archives(s, Reencrypt(s, rows, after, nonces, jobs, |jobs|).value, keys, after, contents)
  {
    hide Under, Reencrypt, PlanFor, LoadIndex, Sane;
    SaneCopies(s, keys);
    PlanWorks(s, rows, keys, before, after, contents, order);
    var p := PlanFor(s, rows, before, after, order).value;
    if k <= |p.jobs| { WritesKeepBetween(s, rows, keys, before, after, contents, nonces, p.jobs, k); }
    WritesKeepBetween(s, rows, keys, before, after, contents, nonces, p.jobs, |p.jobs|);
    var done := Reencrypt(s, rows, after, nonces, p.jobs, |p.jobs|).value;
    forall b | b in contents ensures Under(s, done, keys, after, b, contents[b]) {
      assert b in order;
      if j :| 0 <= j < |p.jobs| && p.jobs[j].block == b { }
    }
  }

  lemma ArchivesBetween(s: Settings, rows: Rows, keys: set<Master>, before: Master, after: Master, contents: Contents)
    requires Archives(s, rows, keys, before, contents) && {before, after} <= keys
    ensures Between(s, rows, keys, before, after, contents)
  {
    hide Under;
  }

  /** The blocks in whatever order a listing has them. */
  type BlockOrder = f: Rows -> seq<string> | forall rows :: Lists(f(rows), LoadIndex(rows))
    ghost witness rows => Listing(LoadIndex(rows))

  /** An attempt: the order it lists blocks in, its nonces, and how many writes it
      gets to make. */
  datatype Attempt = Attempt(order: BlockOrder, nonces: nat -> nat, writes: nat)

  function AttemptOn(s: Settings, rows: Rows, before: Master, after: Master, a: Attempt): Rows
    requires s.copies > 0
  {
    var p := PlanFor(s, rows, before, after, a.order(rows));
    if p.Err? then rows
    else
      var w := Reencrypt(s, rows, after, a.nonces, p.value.jobs, if a.writes <= |p.value.jobs| then a.writes else |p.value.jobs|);
      if w.Err? then rows else w.value
  }

  function Attempts(s: Settings, rows: Rows, before: Master, after: Master, cuts: seq<Attempt>): Rows
    requires s.copies > 0
  {
    if |cuts| == 0 then rows
    else AttemptOn(s, Attempts(s, rows, before, after, cuts[..|cuts| - 1]), before, after, cuts[|cuts| - 1])
  }

  lemma {:induction false} AttemptsBetween(s: Settings, rows: Rows, keys: set<Master>, before: Master, after: Master,
                                           contents: Contents, cuts: seq<Attempt>)
    requires Sane(s, keys) && Between(s, rows, keys, before, after, contents) && before != after
    ensures s.copies > 0 && Between(s, Attempts(s, rows, before, after, cuts), keys, before, after, contents)
  {
    hide Between, Sane, LoadIndex, PlanFor, Reencrypt;
    SaneCopies(s, keys);
    if |cuts| > 0 {
      var n := |cuts| - 1;
      AttemptsBetween(s, rows, keys, before, after, contents, cuts[..n]);
      var r, a := Attempts(s, rows, before, after, cuts[..n]), cuts[n];
      AttemptWorks(s, r, keys, before, after, contents, a.nonces, a.order(r), 0);
      var p := PlanFor(s, r, before, after, a.order(r)).value;
      AttemptWorks(s, r, keys, before, after, contents, a.nonces, a.order(r), if a.writes <= |p.jobs| then a.writes else |p.jobs|);
    }
  }

  /** Archive rotation is resumable: after any number of interrupted attempts every
      block decrypts to its payload under exactly one of the keys, and a run to the
      end leaves all of them under the new key. */
  lemma RotationResumes(s: Settings, rows: Rows, keys: set<Master>, before: Master, after: Master, contents: Contents,
                        cuts: seq<Attempt>,
                        order: seq<string>, nonces: nat -> nat)
    requires Sane(s, keys) && Archives(s, rows, keys, before, contents) && {before, after} <= keys && before != after
    requires s.copies > 0 && Lists(order, LoadIndex(Attempts(s, rows, before, after, cuts)))
    ensures var r := Attempts(s, rows, before, after, cuts);
            var p := PlanFor(s, r, before, after, order);
            && (forall b :: b in contents ==>
                  (ReadBlock(s, r, before, b) == Ok(contents[b]) && ReadBlock(s, r, after, b).Err?)
                  || (ReadBlock(s, r, after, b) == Ok(contents[b]) && ReadBlock(s, r, before, b).Err?))
            && p.Ok? && Reencrypt(s, r, after, nonces, p.value.jobs, |p.value.jobs|).Ok?
            && Archives(s, Reencrypt(s, r, after, nonces, p.value.jobs, |p.value.jobs|).value, keys, after, contents)
  {
    hide Archives, Sane, LoadIndex, PlanFor, Reencrypt, ReadBlock, Attempts;
    ArchivesBetween(s, rows, keys, before, after, contents);
    AttemptsBetween(s, rows, keys, before, after, contents, cuts);
    AttemptWorks(s, Attempts(s, rows, before, after, cuts), keys, before, after, contents, nonces, order, 0);
  }

  /** A block that reads under neither key stops the rotation at the plan, before
      any write, and nothing else does. */
  lemma {:induction false} PlanFailsIff(s: Settings, rows: Rows, before: Master, after: Master, order: seq<string>)
    ensures PlanFor(s, rows, before, after, order).Err?
            <==> exists b :: b in order && Stuck(s, rows, before, after, b)
  {
    hide ReadBlock;
    if |order| > 0 {
      var n := |order| - 1;
      assert order == order[..n] + [order[n]];
      PlanFailsIff(s, rows, before, after, order[..n]);
      assert forall b :: b in order <==> b in order[..n] || b == order[n];
      assert PlanFor(s, rows, before, after, order).Err?
             <==> PlanFor(s, rows, before, after, order[..n]).Err? || Stuck(s, rows, before, after, order[n]);
    }
  }

  /** Unreadable under the old key, and not simply already under the new one. */
  ghost predicate Stuck(s: Settings, rows: Rows, before: Master, after: Master, b: string) {
    var r := ReadBlock(s, rows, before, b);
    r.Err? && ((r.error != Undecryptable && r.error != Damaged) || ReadBlock(s, rows, after, b).Err?)
  }
}
