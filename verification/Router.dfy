/** The tiered object router. */
module Router {
  // mdc/src/mdc/storage_intelligence/router.py over its default backends: memory
  // for HOT, one durable store for WARM and COLD, the encrypted archive inside the
  // same store, and the object index there too. It refines a map from object ids
  // to contents.

  import opened Bytes
  import opened KeySpace
  import opened MasterKeys
  import opened Outcomes
  import opened Archive

  /** The parts that live elsewhere: the archive's settings and key, compression,
      and the content checksum. */
  datatype Env = Env(settings: Settings, key: Master, compress: (Compression, Data) -> Data,
                     decompress: (Compression, Data) -> Option<Data>, checksum: Data -> nat)

  ghost predicate Trusted(env: Env) {
    Sane(env.settings, {env.key}) && forall c, d :: env.decompress(c, env.compress(c, d)) == Some(d)
  }

  /** Such parts exist, for any 256 keys to be used one after the other and every
      number of copies the archive accepts. */
  lemma TrustedParts(names: seq<Master>, key: Master, copies: nat) returns (env: Env)
    requires key in names && |names| <= 256 && copies % 2 == 1 && copies <= 255
    ensures Trusted(env) && Sane(env.settings, set k | k in names) && env.key == key && env.settings.copies == copies
  {
    var s := SaneSettings(names, copies);
    env := Env(s, key, (c, d) => d, (c, d) => Some(d), d => |d|);
    SaneFewer(s, set k | k in names, {key});
  }

  /** LZ4 and ZSTD have no library and are refused. */
  predicate Available(c: Compression) {
    c != Lz4 && c != Zstd
  }

  /** The memory backend, the durable store, and the archive's index of it. */
  datatype Store = Store(hot: map<string, Data>, rows: Rows, archived: set<string>)

  datatype Failure = NoObject | Unavailable | Unreadable | BadIntegrity | NoCompressor | Refused

  // ------------------------------------------------------------------ backends

  /** A backend's `get`: missing is one error, an archive block that does not
      decrypt another. */
  function Get(env: Env, st: Store, tier: Tier, location: string): Result<Data, Failure> {
    match tier
    case Hot => if location in st.hot then Ok(st.hot[location]) else Err(Unavailable)
    case Archived =>
      var r := GetBlock(env.settings, st.rows, st.archived, env.key, location);
      if r.Ok? then Ok(r.value) else if r.error == Missing then Err(Unavailable) else Err(Unreadable)
    case _ =>
      if location in st.rows && st.rows[location].Content? then Ok(st.rows[location].data) else Err(Unavailable)
  }

  function PutAt(env: Env, st: Store, tier: Tier, location: string, physical: Data, nonce: nat): Result<Store, Failure>
    requires env.settings.copies > 0
  {
    match tier
    case Hot => Ok(st.(hot := st.hot[location := physical]))
    case Archived =>
      var r := PutBlock(env.settings, st.rows, env.key, nonce, location, physical);
      if r.Err? then Err(Refused) else Ok(st.(rows := r.value, archived := st.archived + {location}))
    case _ => Ok(st.(rows := st.rows[location := Content(physical)]))
  }

  function DeleteAt(st: Store, tier: Tier, location: string): Store {
    match tier
    case Hot => st.(hot := st.hot - {location})
    case Archived =>
      if location in st.archived then st.(rows := st.rows - {ArchiveKey(location)}, archived := st.archived - {location}) else st
    case _ => st.(rows := st.rows - {location})
  }

  predicate SameBackend(a: Tier, b: Tier) {
    a == b || (a in {Warm, Cold} && b in {Warm, Cold})
  }

  // ---------------------------------------------------------------- operations

  /** `index.get`. */
  function EntryOf(st: Store, id: string): Option<IndexEntry> {
    if IndexKey(id) in st.rows && st.rows[IndexKey(id)].IndexRow? then Some(st.rows[IndexKey(id)].entry) else None
  }

  function Register(st: Store, e: IndexEntry): Store {
    st.(rows := st.rows[IndexKey(e.objectId) := IndexRow(e)])
  }

  /** `store`. */
  function StoreObject(env: Env, st: Store, id: string, t: DataType, content: Data, tier: Tier, c: Compression,
                       nonce: nat): Result<Store, Failure>
    requires env.settings.copies > 0
  {
    if !Available(c) then Err(NoCompressor)
    else
      var written :- PutAt(env, st, tier, Location(t, id), env.compress(c, content), nonce);
      Ok(Register(written, IndexEntry(id, t, tier, Location(t, id), |content|, env.checksum(content), c)))
  }

  /** `retrieve`: whatever has become of the stored bytes, content that is verified has
      the checksum recorded when it was stored. */
  function Retrieve(env: Env, st: Store, id: string, verify: bool): (r: Result<Data, Failure>)
    ensures r.Ok? ==> EntryOf(st, id).Some? && (verify ==> env.checksum(r.value) == EntryOf(st, id).value.checksum)
  {
    var e := EntryOf(st, id);
    if e.None? then Err(NoObject)
    else
      var physical :- Get(env, st, e.value.tier, e.value.location);
      var content := env.decompress(e.value.compression, physical);
      if content.None? || (verify && env.checksum(content.value) != e.value.checksum) then Err(BadIntegrity)
      else Ok(content.value)
  }

  /** `delete`. */
  function DeleteObject(st: Store, id: string): Result<Store, Failure> {
    var e := EntryOf(st, id);
    if e.None? then Err(NoObject)
    else
      var s := DeleteAt(st, e.value.tier, e.value.location);
      Ok(s.(rows := s.rows - {IndexKey(id)}))
  }

  /** `move`: the bytes are relocated as they are, unless both tiers share a
      backend. */
  function MoveObject(env: Env, st: Store, id: string, tier: Tier, nonce: nat): Result<Store, Failure>
    requires env.settings.copies > 0
  {
    var found := EntryOf(st, id);
    if found.None? then Err(NoObject)
    else
      var e := found.value;
      if e.tier == tier then Ok(st)
      else if SameBackend(e.tier, tier) then Ok(Register(st, e.(tier := tier)))
      else
        var physical :- Get(env, st, e.tier, e.location);
        var written :- PutAt(env, st, tier, e.location, physical, nonce);
        Ok(Register(DeleteAt(written, e.tier, e.location), e.(tier := tier)))
  }

  /** A new process: memory is gone, the archive index is read back. */
  function Reopen(st: Store): Store {
    Store(map[], st.rows, LoadIndex(st.rows))
  }

  // ------------------------------------------------------------- the plain map

  /** What a user may rely on: where each object is, and its content, which is lost
      only if it was HOT at a restart. */
  datatype Item = Item(tier: Tier, content: Option<Data>, compression: Compression)

  type Objects = map<string, Item>

  function Lookup(objects: Objects, id: string): Result<Data, Failure> {
    if id !in objects then Err(NoObject)
    else if objects[id].content.None? then Err(Unavailable)
    else Ok(objects[id].content.value)
  }

  /** The archive can hold it: its length field has 32 bits. */
  predicate Fits(physical: Data, tier: Tier) {
    tier == Archived ==> |physical| + 28 < U32
  }

  function Lose(objects: Objects): Objects {
    map id | id in objects :: if objects[id].tier == Hot then objects[id].(content := None) else objects[id]
  }

  datatype Action =
    | DoStore(id: string, t: DataType, content: Data, tier: Tier, c: Compression, nonce: nat)
    | DoMove(id: string, tier: Tier, nonce: nat)
    | DoDelete(id: string)
    | DoRestart

  function Act(env: Env, st: Store, act: Action): Store
    requires env.settings.copies > 0
  {
    match act
    case DoStore(id, t, content, tier, c, nonce) =>
      var r := StoreObject(env, st, id, t, content, tier, c, nonce);
      if r.Ok? then r.value else st
    case DoMove(id, tier, nonce) =>
      var r := MoveObject(env, st, id, tier, nonce);
      if r.Ok? then r.value else st
    case DoDelete(id) =>
      var r := DeleteObject(st, id);
      if r.Ok? then r.value else st
    case DoRestart => Reopen(st)
  }

  function Run(env: Env, acts: seq<Action>): Store
    requires env.settings.copies > 0
  {
    if |acts| == 0 then Store(map[], map[], {}) else Act(env, Run(env, acts[..|acts| - 1]), acts[|acts| - 1])
  }

  /** The same actions on the plain map. */
  function ActOn(env: Env, objects: Objects, act: Action): Objects {
    match act
    case DoStore(id, t, content, tier, c, nonce) =>
      if Available(c) && Fits(env.compress(c, content), tier) then objects[id := Item(tier, Some(content), c)] else objects
    case DoMove(id, tier, nonce) =>
      if id !in objects || objects[id].content.None? then objects
      else if !Fits(env.compress(objects[id].compression, objects[id].content.value), tier) then objects
      else objects[id := objects[id].(tier := tier)]
    case DoDelete(id) => objects - {id}
    case DoRestart => Lose(objects)
  }

  function RunOn(env: Env, acts: seq<Action>): Objects
  {
    if |acts| == 0 then map[] else ActOn(env, RunOn(env, acts[..|acts| - 1]), acts[|acts| - 1])
  }

  // ---------------------------------------------------------------- refinement

  ghost predicate ItemHeld(env: Env, st: Store, id: string, item: Item) {
    var e := EntryOf(st, id);
    && e.Some? && e.value.objectId == id && e.value.tier == item.tier && e.value.compression == item.compression
    && e.value.location == Location(e.value.objectType, id)
    && match item.content
       case Some(c) => e.value.checksum == env.checksum(c) && e.value.size == |c|
                       && Get(env, st, item.tier, e.value.location) == Ok(env.compress(item.compression, c))
                       && Fits(env.compress(item.compression, c), item.tier)
       case None => item.tier == Hot && e.value.location !in st.hot
  }

  /** Archive rows are under their own keys, and the index lists exactly them. */
  ghost predicate WellKept(st: Store) {
    && (forall k :: k in st.rows && st.rows[k].ArchiveRow? ==> k == ArchiveKey(st.rows[k].block))
    && (forall k :: k in st.rows && st.rows[k].IndexRow? ==> k == IndexKey(st.rows[k].entry.objectId))
    && st.archived == LoadIndex(st.rows)
  }

  ghost predicate Refines(env: Env, st: Store, objects: Objects) {
    && WellKept(st)
    && (forall id :: id in objects ==> ItemHeld(env, st, id, objects[id]))
    && (forall id :: EntryOf(st, id).Some? ==> id in objects)
  }

  /** Keys an operation on `id` may touch. */
  ghost predicate TouchedBy(id: string, k: string) {
    k == IndexKey(id) || exists t :: k == Location(t, id) || k == ArchiveKey(Location(t, id))
  }

  /** The two stores agree on everything that is not `id`'s. */
  ghost predicate SameElsewhere(st: Store, after: Store, id: string) {
    && (forall k :: !TouchedBy(id, k) ==> (k in st.rows <==> k in after.rows) && (k in st.rows ==> after.rows[k] == st.rows[k]))
    && (forall k :: (forall t :: k != Location(t, id)) ==>
          (k in st.hot <==> k in after.hot) && (k in st.hot ==> after.hot[k] == st.hot[k]) && (k in st.archived <==> k in after.archived))
  }

  lemma KeysApart(t: DataType, id: string, other: string)
    requires id != other
    ensures !TouchedBy(id, IndexKey(other)) && !TouchedBy(id, Location(t, other))
            && !TouchedBy(id, ArchiveKey(Location(t, other)))
    ensures forall u :: Location(u, id) != Location(t, other)
  {
    hide Location, IndexKey, ArchiveKey;
    forall u: DataType
      ensures Location(u, id) != Location(t, other) && IndexKey(other) != Location(u, id)
              && IndexKey(other) != ArchiveKey(Location(u, id))
      ensures Location(t, other) != ArchiveKey(Location(u, id)) && ArchiveKey(Location(t, other)) != Location(u, id)
      ensures ArchiveKey(Location(t, other)) != ArchiveKey(Location(u, id))
    {
      KeySpacesDisjoint(u, id, other, Location(u, id), false, "", 0);
      KeySpacesDisjoint(t, other, id, Location(u, id), false, "", 0);
      KeySpacesDisjoint(u, id, id, Location(t, other), false, "", 0);
      if Location(u, id) == Location(t, other) { LocationsDiffer(u, id, t, other); }
      if ArchiveKey(Location(t, other)) == ArchiveKey(Location(u, id)) { ArchiveKeysDiffer(Location(t, other), Location(u, id)); }
    }
    KeySpacesDisjoint(t, other, id, Location(t, other), false, "", 0);
    if IndexKey(other) == IndexKey(id) { IndexKeysDiffer(other, id); }
  }

  lemma OthersKept(env: Env, st: Store, after: Store, id: string, other: string, item: Item)
    requires SameElsewhere(st, after, id) && id != other && ItemHeld(env, st, other, item)
    ensures ItemHeld(env, after, other, item)
  {
    hide Location, IndexKey, ArchiveKey, ReadBlob, TouchedBy;
    var e := EntryOf(st, other).value;
    KeysApart(e.objectType, id, other);
  }

  lemma OthersUnindexed(st: Store, after: Store, id: string, other: string)
    requires SameElsewhere(st, after, id) && id != other
    ensures EntryOf(after, other) == EntryOf(st, other)
  {
    hide Location, IndexKey, ArchiveKey, TouchedBy;
    KeysApart(Unknown, id, other);
  }

  /** An operation on one object that leaves it as `item` refines the update of
      one entry of the map. */
  lemma OneObject(env: Env, st: Store, after: Store, objects: Objects, id: string, item: Item)
    requires Refines(env, st, objects) && SameElsewhere(st, after, id) && WellKept(after)
             && ItemHeld(env, after, id, item)
    ensures Refines(env, after, objects[id := item])
  {
    hide ItemHeld, SameElsewhere, WellKept, EntryOf;
    forall other | other in objects && other != id ensures ItemHeld(env, after, other, objects[other]) {
      OthersKept(env, st, after, id, other, objects[other]);
    }
    forall other | EntryOf(after, other).Some? && other != id ensures other in objects {
      OthersUnindexed(st, after, id, other);
    }
  }

  lemma OneGone(env: Env, st: Store, after: Store, objects: Objects, id: string)
    requires Refines(env, st, objects) && SameElsewhere(st, after, id) && WellKept(after) && EntryOf(after, id).None?
    ensures Refines(env, after, objects - {id})
  {
    hide ItemHeld, SameElsewhere, WellKept, EntryOf;
    forall other | other in objects && other != id ensures ItemHeld(env, after, other, objects[other]) {
      OthersKept(env, st, after, id, other, objects[other]);
    }
    forall other | EntryOf(after, other).Some? ensures other in objects && other != id {
      if other != id { OthersUnindexed(st, after, id, other); }
    }
  }

  // -------------------------------------------------- what each backend call does

  lemma IndexOf(rows: Rows, k: string, row: Row)
    requires (k in rows ==> !rows[k].ArchiveRow? || (row.ArchiveRow? && rows[k].block == row.block))
    ensures LoadIndex(rows[k := row]) == if row.ArchiveRow? then LoadIndex(rows) + {row.block} else LoadIndex(rows)
  {
    var after := rows[k := row];
    forall b ensures b in LoadIndex(after) <==> b in LoadIndex(rows) || (row.ArchiveRow? && b == row.block) {
      if b in LoadIndex(rows) {
        var j :| j in rows && rows[j].ArchiveRow? && rows[j].block == b;
        assert j in after && after[j].ArchiveRow? && after[j].block == b;
      }
      if row.ArchiveRow? && b == row.block { assert after[k].block == b; }
    }
  }

  lemma IndexWithout(rows: Rows, k: string)
    ensures (k !in rows || !rows[k].ArchiveRow?) ==> LoadIndex(rows - {k}) == LoadIndex(rows)
    ensures (forall j :: j in rows && rows[j].ArchiveRow? ==> j == ArchiveKey(rows[j].block)) && k in rows && rows[k].ArchiveRow?
            ==> LoadIndex(rows - {k}) == LoadIndex(rows) - {rows[k].block}
  {
    hide ArchiveKey;
    var after := rows - {k};
    forall b ensures b in LoadIndex(after) <==> exists j :: j in rows && j != k && rows[j].ArchiveRow? && rows[j].block == b {
      if b in LoadIndex(after) {
        var j :| j in after && after[j].ArchiveRow? && after[j].block == b;
        assert j in rows && j != k && rows[j].ArchiveRow? && rows[j].block == b;
      }
      if j :| j in rows && j != k && rows[j].ArchiveRow? && rows[j].block == b { assert j in after; }
    }
  }

  lemma PutWorks(env: Env, st: Store, tier: Tier, t: DataType, id: string, physical: Data, nonce: nat)
    requires Trusted(env) && WellKept(st)
    ensures env.settings.copies > 0
    ensures var loc := Location(t, id);
            var r := PutAt(env, st, tier, loc, physical, nonce);
            && (r.Ok? <==> Fits(physical, tier))
            && (r.Ok? ==> WellKept(r.value) && SameElsewhere(st, r.value, id) && Get(env, r.value, tier, loc) == Ok(physical)
                          && EntryOf(r.value, id) == EntryOf(st, id)
                          && (tier != Hot ==> r.value.hot == st.hot))
  {
    hide Location, IndexKey, ArchiveKey, PutBlock, ReadBlock, Sane, LoadIndex, TouchedBy;
    SaneCopies(env.settings, {env.key});
    var loc := Location(t, id);
    KeySpacesDisjoint(t, id, id, loc, false, "", 0);
    Touches(t, id);
    match tier
    case Hot =>
    case Archived => ArchivePutWorks(env, st, t, id, physical, nonce);
    case _ => ContentPutWorks(env, st, t, id, physical);
  }

  lemma Touches(t: DataType, id: string)
    ensures TouchedBy(id, IndexKey(id)) && TouchedBy(id, Location(t, id)) && TouchedBy(id, ArchiveKey(Location(t, id)))
  {
  }

  lemma ContentPutWorks(env: Env, st: Store, t: DataType, id: string, physical: Data)
    requires WellKept(st)
    ensures var after := st.(rows := st.rows[Location(t, id) := Content(physical)]);
            WellKept(after) && EntryOf(after, id) == EntryOf(st, id)
  {
    hide Location, IndexKey, ArchiveKey, LoadIndex;
    var loc := Location(t, id);
    KeySpacesDisjoint(t, id, id, loc, false, "", 0);
    if loc in st.rows && st.rows[loc].ArchiveRow? { KeySpacesDisjoint(t, id, id, st.rows[loc].block, false, "", 0); }
    IndexOf(st.rows, loc, Content(physical));
  }

  lemma ArchivePutWorks(env: Env, st: Store, t: DataType, id: string, physical: Data, nonce: nat)
    requires Trusted(env) && WellKept(st)
    ensures env.settings.copies > 0
    ensures var loc := Location(t, id);
            var r := PutBlock(env.settings, st.rows, env.key, nonce, loc, physical);
            && (r.Ok? <==> |physical| + 28 < U32)
            && (r.Ok? ==>
                  var after := st.(rows := r.value, archived := st.archived + {loc});
                  && WellKept(after) && EntryOf(after, id) == EntryOf(st, id)
                  && ReadBlock(env.settings, r.value, env.key, loc) == Ok(physical)
                  && (forall k :: k != ArchiveKey(loc) ==> (k in r.value <==> k in st.rows) && (k in st.rows ==> r.value[k] == st.rows[k])))
  {
    hide Location, IndexKey, ArchiveKey, ReadBlock, Sane, LoadIndex, Pack, Written;
    SaneCopies(env.settings, {env.key});
    var loc := Location(t, id);
    KeySpacesDisjoint(t, id, id, loc, false, "", 0);
    if |physical| + 28 < U32 {
      PutUnder(env.settings, st.rows, {env.key}, env.key, nonce, loc, physical);
      var row := PutBlock(env.settings, st.rows, env.key, nonce, loc, physical).value[ArchiveKey(loc)];
      if ArchiveKey(loc) in st.rows && st.rows[ArchiveKey(loc)].ArchiveRow? {
        ArchiveKeysDiffer(loc, st.rows[ArchiveKey(loc)].block);
      }
      IndexOf(st.rows, ArchiveKey(loc), row);
    } else {
      TooLargeToPack(env.settings, env.key, nonce, physical);
    }
  }

  lemma TooLargeToPack(s: Settings, key: Master, nonce: nat, payload: Data)
    requires Sane(s, {key}) && |payload| + 28 >= U32
    ensures s.copies > 0 && Pack(Repeat(s.cipher.encrypt(key, nonce, payload), s.copies)) == Err(TooLarge)
  {
    assert {key} == {key, key};
    CipherLaws(s, key, key, nonce, payload);
    PackFits(s.cipher.encrypt(key, nonce, payload), s.copies);
  }

  lemma DeleteWorks(env: Env, st: Store, tier: Tier, t: DataType, id: string)
    requires WellKept(st)
    ensures var after := DeleteAt(st, tier, Location(t, id));
            && WellKept(after) && SameElsewhere(st, after, id) && EntryOf(after, id) == EntryOf(st, id)
            && (forall other :: !SameBackend(tier, other) ==> Get(env, after, other, Location(t, id)) == Get(env, st, other, Location(t, id)))
            && (tier == Hot ==> Location(t, id) !in after.hot)
  {
    hide Location, IndexKey, ArchiveKey, ReadBlob, LoadIndex, TouchedBy;
    var loc := Location(t, id);
    KeySpacesDisjoint(t, id, id, loc, false, "", 0);
    Touches(t, id);
    if tier == Archived && loc in st.archived {
      ArchiveRowOf(st, loc);
      IndexWithout(st.rows, ArchiveKey(loc));
    } else if tier == Warm || tier == Cold {
      if loc in st.rows && st.rows[loc].ArchiveRow? { KeySpacesDisjoint(t, id, id, st.rows[loc].block, false, "", 0); }
      IndexWithout(st.rows, loc);
    }
  }

  lemma ArchiveRowOf(st: Store, block: string)
    requires WellKept(st) && block in st.archived
    ensures ArchiveKey(block) in st.rows && st.rows[ArchiveKey(block)].ArchiveRow?
            && st.rows[ArchiveKey(block)].block == block
  {
    hide ArchiveKey;
  }

  lemma RegisterWorks(env: Env, st: Store, e: IndexEntry)
    requires WellKept(st)
    ensures var after := Register(st, e);
            && WellKept(after) && SameElsewhere(st, after, e.objectId) && EntryOf(after, e.objectId) == Some(e)
            && forall tier :: Get(env, after, tier, Location(e.objectType, e.objectId)) == Get(env, st, tier, Location(e.objectType, e.objectId))
  {
    hide Location, IndexKey, ArchiveKey, ReadBlob, LoadIndex, TouchedBy;
    var loc := Location(e.objectType, e.objectId);
    KeySpacesDisjoint(e.objectType, e.objectId, e.objectId, loc, false, "", 0);
    Touches(e.objectType, e.objectId);
    var k := IndexKey(e.objectId);
    if k in st.rows && st.rows[k].ArchiveRow? { KeySpacesDisjoint(e.objectType, e.objectId, e.objectId, st.rows[k].block, false, "", 0); }
    IndexOf(st.rows, k, IndexRow(e));
  }

  lemma UnregisterWorks(st: Store, id: string)
    requires WellKept(st)
    ensures var after := st.(rows := st.rows - {IndexKey(id)});
            WellKept(after) && SameElsewhere(st, after, id) && EntryOf(after, id).None?
  {
    hide Location, IndexKey, ArchiveKey, LoadIndex;
    Touches(Unknown, id);
    var k := IndexKey(id);
    if k in st.rows && st.rows[k].ArchiveRow? { KeySpacesDisjoint(Unknown, id, id, st.rows[k].block, false, "", 0); }
    IndexWithout(st.rows, k);
  }

  lemma SameElsewhereChain(a: Store, b: Store, c: Store, id: string)
    requires SameElsewhere(a, b, id) && SameElsewhere(b, c, id)
    ensures SameElsewhere(a, c, id)
  {
    hide TouchedBy, Location;
  }

  // ------------------------------------------------------- each operation refines

  lemma StoreRefines(env: Env, st: Store, objects: Objects, id: string, t: DataType, content: Data, tier: Tier,
                     c: Compression, nonce: nat)
    requires Trusted(env) && Refines(env, st, objects)
    ensures env.settings.copies > 0
    ensures var r := StoreObject(env, st, id, t, content, tier, c, nonce);
            && (r.Ok? <==> Available(c) && Fits(env.compress(c, content), tier))
            && (r.Ok? ==> Refines(env, r.value, objects[id := Item(tier, Some(content), c)]))
  {
    hide Location, SameElsewhere, WellKept, EntryOf, Get, PutAt, Register, Fits, Trusted;
    var physical := env.compress(c, content);
    PutWorks(env, st, tier, t, id, physical, nonce);
    var r := PutAt(env, st, tier, Location(t, id), physical, nonce);
    if Available(c) && r.Ok? {
      var e := IndexEntry(id, t, tier, Location(t, id), |content|, env.checksum(content), c);
      RegisterWorks(env, r.value, e);
      SameElsewhereChain(st, r.value, Register(r.value, e), id);
      OneObject(env, st, Register(r.value, e), objects, id, Item(tier, Some(content), c));
    }
  }

  lemma DeleteRefines(env: Env, st: Store, objects: Objects, id: string)
    requires Refines(env, st, objects)
    ensures var r := DeleteObject(st, id);
            if r.Ok? then Refines(env, r.value, objects - {id}) else id !in objects && r.error == NoObject
  {
    hide Location, SameElsewhere, WellKept, EntryOf, Get, DeleteAt, IndexKey;
    if EntryOf(st, id).Some? {
      assert ItemHeld(env, st, id, objects[id]);
      var e := EntryOf(st, id).value;
      DeleteWorks(env, st, e.tier, e.objectType, id);
      var s := DeleteAt(st, e.tier, e.location);
      UnregisterWorks(s, id);
      var after := s.(rows := s.rows - {IndexKey(id)});
      SameElsewhereChain(st, s, after, id);
      OneGone(env, st, after, objects, id);
    }
  }

  lemma MoveRefines(env: Env, st: Store, objects: Objects, id: string, tier: Tier, nonce: nat)
    requires Trusted(env) && Refines(env, st, objects)
    ensures env.settings.copies > 0
    ensures var r := MoveObject(env, st, id, tier, nonce);
            Refines(env, if r.Ok? then r.value else st, ActOn(env, objects, DoMove(id, tier, nonce)))
  {
    hide Location, SameElsewhere, WellKept, EntryOf, Get, DeleteAt, PutAt, Register, Fits, Trusted, ItemHeld;
    PutWorks(env, st, tier, Unknown, id, [], nonce);
    if EntryOf(st, id).Some? {
      var item := objects[id];
      var e := HeldEntry(env, st, id, item);
      if e.tier == tier {
        MoveStays(env, st, objects, id);
      } else if SameBackend(e.tier, tier) {
        RegisterWorks(env, st, e.(tier := tier));
        SharedBackend(env, st, e.tier, tier, e.location);
        NotHot(env, st, id, item);
        MovedItem(env, st, Register(st, e.(tier := tier)), id, item, tier);
        OneObject(env, st, Register(st, e.(tier := tier)), objects, id, item.(tier := tier));
      } else if item.content.Some? {
        var physical := env.compress(item.compression, item.content.value);
        PutWorks(env, st, tier, e.objectType, id, physical, nonce);
        var put := PutAt(env, st, tier, e.location, physical, nonce);
        if put.Ok? {
          DeleteWorks(env, put.value, e.tier, e.objectType, id);
          var gone := DeleteAt(put.value, e.tier, e.location);
          RegisterWorks(env, gone, e.(tier := tier));
          var after := Register(gone, e.(tier := tier));
          SameElsewhereChain(st, put.value, gone, id);
          SameElsewhereChain(st, gone, after, id);
          MovedItem(env, st, after, id, item, tier);
          OneObject(env, st, after, objects, id, item.(tier := tier));
        }
      } else {
        LostStays(env, st, id, item);
      }
    } else {
      NotHeld(env, st, objects, id);
    }
  }

  lemma HeldEntry(env: Env, st: Store, id: string, item: Item) returns (e: IndexEntry)
    requires ItemHeld(env, st, id, item)
    ensures EntryOf(st, id) == Some(e) && e.objectId == id && e.tier == item.tier && e.compression == item.compression
    ensures e.location == Location(e.objectType, id)
    ensures item.content.Some? ==> e.checksum == env.checksum(item.content.value)
                                   && Get(env, st, item.tier,
                                      e.location) == Ok(env.compress(item.compression, item.content.value))
                                   && Fits(env.compress(item.compression, item.content.value), item.tier)
  {
    e := EntryOf(st, id).value;
  }

  lemma NotHeld(env: Env, st: Store, objects: Objects, id: string)
    requires Refines(env, st, objects) && EntryOf(st, id).None?
    ensures id !in objects
  {
  }

  lemma MoveStays(env: Env, st: Store, objects: Objects, id: string)
    requires Refines(env, st, objects) && id in objects
    ensures objects[id := objects[id].(tier := objects[id].tier)] == objects
    ensures objects[id].content.Some? ==> Fits(env.compress(objects[id].compression, objects[id].content.value), objects[id].tier)
  {
    assert ItemHeld(env, st, id, objects[id]);
    assert objects[id].(tier := objects[id].tier) == objects[id];
  }

  lemma SharedBackend(env: Env, st: Store, a: Tier, b: Tier, location: string)
    requires SameBackend(a, b)
    ensures Get(env, st, a, location) == Get(env, st, b, location)
  {
  }

  lemma NotHot(env: Env, st: Store, id: string, item: Item)
    requires ItemHeld(env, st, id, item) && item.tier != Hot
    ensures item.content.Some?
  {
  }

  lemma LostStays(env: Env, st: Store, id: string, item: Item)
    requires ItemHeld(env, st, id, item) && item.content.None?
    ensures Get(env, st, item.tier, EntryOf(st, id).value.location) == Err(Unavailable) && item.tier == Hot
  {
  }

  lemma MovedItem(env: Env, st: Store, after: Store, id: string, item: Item, tier: Tier)
    requires ItemHeld(env, st, id, item) && item.content.Some?
    requires EntryOf(after, id) == Some(EntryOf(st, id).value.(tier := tier))
    requires Get(env, after, tier, EntryOf(st, id).value.location) == Ok(env.compress(item.compression,
             item.content.value))
    requires Fits(env.compress(item.compression, item.content.value), tier)
    ensures ItemHeld(env, after, id, item.(tier := tier))
  {
  }

  lemma RestartRefines(env: Env, st: Store, objects: Objects)
    requires Refines(env, st, objects)
    ensures Refines(env, Reopen(st), Lose(objects))
  {
    hide Location, IndexKey, ArchiveKey, ReadBlob, LoadIndex;
    var after := Reopen(st);
    forall id | id in objects ensures ItemHeld(env, after, id, Lose(objects)[id]) {
      assert ItemHeld(env, st, id, objects[id]);
    }
    forall id | EntryOf(after, id).Some? ensures id in Lose(objects) {
      assert EntryOf(st, id).Some?;
    }
  }

  /** Every action, refused or not, does to the stores what it does to the plain map. */
  lemma ActRefines(env: Env, st: Store, objects: Objects, act: Action)
    requires Trusted(env) && Refines(env, st, objects)
    ensures env.settings.copies > 0 && Refines(env, Act(env, st, act), ActOn(env, objects, act))
  {
    hide Refines, StoreObject, MoveObject, DeleteObject, Reopen, Trusted, Fits, Lose;
    TrustedCopies(env);
    match act
    case DoStore(id, t, content, tier, c, nonce) => StoreRefines(env, st, objects, id, t, content, tier, c, nonce);
    case DoMove(id, tier, nonce) => MoveRefines(env, st, objects, id, tier, nonce);
    case DoDelete(id) =>
      DeleteRefines(env, st, objects, id);
      if id !in objects { assert objects - {id} == objects; }
    case DoRestart => RestartRefines(env, st, objects);
  }

  /** Over any run of store, move, delete and restart, the router is the plain
      map. */
  lemma {:induction false} RunRefines(env: Env, acts: seq<Action>)
    requires Trusted(env)
    ensures env.settings.copies > 0 && Refines(env, Run(env, acts), RunOn(env, acts))
  {
    hide Refines, Act, ActOn, Trusted;
    TrustedCopies(env);
    if |acts| == 0 {
      EmptyRefines(env);
    } else {
      var n := |acts| - 1;
      RunRefines(env, acts[..n]);
      ActRefines(env, Run(env, acts[..n]), RunOn(env, acts[..n]), acts[n]);
    }
  }

  lemma TrustedCopies(env: Env)
    requires Trusted(env)
    ensures env.settings.copies > 0
  {
  }

  lemma EmptyRefines(env: Env)
    ensures Refines(env, Store(map[], map[], {}), map[])
  {
  }

  /** `retrieve`, with or without verification, returns exactly the content last
      stored, and reports an object unavailable only if it was HOT at a restart. */
  lemma RetrieveIsLookup(env: Env, acts: seq<Action>, id: string, verify: bool)
    requires Trusted(env)
    ensures env.settings.copies > 0 && Retrieve(env, Run(env, acts), id, verify) == Lookup(RunOn(env, acts), id)
  {
    hide Refines, Retrieve, Lookup;
    RunRefines(env, acts);
    RefinedRetrieve(env, Run(env, acts), RunOn(env, acts), id, verify);
  }

  lemma RefinedRetrieve(env: Env, st: Store, objects: Objects, id: string, verify: bool)
    requires Trusted(env) && Refines(env, st, objects)
    ensures Retrieve(env, st, id, verify) == Lookup(objects, id)
  {
    if id in objects { assert ItemHeld(env, st, id, objects[id]); }
  }

  /** The action gives the object new content, or removes it. */
  predicate Renews(env: Env, act: Action, id: string) {
    (act.DoStore? && act.id == id && Available(act.c) && Fits(env.compress(act.c, act.content), act.tier))
    || (act.DoDelete? && act.id == id)
  }

  /** Action `r` is a restart that found the object HOT, and it was not stored again
      or deleted since. */
  ghost predicate LostAt(env: Env, acts: seq<Action>, id: string, r: nat) {
    && r < |acts| && acts[r].DoRestart?
    && id in RunOn(env, acts[..r]) && RunOn(env, acts[..r])[id].tier == Hot
    && forall j :: r < j < |acts| ==> !Renews(env, acts[j], id)
  }

  lemma LostEarlier(env: Env, acts: seq<Action>, id: string, r: nat)
    requires |acts| > 0
    ensures var n := |acts| - 1;
            LostAt(env, acts, id, r)
            <==> if r < n then LostAt(env, acts[..n], id, r) && !Renews(env, acts[n], id)
                 else r == n && acts[n].DoRestart? && id in RunOn(env, acts[..n]) && RunOn(env, acts[..n])[id].tier == Hot
  {
    hide RunOn, Renews;
    var n := |acts| - 1;
    if r < n { assert acts[..n][..r] == acts[..r]; }
    assert LostAt(env, acts, id, r) && r < n ==> !Renews(env, acts[n], id);
  }

  lemma {:induction false} LostMeansNoContent(env: Env, acts: seq<Action>, id: string)
    ensures (id in RunOn(env, acts) && RunOn(env, acts)[id].content.None?) <==> exists r: nat :: LostAt(env, acts, id, r)
  {
    if |acts| > 0 {
      var n := |acts| - 1;
      LostMeansNoContent(env, acts[..n], id);
      forall r: nat
        ensures LostAt(env, acts, id, r)
                <==> if r < n then LostAt(env, acts[..n], id, r) && !Renews(env, acts[n], id)
                     else r == n && acts[n].DoRestart? && id in RunOn(env, acts[..n]) && RunOn(env, acts[..n])[id].tier == Hot
      {
        LostEarlier(env, acts, id, r);
      }
      LostByOne(env, RunOn(env, acts[..n]), acts[n], id);
      hide LostAt, ActOn, Renews;
      if r: nat :| LostAt(env, acts[..n], id, r) {
        LostBound(env, acts[..n], id, r);
        assert LostAt(env, acts, id, r) <==> !Renews(env, acts[n], id);
      }
      assert LostAt(env, acts, id, n)
             <==> acts[n].DoRestart? && id in RunOn(env, acts[..n]) && RunOn(env, acts[..n])[id].tier == Hot;
      forall r: nat | LostAt(env, acts, id, r) ensures r <= n { LostBound(env, acts, id, r); }
    }
  }

  lemma LostBound(env: Env, acts: seq<Action>, id: string, r: nat)
    requires LostAt(env, acts, id, r)
    ensures r < |acts|
  {
  }

  /** One action: content is gone if it was gone and the object not renewed, or by
      a restart while HOT. */
  lemma LostByOne(env: Env, objects: Objects, act: Action, id: string)
    ensures (id in ActOn(env, objects, act) && ActOn(env, objects, act)[id].content.None?)
            <==> (id in objects && objects[id].content.None? && !Renews(env, act, id))
                 || (act.DoRestart? && id in objects && objects[id].tier == Hot)
  {
  }

  /** An object is unavailable after a run exactly when some restart found it HOT and
      it was not stored again since: everything else is kept, over any run. */
  lemma UnavailableIffLost(env: Env, acts: seq<Action>, id: string, verify: bool)
    requires Trusted(env)
    ensures env.settings.copies > 0
    ensures Retrieve(env, Run(env, acts), id, verify) == Err(Unavailable) <==> exists r: nat :: LostAt(env, acts, id, r)
  {
    hide LostAt, Run, RunOn, Retrieve, Trusted;
    RetrieveIsLookup(env, acts, id, verify);
    LostMeansNoContent(env, acts, id);
  }
}
