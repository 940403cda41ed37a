/** What stays behind in a backend that an object has left. */
module RouterErasure {
  // Deleting and moving take the bytes away from where they were; storing an object
  // again in another backend does not
  // (mdc/src/mdc/storage_intelligence/router.py:86-168).

  import opened KeySpace
  import opened MasterKeys
  import opened Outcomes
  import opened Archive
  import opened Router

  lemma DeletedThere(env: Env, st: Store, tier: Tier, location: string)
    ensures Get(env, DeleteAt(st, tier, location), tier, location) == Err(Unavailable)
  {
    hide ReadBlob, ArchiveKey;
  }

  lemma IndexApart(t: DataType, id: string)
    ensures IndexKey(id) != Location(t, id) && IndexKey(id) != ArchiveKey(Location(t, id))
            && Location(t, id) != ArchiveKey(Location(t, id))
  {
    hide Location, IndexKey, ArchiveKey;
    KeySpacesDisjoint(t, id, id, Location(t, id), false, "", 0);
  }

  /** What the index does with its own row is nothing to any backend. */
  lemma IndexRowElsewhere(env: Env, st: Store, rows: Rows, tier: Tier, t: DataType, id: string)
    requires forall k :: k != IndexKey(id) ==> (k in rows <==> k in st.rows) && (k in st.rows ==> rows[k] == st.rows[k])
    ensures Get(env, st.(rows := rows), tier, Location(t, id)) == Get(env, st, tier, Location(t, id))
  {
    hide Location, IndexKey, ArchiveKey, ReadBlob;
    IndexApart(t, id);
  }

  lemma HeldAt(env: Env, st: Store, objects: Objects, id: string)
    requires Refines(env, st, objects) && id in objects
    ensures EntryOf(st, id).Some? && EntryOf(st, id).value.objectId == id
    ensures EntryOf(st, id).value.location == Location(EntryOf(st, id).value.objectType, id)
  {
    hide Get, WellKept, Fits;
    assert ItemHeld(env, st, id, objects[id]);
  }

  /** After a delete the backend has the bytes no more. */
  lemma DeleteErases(env: Env, st: Store, objects: Objects, id: string)
    requires Refines(env, st, objects) && id in objects
    ensures EntryOf(st, id).Some? && DeleteObject(st, id).Ok?
    ensures var e, after := EntryOf(st, id).value, DeleteObject(st, id).value;
            Get(env, after, e.tier, e.location) == Err(Unavailable)
  {
    hide Get, DeleteAt, Refines, Location, IndexKey;
    HeldAt(env, st, objects, id);
    var e := EntryOf(st, id).value;
    var s := DeleteAt(st, e.tier, e.location);
    DeletedThere(env, st, e.tier, e.location);
    IndexRowElsewhere(env, s, s.rows - {IndexKey(id)}, e.tier, e.objectType, id);
  }

  /** Nor has the old backend after a move to another one. */
  lemma MoveErases(env: Env, st: Store, objects: Objects, id: string, tier: Tier, nonce: nat)
    requires Refines(env, st, objects) && id in objects && env.settings.copies > 0
    ensures EntryOf(st, id).Some?
    ensures var e, r := EntryOf(st, id).value, MoveObject(env, st, id, tier, nonce);
            r.Ok? && !SameBackend(e.tier, tier) ==> Get(env, r.value, e.tier, e.location) == Err(Unavailable)
  {
    hide Get, PutAt, DeleteAt, Refines, Location, IndexKey;
    HeldAt(env, st, objects, id);
    var e, r := EntryOf(st, id).value, MoveObject(env, st, id, tier, nonce);
    if r.Ok? && !SameBackend(e.tier, tier) {
      var written := PutAt(env, st, tier, e.location, Get(env, st, e.tier, e.location).value, nonce).value;
      var s := DeleteAt(written, e.tier, e.location);
      DeletedThere(env, written, e.tier, e.location);
      IndexRowElsewhere(env, s, s.rows[IndexKey(id) := IndexRow(e.(tier := tier))], e.tier, e.objectType, id);
    }
  }

  lemma PutElsewhere(env: Env, st: Store, tier: Tier, other: Tier, t: DataType, id: string, physical: Data, nonce: nat)
    requires env.settings.copies > 0 && !SameBackend(other, tier)
    ensures var loc := Location(t, id);
            var r := PutAt(env, st, tier, loc, physical, nonce);
            r.Ok? ==> Get(env, r.value, other, loc) == Get(env, st, other, loc)
  {
    hide Location, ArchiveKey, IndexKey, ReadBlob, Pack;
    IndexApart(t, id);
  }

  /** Storing an object again, as the same type but in another backend, leaves the old
      copy where it was: nothing points to it any more, and a later delete does not
      reach it. */
  lemma StoreLeavesOldCopy(env: Env, st: Store, objects: Objects, id: string, content: Data, tier: Tier,
                           c: Compression, nonce: nat)
    requires Refines(env, st, objects) && id in objects && env.settings.copies > 0
    ensures EntryOf(st, id).Some?
    ensures var e := EntryOf(st, id).value;
            var r := StoreObject(env, st, id, e.objectType, content, tier, c, nonce);
            r.Ok? && !SameBackend(e.tier, tier) ==>
              && Get(env, r.value, e.tier, e.location) == Get(env, st, e.tier, e.location)
              && Get(env, DeleteObject(r.value, id).value, e.tier, e.location) == Get(env, st, e.tier, e.location)
  {
    hide Get, PutAt, DeleteAt, Refines, Location, IndexKey, ArchiveKey;
    HeldAt(env, st, objects, id);
    var e := EntryOf(st, id).value;
    var r := StoreObject(env, st, id, e.objectType, content, tier, c, nonce);
    if r.Ok? && !SameBackend(e.tier, tier) {
      var loc := Location(e.objectType, id);
      var physical := env.compress(c, content);
      PutElsewhere(env, st, tier, e.tier, e.objectType, id, physical, nonce);
      var written := PutAt(env, st, tier, loc, physical, nonce).value;
      var entry := IndexEntry(id, e.objectType, tier, loc, |content|, env.checksum(content), c);
      IndexRowElsewhere(env, written, written.rows[IndexKey(id) := IndexRow(entry)], e.tier, e.objectType, id);
      assert EntryOf(r.value, id) == Some(entry);
      DeletedElsewhere(env, r.value, tier, e.tier, e.objectType, id);
      var s := DeleteAt(r.value, tier, loc);
      IndexRowElsewhere(env, s, s.rows - {IndexKey(id)}, e.tier, e.objectType, id);
    }
  }

  lemma DeletedElsewhere(env: Env, st: Store, tier: Tier, other: Tier, t: DataType, id: string)
    requires !SameBackend(other, tier)
    ensures var loc := Location(t, id);
            Get(env, DeleteAt(st, tier, loc), other, loc) == Get(env, st, other, loc)
  {
    hide Location, ArchiveKey, IndexKey, ReadBlob;
    IndexApart(t, id);
  }
}
