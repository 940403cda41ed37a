/** The backends and the router as objects. */
module StorageRouter {
  // mdc/src/mdc/storage/memory_store.py, mdc/src/mdc/dna/storage.py,
  // mdc/src/mdc/index/object_index.py, mdc/src/mdc/storage_intelligence/router.py:
  // what their methods write is what the functions of Archive and Router say.

  import opened KeySpace
  import opened MasterKeys
  import opened Outcomes
  import opened Archive
  import opened Router

  /** `MemoryStorageBackend`: gone when the process is. */
  class MemoryBackend {
    var blocks: map<string, Data>

    constructor ()
      ensures blocks == map[]
    {
      blocks := map[];
    }

    method Put(id: string, payload: Data)
      modifies this
      ensures blocks == old(blocks)[id := payload]
    {
      blocks := blocks[id := payload];
    }

    method Delete(id: string)
      modifies this
      ensures blocks == old(blocks) - {id}
    {
      blocks := blocks - {id};
    }
  }

  /** The durable store that WARM, COLD, the archive and the index share. */
  class DurableBackend {
    var rows: Rows

    constructor (rows: Rows)
      ensures this.rows == rows
    {
      this.rows := rows;
    }

    method Put(id: string, row: Row)
      modifies this
      ensures rows == old(rows)[id := row]
    {
      rows := rows[id := row];
    }

    method Delete(id: string)
      modifies this
      ensures rows == old(rows) - {id}
    {
      rows := rows - {id};
    }
  }

  /** `DNAStorageBackend` with `persist`. */
  class ArchiveBackend {
    const settings: Settings
    const persist: DurableBackend
    var key: Master
    var index: set<string>

    /** `_load_index`: the blocks found in the durable store. */
    constructor (settings: Settings, persist: DurableBackend, key: Master)
      ensures this.settings == settings && this.persist == persist && this.key == key
      ensures index == LoadIndex(persist.rows)
    {
      this.settings := settings;
      this.persist := persist;
      this.key := key;
      index := LoadIndex(persist.rows);
    }

    method Put(id: string, payload: Data, under: Master, nonce: nat) returns (r: Result<(), Problem>)
      requires settings.copies > 0
      modifies this`index, persist
      ensures var put := PutBlock(settings, old(persist.rows), under, nonce, id, payload);
              if put.Ok? then r == Ok(()) && persist.rows == put.value && index == old(index) + {id}
              else r == Err(put.error) && persist.rows == old(persist.rows) && index == old(index)
    {
      var packed := Pack(Repeat(settings.cipher.encrypt(under, nonce, payload), settings.copies));
      if packed.Err? { return Err(packed.error); }
      persist.Put(ArchiveKey(id), ArchiveRow(packed.value, id));
      index := index + {id};
      r := Ok(());
    }

    method Delete(id: string)
      modifies this`index, persist
      ensures persist.rows == if id in old(index) then old(persist.rows) - {ArchiveKey(id)} else old(persist.rows)
      ensures index == old(index) - {id}
    {
      if id in index { persist.Delete(ArchiveKey(id)); }
      index := index - {id};
    }

    /** `rotate_key`, with the blocks in some order. */
    method RotateKey(after: Master, order: seq<string>, nonces: nat -> nat) returns (r: Result<nat, Problem>)
      requires settings.copies > 0 && forall b :: b in order ==> b in index
      modifies this, persist
      ensures index == old(index)
      ensures after == old(key) ==> r == Err(SameKey) && persist.rows == old(persist.rows) && key == old(key)
      ensures after != old(key) ==>
                var plan := PlanFor(settings, old(persist.rows), old(key), after, order);
                if plan.Err? then r == Err(plan.error) && persist.rows == old(persist.rows) && key == old(key)
                else
                  var all := Reencrypt(settings, old(persist.rows), after, nonces, plan.value.jobs, |plan.value.jobs|);
                  if all.Ok? then r == Ok(|plan.value.jobs|) && persist.rows == all.value && key == after
                  else r.Err? && key == old(key) && StoppedAt(settings, old(persist.rows), after, nonces, plan.value.jobs, persist.rows, r.error)
    {
      if after == key { return Err(SameKey); }
      var plan := MakePlan(after, order);
      if plan.Err? { return Err(plan.error); }
      JobsListed(settings, persist.rows, key, after, order);
      ghost var before := persist.rows;
      var jobs := plan.value.jobs;
      hide PutBlock, PlanFor, ArchiveKey;
      for i := 0 to |jobs|
        invariant Reencrypt(settings, before, after, nonces, jobs, i) == Ok(persist.rows)
        invariant index == old(index) && key == old(key)
      {
        var put := Put(jobs[i].block, jobs[i].payload, after, nonces(i));
        if put.Err? {
          FailsFor(settings, before, after, nonces, jobs, i + 1, |jobs|);
          assert StopsAfter(settings, before, after, nonces, jobs, i, persist.rows, put.error);
          return Err(put.error);
        }
        Indexed(index, jobs[i].block);
      }
      key := after;
      r := Ok(|jobs|);
    }

    method MakePlan(after: Master, order: seq<string>) returns (r: Result<Plan, Problem>)
      ensures r == PlanFor(settings, persist.rows, key, after, order)
    {
      hide ReadBlock;
      var jobs, already := [], 0;
      for i := 0 to |order|
        invariant already >= 0 && PlanFor(settings, persist.rows, key, after, order[..i]) == Ok(Plan(jobs, already))
      {
        assert order[..i + 1][..i] == order[..i];
        var plain := ReadBlock(settings, persist.rows, key, order[i]);
        if plain.Ok? {
          jobs := jobs + [Job(order[i], plain.value)];
        } else if plain.error != Undecryptable && plain.error != Damaged {
          PlanStops(settings, persist.rows, key, after, order, i + 1);
          return Err(plain.error);
        } else {
          var again := ReadBlock(settings, persist.rows, after, order[i]);
          if again.Err? {
            PlanStops(settings, persist.rows, key, after, order, i + 1);
            return Err(again.error);
          }
          already := already + 1;
        }
      }
      assert order[..|order|] == order;
      r := Ok(Plan(jobs, already));
    }
  }

  /** The first `k` jobs were written and the next one was refused. */
  ghost predicate StopsAfter(s: Settings, rows: Rows, key: Master, nonces: nat -> nat, jobs: seq<Job>, k: nat,
                             now: Rows, why: Problem)
    requires s.copies > 0
  {
    k < |jobs| && Reencrypt(s, rows, key, nonces, jobs, k) == Ok(now)
      && Reencrypt(s, rows, key, nonces, jobs, k + 1) == Err(why)
  }

  ghost predicate StoppedAt(s: Settings, rows: Rows, key: Master, nonces: nat -> nat, jobs: seq<Job>, now: Rows,
                            why: Problem)
    requires s.copies > 0
  {
    exists k: nat :: StopsAfter(s, rows, key, nonces, jobs, k, now, why)
  }

  lemma Indexed(index: set<string>, block: string)
    requires block in index
    ensures index + {block} == index
  {
  }

  lemma {:induction false} JobsListed(s: Settings, rows: Rows, before: Master, after: Master, order: seq<string>)
    ensures var p := PlanFor(s, rows, before, after, order);
            p.Ok? ==> forall j :: 0 <= j < |p.value.jobs| ==> p.value.jobs[j].block in order
  {
    hide ReadBlock;
    if |order| > 0 { JobsListed(s, rows, before, after, order[..|order| - 1]); }
  }

  lemma {:induction false} PlanStops(s: Settings, rows: Rows, before: Master, after: Master, order: seq<string>, n: nat)
    requires n <= |order| && PlanFor(s, rows, before, after, order[..n]).Err?
    ensures PlanFor(s, rows, before, after, order) == PlanFor(s, rows, before, after, order[..n])
    decreases |order|
  {
    hide ReadBlock;
    if n == |order| {
      assert order[..n] == order;
    } else {
      var front := order[..|order| - 1];
      assert front[..n] == order[..n];
      PlanStops(s, rows, before, after, front, n);
    }
  }

  lemma {:induction false} FailsFor(s: Settings, rows: Rows, key: Master, nonces: nat -> nat, jobs: seq<Job>, k: nat,
                                    n: nat)
    requires s.copies > 0 && k <= n <= |jobs| && Reencrypt(s, rows, key, nonces, jobs, k).Err?
    ensures Reencrypt(s, rows, key, nonces, jobs, n).Err?
    decreases n
  {
    hide PutBlock;
    if k < n { FailsFor(s, rows, key, nonces, jobs, k, n - 1); }
  }

  // -------------------------------------------------------------------- router

  /** `StorageRouter` over the backends of `build_default_router`. */
  class ObjectRouter {
    const env: Env
    const durable: DurableBackend
    const memory: MemoryBackend
    const archive: ArchiveBackend

    ghost predicate Valid()
      reads this, archive
    {
      archive.persist == durable && archive.settings == env.settings && archive.key == env.key
        && env.settings.copies > 0
    }

    /** The abstract store the backends make up. */
    ghost function State(): Store
      reads this, durable, memory, archive
    {
      Store(memory.blocks, durable.rows, archive.index)
    }

    /** A new process over the same durable store. */
    constructor (env: Env, durable: DurableBackend)
      requires env.settings.copies > 0
      ensures Valid() && fresh(memory) && fresh(archive) && this.env == env && this.durable == durable
      ensures State() == Store(map[], durable.rows, LoadIndex(durable.rows))
    {
      this.env := env;
      this.durable := durable;
      memory := new MemoryBackend();
      archive := new ArchiveBackend(env.settings, durable, env.key);
    }

    method GetFrom(tier: Tier, location: string) returns (r: Result<Data, Failure>)
      requires Valid()
      ensures r == Get(env, State(), tier, location)
    {
      hide ReadBlock;
      match tier
      case Hot => r := if location in memory.blocks then Ok(memory.blocks[location]) else Err(Unavailable);
      case Archived =>
        var block := GetBlock(env.settings, durable.rows, archive.index, env.key, location);
        r := if block.Ok? then Ok(block.value) else if block.error == Missing then Err(Unavailable) else Err(Unreadable);
      case _ =>
        r := if location in durable.rows && durable.rows[location].Content? then Ok(durable.rows[location].data) else Err(Unavailable);
    }

    method PutInto(tier: Tier, location: string, physical: Data, nonce: nat) returns (r: Result<(), Failure>)
      requires Valid()
      modifies durable, memory, archive`index
      ensures Valid()
      ensures var put := PutAt(env, old(State()), tier, location, physical, nonce);
              if put.Ok? then r == Ok(()) && State() == put.value else r == Err(put.error) && State() == old(State())
    {
      hide PutBlock;
      match tier
      case Hot =>
        memory.Put(location, physical);
        r := Ok(());
      case Archived =>
        var put := archive.Put(location, physical, env.key, nonce);
        r := if put.Ok? then Ok(()) else Err(Refused);
      case _ =>
        durable.Put(location, Content(physical));
        r := Ok(());
    }

    method DeleteFrom(tier: Tier, location: string)
      requires Valid()
      modifies durable, memory, archive`index
      ensures Valid() && State() == DeleteAt(old(State()), tier, location)
    {
      match tier
      case Hot => memory.Delete(location);
      case Archived =>
        if location !in archive.index { assert archive.index - {location} == archive.index; }
        archive.Delete(location);
      case _ => durable.Delete(location);
    }

    /** `index.register`. */
    method RegisterEntry(e: IndexEntry)
      requires Valid()
      modifies durable
      ensures Valid() && State() == Register(old(State()), e)
    {
      durable.Put(IndexKey(e.objectId), IndexRow(e));
    }

    /** `store`: compress, write, then index. */
    method StoreContent(id: string, t: DataType, content: Data, tier: Tier, c: Compression, nonce: nat)
                        returns (r: Result<(), Failure>)
      requires Valid()
      modifies durable, memory, archive`index
      ensures Valid()
      ensures var stored := StoreObject(env, old(State()), id, t, content, tier, c, nonce);
              if stored.Ok? then r == Ok(()) && State() == stored.value else r == Err(stored.error) && State() == old(State())
    {
      hide PutAt, Location, IndexKey;
      if !Available(c) { return Err(NoCompressor); }
      var location := Location(t, id);
      var put := PutInto(tier, location, env.compress(c, content), nonce);
      if put.Err? { return Err(put.error); }
      RegisterEntry(IndexEntry(id, t, tier, location, |content|, env.checksum(content), c));
      r := Ok(());
    }

    /** `retrieve`: find, read, decompress, check. */
    method RetrieveContent(id: string, verify: bool) returns (r: Result<Data, Failure>)
      requires Valid()
      ensures r == Retrieve(env, State(), id, verify)
    {
      hide Get, IndexKey;
      var found := EntryOf(Store(memory.blocks, durable.rows, archive.index), id);
      if found.None? { return Err(NoObject); }
      var physical := GetFrom(found.value.tier, found.value.location);
      if physical.Err? { return Err(physical.error); }
      var content := env.decompress(found.value.compression, physical.value);
      if content.None? { return Err(BadIntegrity); }
      if verify {
        var actual := env.checksum(content.value);
        if actual != found.value.checksum { return Err(BadIntegrity); }
      }
      r := Ok(content.value);
    }

    /** `delete`: the bytes, then the entry. */
    method DeleteContent(id: string) returns (r: Result<(), Failure>)
      requires Valid()
      modifies durable, memory, archive`index
      ensures Valid()
      ensures var gone := DeleteObject(old(State()), id);
              if gone.Ok? then r == Ok(()) && State() == gone.value else r == Err(gone.error) && State() == old(State())
    {
      hide DeleteAt, IndexKey;
      var found := EntryOf(Store(memory.blocks, durable.rows, archive.index), id);
      if found.None? { return Err(NoObject); }
      DeleteFrom(found.value.tier, found.value.location);
      durable.Delete(IndexKey(id));
      r := Ok(());
    }

    /** `move`: write the new copy before deleting the old one, then index. */
    method MoveContent(id: string, tier: Tier, nonce: nat) returns (r: Result<(), Failure>)
      requires Valid()
      modifies durable, memory, archive`index
      ensures Valid()
      ensures var moved := MoveObject(env, old(State()), id, tier, nonce);
              if moved.Ok? then r == Ok(()) && State() == moved.value else r == Err(moved.error) && State() == old(State())
    {
      hide Get, PutAt, DeleteAt, IndexKey;
      var found := EntryOf(Store(memory.blocks, durable.rows, archive.index), id);
      if found.None? { return Err(NoObject); }
      var e := found.value;
      if e.tier == tier { return Ok(()); }
      if !SameBackend(e.tier, tier) {
        var physical := GetFrom(e.tier, e.location);
        if physical.Err? { return Err(physical.error); }
        var put := PutInto(tier, e.location, physical.value, nonce);
        if put.Err? { return Err(put.error); }
        DeleteFrom(e.tier, e.location);
      }
      RegisterEntry(e.(tier := tier));
      r := Ok(());
    }
  }
}
