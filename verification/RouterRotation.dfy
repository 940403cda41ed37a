/** Rotating the archive's key under the router. */
module RouterRotation {
  // Whatever was stored under one key is retrieved under the next one: the router
  // stays the same plain map over any number of rotations, each cut off and resumed
  // any number of times (mdc/src/mdc/dna/storage.py:168-193,
  // mdc/src/mdc/storage_intelligence/router.py).

  import opened Archive
  import opened Bytes
  import opened KeySpace
  import opened MasterKeys
  import opened Outcomes
  import opened Router

  // --------------------------------------------------- what a run leaves archived

  /** Of the keys in play only `key` reads these bytes. */
  ghost predicate Readable(s: Settings, keys: set<Master>, key: Master, blob: Data) {
    && ReadBlob(s, key, blob).Ok? && |ReadBlob(s, key, blob).value| + 28 < U32
    && forall other :: other in keys && other != key ==> ReadBlob(s, other, blob) == Err(Undecryptable)
  }

  /** Every archive row is in its place and readable under the key. */
  ghost predicate Sealed(s: Settings, keys: set<Master>, key: Master, rows: Rows) {
    forall k :: k in rows && rows[k].ArchiveRow? ==> k == ArchiveKey(rows[k].block) && Readable(s, keys, key, rows[k].blob)
  }

  lemma PutSealed(env: Env, keys: set<Master>, st: Store, tier: Tier, location: string, physical: Data, nonce: nat)
    requires Sane(env.settings, keys) && env.key in keys && Sealed(env.settings, keys, env.key, st.rows)
    ensures env.settings.copies > 0
    ensures var r := PutAt(env, st, tier, location, physical, nonce);
            r.Ok? ==> Sealed(env.settings, keys, env.key, r.value.rows)
  {
    hide Sane, ReadBlob, Pack, Written, ArchiveKey, Under;
    SaneCopies(env.settings, keys);
    if tier == Archived {
      if |physical| + 28 < U32 {
        PutUnder(env.settings, st.rows, keys, env.key, nonce, location, physical);
        UnderReadable(env.settings, PutBlock(env.settings, st.rows, env.key, nonce, location, physical).value, keys,
          env.key, location, physical);
      } else {
        SaneFewer(env.settings, keys, {env.key});
        TooLargeToPack(env.settings, env.key, nonce, physical);
      }
    }
  }

  lemma UnderReadable(s: Settings, rows: Rows, keys: set<Master>, key: Master, block: string, payload: Data)
    requires Under(s, rows, keys, key, block, payload) && |payload| + 28 < U32
    ensures ArchiveKey(block) in rows && rows[ArchiveKey(block)].ArchiveRow?
            && Readable(s, keys, key, rows[ArchiveKey(block)].blob)
  {
    hide ReadBlob, ArchiveKey;
    forall other | other in keys && other != key ensures ReadBlob(s, other, rows[ArchiveKey(block)].blob) == Err(Undecryptable) {
      assert ReadBlock(s, rows, other, block) == Err(Undecryptable);
    }
  }

  lemma ActSealed(env: Env, keys: set<Master>, st: Store, act: Action)
    requires Sane(env.settings, keys) && env.key in keys && Sealed(env.settings, keys, env.key, st.rows)
    ensures env.settings.copies > 0 && Sealed(env.settings, keys, env.key, Act(env, st, act).rows)
  {
    hide Sane, Readable, PutAt, Get, ArchiveKey, IndexKey, Location;
    SaneCopies(env.settings, keys);
    match act
    case DoStore(id, t, content, tier, c, nonce) =>
      PutSealed(env, keys, st, tier, Location(t, id), env.compress(c, content), nonce);
    case DoMove(id, tier, nonce) =>
      var e := EntryOf(st, id);
      if e.Some? && Get(env, st, e.value.tier, e.value.location).Ok? {
        PutSealed(env, keys, st, tier, e.value.location, Get(env, st, e.value.tier, e.value.location).value, nonce);
      }
    case DoDelete(id) =>
    case DoRestart =>
  }

  function RunFrom(env: Env, st: Store, acts: seq<Action>): Store
    requires env.settings.copies > 0
  {
    if |acts| == 0 then st else Act(env, RunFrom(env, st, acts[..|acts| - 1]), acts[|acts| - 1])
  }

  function RunOnFrom(env: Env, objects: Objects, acts: seq<Action>): Objects
  {
    if |acts| == 0 then objects else ActOn(env, RunOnFrom(env, objects, acts[..|acts| - 1]), acts[|acts| - 1])
  }

  lemma {:induction false} RunFromRefines(env: Env, keys: set<Master>, st: Store, objects: Objects, acts: seq<Action>)
    requires Trusted(env) && Sane(env.settings, keys) && env.key in keys
    requires Refines(env, st, objects) && Sealed(env.settings, keys, env.key, st.rows)
    ensures env.settings.copies > 0
    ensures Refines(env, RunFrom(env, st, acts), RunOnFrom(env, objects, acts))
    ensures Sealed(env.settings, keys, env.key, RunFrom(env, st, acts).rows)
  {
    hide Trusted, Sane, Refines, Sealed, Act, ActOn;
    TrustedCopies(env);
    if |acts| > 0 {
      var n := |acts| - 1;
      RunFromRefines(env, keys, st, objects, acts[..n]);
      ActRefines(env, RunFrom(env, st, acts[..n]), RunOnFrom(env, objects, acts[..n]), acts[n]);
      ActSealed(env, keys, RunFrom(env, st, acts[..n]), acts[n]);
    }
  }

  // ------------------------------------------------- what a rotation does to rows

  ghost function ContentsOf(s: Settings, key: Master, rows: Rows): Contents
    requires forall b :: b in LoadIndex(rows) ==> ReadBlock(s, rows, key, b).Ok?
  {
    map b | b in LoadIndex(rows) :: ReadBlock(s, rows, key, b).value
  }

  lemma SealedArchives(s: Settings, keys: set<Master>, key: Master, rows: Rows)
    requires Sealed(s, keys, key, rows)
    ensures forall b :: b in LoadIndex(rows) ==> ReadBlock(s, rows, key, b).Ok?
    ensures Archives(s, rows, keys, key, ContentsOf(s, key, rows))
  {
    hide ReadBlob, ArchiveKey;
    forall b | b in LoadIndex(rows)
      ensures ArchiveKey(b) in rows && rows[ArchiveKey(b)].ArchiveRow? && rows[ArchiveKey(b)].block == b
      ensures Readable(s, keys, key, rows[ArchiveKey(b)].blob)
    {
      var k :| k in rows && rows[k].ArchiveRow? && rows[k].block == b;
    }
  }

  lemma ArchivesSealed(s: Settings, keys: set<Master>, key: Master, rows: Rows, contents: Contents)
    requires Archives(s, rows, keys, key, contents)
    requires forall k :: k in rows && rows[k].ArchiveRow? ==> k == ArchiveKey(rows[k].block)
    ensures Sealed(s, keys, key, rows)
  {
    hide ReadBlob, ArchiveKey, Readable, Under;
    forall k | k in rows && rows[k].ArchiveRow? ensures Readable(s, keys, key, rows[k].blob) {
      var b := rows[k].block;
      assert b in LoadIndex(rows);
      UnderReadable(s, rows, keys, key, b, contents[b]);
    }
  }

  /** Archive rows are rewritten in place, and nothing else changes. */
  ghost predicate Rewritten(rows: Rows, next: Rows) {
    && rows.Keys == next.Keys
    && forall k :: k in rows ==>
         if rows[k].ArchiveRow? then next[k].ArchiveRow? && next[k].block == rows[k].block else next[k] == rows[k]
  }

  ghost predicate Present(rows: Rows, block: string) {
    ArchiveKey(block) in rows && rows[ArchiveKey(block)].ArchiveRow? && rows[ArchiveKey(block)].block == block
  }

  lemma {:induction false} ReencryptRewrites(s: Settings, rows: Rows, key: Master, nonces: nat -> nat, jobs: seq<Job>,
                                             k: nat)
    requires s.copies > 0 && k <= |jobs| && forall j :: 0 <= j < |jobs| ==> Present(rows, jobs[j].block)
    ensures var r := Reencrypt(s, rows, key, nonces, jobs, k); r.Ok? ==> Rewritten(rows, r.value)
    decreases k
  {
    hide Pack, ArchiveKey;
    if k > 0 {
      ReencryptRewrites(s, rows, key, nonces, jobs, k - 1);
      assert Present(rows, jobs[k - 1].block);
    }
  }

  /** The jobs of a plan are blocks that are there. */
  lemma JobsPresent(s: Settings, rows: Rows, keys: set<Master>, before: Master, after: Master, contents: Contents,
                    order: seq<string>)
    requires Between(s, rows, keys, before, after, contents) && before != after && forall b :: b in order ==> b in contents
    ensures var p := PlanFor(s, rows, before, after, order);
            p.Ok? && forall j :: 0 <= j < |p.value.jobs| ==> Present(rows, p.value.jobs[j].block)
  {
    hide Between, PlanFor, ReadBlock, ArchiveKey;
    PlanWorks(s, rows, keys, before, after, contents, order);
    var jobs := PlanFor(s, rows, before, after, order).value.jobs;
    forall j | 0 <= j < |jobs| ensures Present(rows, jobs[j].block) {
      EitherOne(s, rows, keys, before, after, contents, jobs[j].block);
    }
  }

  /** A rotation run to the end. */
  function Rotated(s: Settings, rows: Rows, before: Master, after: Master, order: BlockOrder, nonces: nat -> nat): Rows
    requires s.copies > 0
  {
    var p := PlanFor(s, rows, before, after, order(rows));
    if p.Err? then rows
    else
      var w := Reencrypt(s, rows, after, nonces, p.value.jobs, |p.value.jobs|);
      if w.Err? then rows else w.value
  }

  lemma RotatedRewrites(s: Settings, rows: Rows, keys: set<Master>, before: Master, after: Master, contents: Contents,
                        a: Attempt)
    requires Sane(s, keys) && Between(s, rows, keys, before, after, contents) && before != after
    ensures s.copies > 0
    ensures Rewritten(rows, AttemptOn(s, rows, before, after, a))
    ensures Rewritten(rows, Rotated(s, rows, before, after, a.order, a.nonces))
    ensures Archives(s, Rotated(s, rows, before, after, a.order, a.nonces), keys, after, contents)
  {
    hide Sane, PlanFor, Reencrypt, Under, LoadIndex;
    SaneCopies(s, keys);
    var order := a.order(rows);
    AttemptWorks(s, rows, keys, before, after, contents, a.nonces, order, 0);
    JobsPresent(s, rows, keys, before, after, contents, order);
    var jobs := PlanFor(s, rows, before, after, order).value.jobs;
    ReencryptRewrites(s, rows, after, a.nonces, jobs, if a.writes <= |jobs| then a.writes else |jobs|);
    ReencryptRewrites(s, rows, after, a.nonces, jobs, |jobs|);
  }

  lemma {:induction false} AttemptsRewrite(s: Settings, rows: Rows, keys: set<Master>, before: Master, after: Master,
                                           contents: Contents, cuts: seq<Attempt>)
    requires Sane(s, keys) && Between(s, rows, keys, before, after, contents) && before != after
    ensures s.copies > 0 && Rewritten(rows, Attempts(s, rows, before, after, cuts))
  {
    hide Sane, Between, AttemptOn, Rotated;
    SaneCopies(s, keys);
    if |cuts| > 0 {
      var n := |cuts| - 1;
      AttemptsRewrite(s, rows, keys, before, after, contents, cuts[..n]);
      AttemptsBetween(s, rows, keys, before, after, contents, cuts[..n]);
      RotatedRewrites(s, Attempts(s, rows, before, after, cuts[..n]), keys, before, after, contents, cuts[n]);
    }
  }

  // ------------------------------------------------------------------ refinement

  /** The same contents under another key are the same objects. */
  lemma RekeyedRefines(env: Env, st: Store, objects: Objects, after: Master, contents: Contents, rows: Rows,
                       keys: set<Master>)
    requires Refines(env, st, objects) && Rewritten(st.rows, rows)
    requires Archives(env.settings, st.rows, keys, env.key, contents)
             && Archives(env.settings, rows, keys, after, contents)
    ensures Refines(env.(key := after), st.(rows := rows), objects)
  {
    hide ReadBlob, ArchiveKey, IndexKey, Location, Fits;
    var env2, st2 := env.(key := after), st.(rows := rows);
    forall id ensures EntryOf(st2, id) == EntryOf(st, id) {
      assert IndexKey(id) in st.rows <==> IndexKey(id) in rows;
    }
    forall tier, location | Get(env, st, tier, location).Ok? ensures Get(env2, st2, tier, location) == Get(env, st, tier, location) {
      SameGet(env, st, after, contents, rows, keys, tier, location);
    }
    forall id | id in objects ensures ItemHeld(env2, st2, id, objects[id]) {
      assert ItemHeld(env, st, id, objects[id]);
    }
  }

  lemma SameGet(env: Env, st: Store, after: Master, contents: Contents, rows: Rows, keys: set<Master>, tier: Tier,
                location: string)
    requires WellKept(st) && Rewritten(st.rows, rows) && Get(env, st, tier, location).Ok?
    requires Archives(env.settings, st.rows, keys, env.key, contents)
             && Archives(env.settings, rows, keys, after, contents)
    ensures Get(env.(key := after), st.(rows := rows), tier, location) == Get(env, st, tier, location)
  {
    hide ReadBlock, ArchiveKey, LoadIndex;
    if tier == Archived {
      assert location in contents;
      assert Under(env.settings, st.rows, keys, env.key, location, contents[location]);
      assert Under(env.settings, rows, keys, after, location, contents[location]);
    }
  }

  /** A finished rotation, after any number of cut ones, leaves the objects as they
      were, under the new key. */
  lemma RotationRefines(env: Env, keys: set<Master>, st: Store, objects: Objects, after: Master, cuts: seq<Attempt>,
                        order: BlockOrder, nonces: nat -> nat)
    requires Sane(env.settings, keys) && {env.key, after} <= keys && env.key != after
    requires Refines(env, st, objects) && Sealed(env.settings, keys, env.key, st.rows)
    ensures env.settings.copies > 0
    ensures var rows := Rotated(env.settings, Attempts(env.settings, st.rows, env.key, after, cuts), env.key, after, order, nonces);
            Refines(env.(key := after), st.(rows := rows), objects) && Sealed(env.settings, keys, after, rows)
  {
    hide Sane, Refines, Sealed, Between, Archives, Attempts, AttemptOn, Rotated, Rewritten, LoadIndex, ReadBlock,
         ContentsOf;
    var s, before := env.settings, env.key;
    SealedArchives(s, keys, before, st.rows);
    var contents := ContentsOf(s, before, st.rows);
    ArchivesBetween(s, st.rows, keys, before, after, contents);
    AttemptsRewrite(s, st.rows, keys, before, after, contents, cuts);
    AttemptsBetween(s, st.rows, keys, before, after, contents, cuts);
    var mid := Attempts(s, st.rows, before, after, cuts);
    RotatedRewrites(s, mid, keys, before, after, contents, Attempt(order, nonces, 0));
    var rows := Rotated(s, mid, before, after, order, nonces);
    RewrittenTwice(st.rows, mid, rows);
    RekeyedRefines(env, st, objects, after, contents, rows, keys);
    RefinedPlaces(env.(key := after), st.(rows := rows), objects);
    ArchivesSealed(s, keys, after, rows, contents);
  }

  lemma RewrittenTwice(a: Rows, b: Rows, c: Rows)
    requires Rewritten(a, b) && Rewritten(b, c)
    ensures Rewritten(a, c)
  {
  }

  lemma RefinedPlaces(env: Env, st: Store, objects: Objects)
    requires Refines(env, st, objects)
    ensures forall k :: k in st.rows && st.rows[k].ArchiveRow? ==> k == ArchiveKey(st.rows[k].block)
  {
    hide ItemHeld, ArchiveKey, LoadIndex;
  }

  // ---------------------------------------------------------------- over all runs

  /** The life of the store under one key: any actions, then a rotation to `after` by
      new processes, cut off any number of times and then finished. */
  datatype Era = Era(acts: seq<Action>, after: Master, cuts: seq<Attempt>, order: BlockOrder, nonces: nat -> nat)

  /** The environment after the eras: only the key has changed. */
  function KeyedAfter(env: Env, eras: seq<Era>): Env {
    if |eras| == 0 then env else env.(key := eras[|eras| - 1].after)
  }

  /** The stores after the eras; the next era starts with a new process. */
  function RunEras(env: Env, eras: seq<Era>): Store
    requires env.settings.copies > 0
  {
    if |eras| == 0 then Store(map[], map[], {})
    else
      var n := |eras| - 1;
      var e, now := eras[n], KeyedAfter(env, eras[..n]);
      var rows := RunFrom(now, RunEras(env, eras[..n]), e.acts).rows;
      var mid := Attempts(env.settings, rows, now.key, e.after, e.cuts);
      Reopen(Store(map[], Rotated(env.settings, mid, now.key, e.after, e.order, e.nonces), {}))
  }

  function RunErasOn(env: Env, eras: seq<Era>): Objects
  {
    if |eras| == 0 then map[] else Lose(RunOnFrom(env, RunErasOn(env, eras[..|eras| - 1]), eras[|eras| - 1].acts))
  }

  /** All keys come from `keys`, and each rotation is to another key. */
  ghost predicate Keyed(env: Env, keys: set<Master>, eras: seq<Era>) {
    env.key in keys && forall i :: 0 <= i < |eras| ==> eras[i].after in keys && eras[i].after != KeyedAfter(env, eras[..i]).key
  }

  lemma {:induction false} ErasRefine(env: Env, keys: set<Master>, eras: seq<Era>)
    requires Trusted(env) && Sane(env.settings, keys) && Keyed(env, keys, eras)
    ensures env.settings.copies > 0
    ensures var now := KeyedAfter(env, eras);
            Trusted(now) && now.key in keys && Refines(now, RunEras(env, eras), RunErasOn(env, eras))
            && Sealed(env.settings, keys, now.key, RunEras(env, eras).rows)
  {
    hide Sane, Refines, Sealed, Attempts, Rotated, RunFrom, RunOnFrom, Reopen, Lose;
    SaneCopies(env.settings, keys);
    if |eras| == 0 {
      EmptyRefines(env);
      NothingSealed(env.settings, keys, env.key);
    } else {
      var n := |eras| - 1;
      var e, now, later := eras[n], KeyedAfter(env, eras[..n]), KeyedAfter(env, eras);
      assert forall i :: 0 <= i < n ==> eras[..n][..i] == eras[..i];
      ErasRefine(env, keys, eras[..n]);
      var objects := RunOnFrom(env, RunErasOn(env, eras[..n]), e.acts);
      SameOnMap(env, now, RunErasOn(env, eras[..n]), e.acts);
      RunFromRefines(now, keys, RunEras(env, eras[..n]), RunErasOn(env, eras[..n]), e.acts);
      var st := RunFrom(now, RunEras(env, eras[..n]), e.acts);
      RotationRefines(now, keys, st, objects, e.after, e.cuts, e.order, e.nonces);
      var rows := Rotated(env.settings, Attempts(env.settings, st.rows, now.key, e.after, e.cuts), now.key, e.after, e.order, e.nonces);
      RestartRefines(later, st.(rows := rows), objects);
      ReopenedRows(st, rows);
      SaneFewer(env.settings, keys, {later.key});
    }
  }

  lemma NothingSealed(s: Settings, keys: set<Master>, key: Master)
    ensures Sealed(s, keys, key, map[])
  {
  }

  lemma ReopenedRows(st: Store, rows: Rows)
    ensures Reopen(st.(rows := rows)) == Reopen(Store(map[], rows, {})) && Reopen(Store(map[], rows, {})).rows == rows
  {
  }

  /** The plain map knows nothing of keys. */
  lemma {:induction false} SameOnMap(env: Env, other: Env, objects: Objects, acts: seq<Action>)
    requires other == env.(key := other.key)
    ensures RunOnFrom(other, objects, acts) == RunOnFrom(env, objects, acts)
  {
    if |acts| > 0 { SameOnMap(env, other, objects, acts[..|acts| - 1]); }
  }

  /** Over any number of keys, each with any run of store, move, delete and restart,
      and each rotation however often cut off, the router is the plain map. */
  lemma RetrieveAcrossKeys(env: Env, keys: set<Master>, eras: seq<Era>, acts: seq<Action>, id: string, verify: bool)
    requires Trusted(env) && Sane(env.settings, keys) && Keyed(env, keys, eras)
    ensures env.settings.copies > 0
    ensures var now := KeyedAfter(env, eras);
            Retrieve(now, RunFrom(now, RunEras(env, eras), acts), id, verify)
            == Lookup(RunOnFrom(env, RunErasOn(env, eras), acts), id)
  {
    hide Sane, Refines, Sealed, RunFrom, RunOnFrom, Retrieve, Lookup, RunEras, RunErasOn;
    SaneCopies(env.settings, keys);
    var now := KeyedAfter(env, eras);
    ErasRefine(env, keys, eras);
    SameOnMap(env, now, RunErasOn(env, eras), acts);
    RunFromRefines(now, keys, RunEras(env, eras), RunErasOn(env, eras), acts);
    RefinedRetrieve(now, RunFrom(now, RunEras(env, eras), acts), RunOnFrom(env, RunErasOn(env, eras), acts), id,
      verify);
  }
}
