/** Rotating the master key over every database. */
module Manager {
  // First its streams, then its archive, one database after the other
  // (mdc/src/mdc/databases/manager.py).

  import Archive
  import Listings
  import opened EventLog
  import opened EventOps
  import Runs = EventRuns
  import ER = EventRotation
  import opened MasterKeys
  import opened Outcomes

  /** One database: what is stored of its streams and archive, and the two objects
      over them, each with the key it holds. */
  datatype Database = Database(blocks: Blocks, rows: Archive.Rows, events: Instance, archiveKey: Master)

  datatype Failure = Streams(error: Error) | Blocks(problem: Archive.Problem)

  /** Where in a database an attempt ends: not at all, or after some of the writes
      of one of its halves. */
  datatype Stop = InStreams(k: nat) | InArchive(k: nat) | Never

  /** The archive's writes when its rotation plan is `jobs`, up to the `k`-th. */
  function ArchiveWrites(s: Archive.Settings, rows: Archive.Rows, after: Master, nonces: nat -> nat,
                         jobs: seq<Archive.Job>, k: nat): Archive.Rows
    requires s.copies > 0
  {
    var r := Archive.Reencrypt(s, rows, after, nonces, jobs, if k <= |jobs| then k else |jobs|);
    if r.Ok? then r.value else rows
  }

  /** The order in which the storage lists a database's records and blocks: any. */
  datatype Orders = Orders(records: ER.RecordOrder, blocks: Archive.BlockOrder)

  /** One database, up to `stop`: the failure that ends the whole rotation, if any,
      and the database after it. A cut-off process leaves its writes behind. */
  function RotateOne(s: Archive.Settings, orders: Orders, db: Database, after: Master, nonces: nat -> nat,
                     stop: Stop): (Option<Failure>, Database)
    requires s.copies > 0
  {
    ER.ListedRecords(db.blocks, orders.records(db.blocks));
    var o := ER.Rotate(db.blocks, db.events, after, orders.records(db.blocks));
    if o.result.Err? then (Some(Streams(o.result.error)), db.(events := o.store))
    else if stop.InStreams? then (None, db.(blocks := Perform(db.blocks, Runs.Cut(o.writes, stop.k))))
    else
      var streams := db.(blocks := Perform(db.blocks, o.writes), events := o.store);
      if after == db.archiveKey then (Some(Blocks(Archive.SameKey)), streams)
      else
        var plan := Archive.PlanFor(s, db.rows, db.archiveKey, after, orders.blocks(db.rows));
        if plan.Err? then (Some(Blocks(plan.error)), streams)
        else
          var jobs := plan.value.jobs;
          if stop.InArchive? then (None, streams.(rows := ArchiveWrites(s, db.rows, after, nonces, jobs, stop.k)))
          else (None, streams.(rows := ArchiveWrites(s, db.rows, after, nonces, jobs, |jobs|), archiveKey := after))
  }

  /** `rotate_event_key` from database `i` on: a failure leaves the rest alone. */
  function RotateFrom(s: Archive.Settings, orders: Orders, dbs: seq<Database>, after: Master, nonces: nat -> nat,
                      i: nat): (Option<Failure>, seq<Database>)
    requires s.copies > 0 && i <= |dbs|
    decreases |dbs| - i
  {
    if i == |dbs| then (None, dbs)
    else
      var (failure, db) := RotateOne(s, orders, dbs[i], after, nonces, Never);
      if failure.Some? then (failure, dbs[i := db]) else RotateFrom(s, orders, dbs[i := db], after, nonces, i + 1)
  }

  /** A new process that holds `key`. */
  function Open(db: Database, key: Master): Database {
    db.(events := Fresh(key, 50), archiveKey := key)
  }

  function OpenAll(dbs: seq<Database>, key: Master): (r: seq<Database>)
    ensures |r| == |dbs|
  {
    seq(|dbs|, i requires 0 <= i < |dbs| => Open(dbs[i], key))
  }

  // ---------------------------------------------------------------- invariants

  /** What a database held when the rotation began: the stored records, the
      streams in them, and the contents of its archive. */
  datatype Holding = Holding(blocks: Blocks, logs: Logs, contents: Archive.Contents)

  /** A database under one key. It may have no key check yet, or nothing but one. */
  ghost predicate Held(env: Env, s: Archive.Settings, db: Database, keys: set<Master>, key: Master, h: Holding) {
    db.blocks == h.blocks && ER.Kept(env, db.blocks, key, h.logs) && Archive.Archives(s, db.rows, keys, key, h.contents)
  }

  /** A database on its way from one key to the other. One without streams has
      nothing to move but its archive: its key check, if any, stays as it is. */
  ghost predicate Rotating(env: Env, s: Archive.Settings, db: Database, before: Master, after: Master, h: Holding) {
    && ER.UnderWay(env, db.blocks, before, after, h.logs)
    && (h.logs == map[] ==> db.blocks == h.blocks)
    && Archive.Between(s, db.rows, {before, after}, before, after, h.contents)
  }

  ghost predicate Rotated(env: Env, s: Archive.Settings, db: Database, before: Master, after: Master, h: Holding) {
    && (if h.logs == map[] then db.blocks == h.blocks else Represents(env, db.blocks, after, h.logs))
    && Archive.Archives(s, db.rows, {before, after}, after, h.contents)
  }

  lemma ArchiveStep(s: Archive.Settings, orders: Orders, rows: Archive.Rows, before: Master, after: Master,
                    contents: Archive.Contents, nonces: nat -> nat, k: nat)
    requires Archive.Sane(s, {before, after}) && Archive.Between(s, rows, {before, after}, before, after, contents)
             && before != after
    ensures s.copies > 0
    ensures var plan := Archive.PlanFor(s, rows, before, after, orders.blocks(rows));
            && plan.Ok?
            && Archive.Between(s, ArchiveWrites(s, rows, after, nonces, plan.value.jobs, k), {before, after}, before,
               after, contents)
            && Archive.Archives(s, ArchiveWrites(s, rows, after, nonces, plan.value.jobs, |plan.value.jobs|),
               {before, after}, after, contents)
  {
    hide Archive.Sane, Archive.Between, Archive.Archives, Archive.PlanFor, Archive.Reencrypt, Archive.LoadIndex;
    Archive.SaneCopies(s, {before, after});
    var order := orders.blocks(rows);
    Archive.AttemptWorks(s, rows, {before, after}, before, after, contents, nonces, order, 0);
    var jobs := Archive.PlanFor(s, rows, before, after, order).value.jobs;
    Archive.AttemptWorks(s, rows, {before, after}, before, after, contents, nonces, order, if k <= |jobs| then k else |jobs|);
  }

  /** One database, opened by a new process with the old key: it never fails; cut
      off anywhere it can be taken up again, and left alone it is finished. */
  lemma OneDatabase(env: Env, s: Archive.Settings, orders: Orders, db: Database, before: Master, after: Master,
                    h: Holding, nonces: nat -> nat, stop: Stop)
    requires Archive.Sane(s, {before, after}) && before != after && Rotating(env, s, db, before, after, h)
    ensures s.copies > 0
    ensures var (failure, next) := RotateOne(s, orders, Open(db, before), after, nonces, stop);
            && failure.None? && Rotating(env, s, next, before, after, h)
            && (stop.Never? ==> Rotated(env, s, next, before, after, h))
  {
    hide Archive.Sane, Archive.Between, Archive.Archives, Archive.PlanFor, ArchiveWrites, ER.Rotate, ER.UnderWay,
         Represents, Perform;
    var k := if stop.Never? then 0 else stop.k;
    var order := orders.records(db.blocks);
    ER.OneAttempt(env, db.blocks, before, after, h.logs, 50, order, k);
    ER.OneAttempt(env, db.blocks, before, after, h.logs, 50, order,
      |ER.Rotate(db.blocks, Fresh(before, 50), after, order).writes|);
    Runs.NoWrites(db.blocks);
    ArchiveStep(s, orders, db.rows, before, after, h.contents, nonces, k);
    var (failure, next) := RotateOne(s, orders, Open(db, before), after, nonces, stop);
    if stop.Never? { FinishedBetween(s, next.rows, before, after, h.contents); }
  }

  lemma FinishedBetween(s: Archive.Settings, rows: Archive.Rows, before: Master, after: Master,
                        contents: Archive.Contents)
    requires Archive.Archives(s, rows, {before, after}, after, contents)
    ensures Archive.Between(s, rows, {before, after}, before, after, contents)
  {
    hide Archive.Under;
  }

  // -------------------------------------------------------------- interruptions

  ghost predicate AllRotating(env: Env, s: Archive.Settings, dbs: seq<Database>, before: Master, after: Master,
                              hs: seq<Holding>) {
    |dbs| == |hs| && forall i :: 0 <= i < |dbs| ==> Rotating(env, s, dbs[i], before, after, hs[i])
  }

  /** An attempt of a new process: the databases before `at` in full, that one up
      to `stop`, the rest not at all. */
  function AttemptFrom(s: Archive.Settings, orders: Orders, dbs: seq<Database>, before: Master, after: Master,
                       nonces: nat -> nat, at: nat, stop: Stop, i: nat): seq<Database>
    requires s.copies > 0 && i <= |dbs|
    decreases |dbs| - i
  {
    if i == |dbs| || i > at then dbs
    else
      var (failure, db) := RotateOne(s, orders, Open(dbs[i], before), after, nonces, if i < at then Never else stop);
      if failure.Some? then dbs[i := db] else AttemptFrom(s, orders, dbs[i := db], before, after, nonces, at, stop, i + 1)
  }

  datatype Cutoff = Cutoff(orders: Orders, nonces: nat -> nat, at: nat, stop: Stop)

  function Attempts(s: Archive.Settings, dbs: seq<Database>, before: Master, after: Master,
                    cuts: seq<Cutoff>): seq<Database>
    requires s.copies > 0
  {
    if |cuts| == 0 then dbs
    else
      var earlier, c := Attempts(s, dbs, before, after, cuts[..|cuts| - 1]), cuts[|cuts| - 1];
      AttemptFrom(s, c.orders, earlier, before, after, c.nonces, c.at, c.stop, 0)
  }

  lemma {:induction false} AttemptKeeps(env: Env, s: Archive.Settings, orders: Orders, dbs: seq<Database>,
                                        before: Master, after: Master, hs: seq<Holding>, nonces: nat -> nat, at: nat,
                                        stop: Stop, i: nat)
    requires Archive.Sane(s, {before, after}) && before != after && AllRotating(env, s, dbs, before, after, hs)
             && i <= |dbs|
    ensures s.copies > 0 && AllRotating(env, s, AttemptFrom(s, orders, dbs, before, after, nonces, at, stop, i), before,
            after, hs)
    decreases |dbs| - i
  {
    hide Archive.Sane, Rotating, RotateOne;
    Archive.SaneCopies(s, {before, after});
    if i < |dbs| && i <= at {
      var here := if i < at then Never else stop;
      OneDatabase(env, s, orders, dbs[i], before, after, hs[i], nonces, here);
      AttemptKeeps(env, s, orders, dbs[i := RotateOne(s, orders, Open(dbs[i], before), after, nonces, here).1], before,
        after, hs, nonces, at, stop, i + 1);
    }
  }

  lemma {:induction false} AttemptsKeep(env: Env, s: Archive.Settings, dbs: seq<Database>, before: Master,
                                        after: Master,
                                        hs: seq<Holding>, cuts: seq<Cutoff>)
    requires Archive.Sane(s, {before, after}) && before != after && AllRotating(env, s, dbs, before, after, hs)
    ensures s.copies > 0 && AllRotating(env, s, Attempts(s, dbs, before, after, cuts), before, after, hs)
  {
    hide Archive.Sane, AllRotating, AttemptFrom;
    Archive.SaneCopies(s, {before, after});
    if |cuts| > 0 {
      AttemptsKeep(env, s, dbs, before, after, hs, cuts[..|cuts| - 1]);
      var earlier, c := Attempts(s, dbs, before, after, cuts[..|cuts| - 1]), cuts[|cuts| - 1];
      AttemptKeeps(env, s, c.orders, earlier, before, after, hs, c.nonces, c.at, c.stop, 0);
    }
  }

  lemma {:induction false} AllFinish(env: Env, s: Archive.Settings, orders: Orders, dbs: seq<Database>, before: Master,
                                     after: Master, hs: seq<Holding>, nonces: nat -> nat, i: nat)
    requires Archive.Sane(s, {before, after}) && before != after && |dbs| == |hs| && i <= |dbs|
    requires forall j :: 0 <= j < i ==> Rotated(env, s, dbs[j], before, after, hs[j])
    requires forall j :: i <= j < |dbs| ==> Rotating(env, s, dbs[j], before, after, hs[j]) && dbs[j] == Open(dbs[j], before)
    ensures s.copies > 0
    ensures var (failure, done) := RotateFrom(s, orders, dbs, after, nonces, i);
            failure.None? && |done| == |hs| && forall j :: 0 <= j < |done| ==> Rotated(env, s, done[j], before, after, hs[j])
    decreases |dbs| - i
  {
    hide Archive.Sane, Rotating, Rotated, RotateOne;
    Archive.SaneCopies(s, {before, after});
    if i < |dbs| {
      OneDatabase(env, s, orders, dbs[i], before, after, hs[i], nonces, Never);
      AllFinish(env, s, orders, dbs[i := RotateOne(s, orders, dbs[i], after, nonces, Never).1], before, after, hs,
        nonces, i + 1);
    }
  }

  /** Rotation over all databases is resumable: after any number of attempts, each by
      a new process with the old key and each cut off anywhere, one run to the end
      leaves every stream and every archive block of every database under the new
      key, with its content. Databases with streams but no key check are migrated
      like the others; one without streams keeps the records it had, and holds up
      nobody. */
  lemma ManagerResumes(env: Env, s: Archive.Settings, dbs: seq<Database>, before: Master, after: Master,
                       hs: seq<Holding>,
                       cuts: seq<Cutoff>, orders: Orders, nonces: nat -> nat)
    requires Archive.Sane(s, {before, after}) && before != after && |dbs| == |hs|
    requires forall i :: 0 <= i < |dbs| ==> Held(env, s, dbs[i], {before, after}, before, hs[i])
    ensures s.copies > 0
    ensures var mid := Attempts(s, dbs, before, after, cuts);
            var (failure, done) := RotateFrom(s, orders, OpenAll(mid, before), after, nonces, 0);
            && AllRotating(env, s, mid, before, after, hs)
            && failure.None? && |done| == |hs|
            && forall i :: 0 <= i < |done| ==> Rotated(env, s, done[i], before, after, hs[i])
  {
    hide Archive.Sane, Held, Rotating, Attempts, RotateFrom;
    Archive.SaneCopies(s, {before, after});
    forall i | 0 <= i < |dbs| ensures Rotating(env, s, dbs[i], before, after, hs[i]) {
      StartsRotating(env, s, dbs[i], before, after, hs[i]);
    }
    AttemptsKeep(env, s, dbs, before, after, hs, cuts);
    var mid := Attempts(s, dbs, before, after, cuts);
    var ready := OpenAll(mid, before);
    forall j | 0 <= j < |ready| ensures Rotating(env, s, ready[j], before, after, hs[j]) {
      OpenedRotating(env, s, mid[j], before, after, hs[j]);
    }
    AllFinish(env, s, orders, ready, before, after, hs, nonces, 0);
  }

  lemma OpenedRotating(env: Env, s: Archive.Settings, db: Database, before: Master, after: Master, h: Holding)
    requires Rotating(env, s, db, before, after, h)
    ensures Rotating(env, s, Open(db, before), before, after, h)
  {
    hide Archive.Between, ER.UnderWay;
  }

  lemma StartsRotating(env: Env, s: Archive.Settings, db: Database, before: Master, after: Master, h: Holding)
    requires before != after && Held(env, s, db, {before, after}, before, h)
    ensures Rotating(env, s, db, before, after, h)
  {
    hide Represents, Archive.Archives, Archive.Between, ER.EitherKey, ER.Kept, ER.Ready;
    Archive.ArchivesBetween(s, db.rows, {before, after}, before, after, h.contents);
    ER.KeptReady(env, db.blocks, before, after, h.logs);
  }

  /** The rerun that the same process cannot do: once the first database is finished
      its objects hold the new key, and rotating to it again is refused before
      anything happens, whatever state the others are in. */
  lemma SameProcessRerunRefused(s: Archive.Settings, orders: Orders, dbs: seq<Database>, after: Master,
                                nonces: nat -> nat)
    requires |dbs| > 0 && s.copies > 0 && RotateOne(s, orders, dbs[0], after, nonces, Never).0.None?
    ensures var first := dbs[0 := RotateOne(s, orders, dbs[0], after, nonces, Never).1];
            RotateFrom(s, orders, first, after, nonces, 0) == (Some(Streams(InvalidEvent)), first)
  {
    hide Archive.PlanFor, ArchiveWrites, Perform;
    var db := RotateOne(s, orders, dbs[0], after, nonces, Never).1;
    AdoptsKey(dbs[0].blocks, dbs[0].events, after, orders.records(dbs[0].blocks));
    assert db.events.master == after;
    var again := ER.Rotate(db.blocks, db.events, after, orders.records(db.blocks));
    assert again == Outcome(Err(InvalidEvent), db.events, []);
    var first := dbs[0 := db];
    assert RotateOne(s, orders, db, after, nonces, Never) == (Some(Streams(InvalidEvent)), db);
    assert first[0 := db] == first;
  }

  lemma AdoptsKey(blocks: Blocks, store: Instance, after: Master, order: seq<BlockId>)
    requires forall id :: id in order ==> id in blocks && !id.CheckId?
    requires ER.Rotate(blocks, store, after, order).result.Ok?
    ensures ER.Rotate(blocks, store, after, order).store.master == after
  {
  }

  // ----------------------------------------------------------------- the object

  class DatabaseManager {
    const settings: Archive.Settings
    const orders: Orders
    var databases: seq<Database>
    var masterKey: Master

    constructor (settings: Archive.Settings, orders: Orders, databases: seq<Database>, key: Master)
      ensures this.settings == settings && this.orders == orders
      ensures masterKey == key && this.databases == OpenAll(databases, key)
    {
      this.settings := settings;
      this.orders := orders;
      this.databases := OpenAll(databases, key);
      masterKey := key;
    }

    /** `rotate_event_key`: the key held changes only once every database is done. */
    method RotateEventKey(after: Master, nonces: nat -> nat) returns (failure: Option<Failure>)
      requires settings.copies > 0
      modifies this
      ensures (failure, databases) == old(RotateFrom(settings, orders, databases, after, nonces, 0))
      ensures masterKey == if failure.None? then after else old(masterKey)
    {
      hide RotateOne;
      var i := 0;
      while i < |databases|
        invariant 0 <= i <= |databases|
        invariant RotateFrom(settings, orders, databases, after, nonces,
                  i) == old(RotateFrom(settings, orders, databases, after, nonces, 0))
        invariant masterKey == old(masterKey)
        decreases |databases| - i
      {
        var (stopped, db) := RotateOne(settings, orders, databases[i], after, nonces, Never);
        databases := databases[i := db];
        if stopped.Some? { return stopped; }
        i := i + 1;
      }
      masterKey := after;
      failure := None;
    }
  }
}
