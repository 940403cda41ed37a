/** Rotating the sealing key of a store. */
module EventRotation {
  // Every record is opened and re-sealed in memory first, then written one at a
  // time, the key check last (mdc/src/mdc/events/store.py:289-357). Stopping after
  // any prefix of the writes and starting again ends where an undisturbed run ends.

  import opened EventLog
  import opened EventOps
  import opened EventRuns
  import opened Listings
  import opened MasterKeys
  import opened Outcomes

  /** `_kind_and_seq`. */
  function KindOfId(id: BlockId): Kind {
    match id
    case Snp(_, _) => SnapshotKind
    case Evt(_, n) => if n == 0 then BaseKind else EventKind
    case CheckId => CheckKind
  }

  predicate HasEvents(blocks: Blocks, stream: string) {
    exists id :: id in blocks && id.Evt? && id.stream == stream
  }

  /** The records a rotation looks at: those of every stream that has events. */
  function RecordIds(blocks: Blocks): set<BlockId> {
    set id | id in blocks && !id.CheckId? && HasEvents(blocks, id.stream)
  }

  datatype Plan = Plan(writes: seq<Write>, already: nat)

  function OpenAt(blocks: Blocks, master: Master, id: BlockId): Option<Record>
    requires id in blocks && !id.CheckId?
  {
    Open(master, id.stream, KindOfId(id), id.seqNo, blocks[id])
  }

  /** Opening and re-sealing in memory. */
  function PlanFor(blocks: Blocks, before: Master, after: Master, order: seq<BlockId>): Result<Plan, Error>
    requires forall id :: id in order ==> id in blocks && !id.CheckId?
  {
    if |order| == 0 then Ok(Plan([], 0))
    else
      var id := order[|order| - 1];
      var p :- PlanFor(blocks, before, after, order[..|order| - 1]);
      var plain := OpenAt(blocks, before, id);
      if plain.Some? then Ok(Plan(p.writes + [Write(id, Seal(after, id.stream, id.seqNo, plain.value))], p.already))
      else if OpenAt(blocks, after, id).Some? then Ok(Plan(p.writes, p.already + 1))
      else Err(Corrupt)
  }

  datatype Report = Report(records: nat, already: nat)

  predicate FinishedUnder(blocks: Blocks, master: Master) {
    CheckId in blocks && Open(master, CHECK_STREAM, CheckKind, 0, blocks[CheckId]).Some?
  }

  /** `rotate_key`, for the records in any order. */
  function Rotate(blocks: Blocks, store: Instance, after: Master, order: seq<BlockId>): Outcome<Report>
    requires forall id :: id in order ==> id in blocks && !id.CheckId?
  {
    var moved := store.(master := after, tails := []);
    if after == store.master then Refuse(InvalidEvent, store, [])
    else if FinishedUnder(blocks, after) then Outcome(Ok(Report(0, |order|)), moved.(verified := true), [])
    else
      var key := CheckKey(blocks, store, false);
      if key.result.Err? then Refuse(key.result.error, key.store, [])
      else
        var plan := PlanFor(blocks, store.master, after, order);
        if plan.Err? then Refuse(plan.error, key.store, [])
        else
          var check := if HasStreams(blocks) then [Write(CheckId, CheckBlob(after))] else [];
          Outcome(Ok(Report(|plan.value.writes|, plan.value.already)),
                  moved.(verified := HasStreams(blocks) || key.store.verified), plan.value.writes + check)
  }

  // ------------------------------------------------------- a record neither opens

  ghost predicate Unreadable(blocks: Blocks, before: Master, after: Master, id: BlockId)
    requires id in blocks && !id.CheckId?
  {
    OpenAt(blocks, before, id).None? && OpenAt(blocks, after, id).None?
  }

  lemma {:induction false} PlanFailsIff(blocks: Blocks, before: Master, after: Master, order: seq<BlockId>)
    requires forall id :: id in order ==> id in blocks && !id.CheckId?
    ensures PlanFor(blocks, before, after, order).Err? <==> exists id :: id in order && Unreadable(blocks, before, after, id)
    ensures PlanFor(blocks, before, after, order).Err? ==> PlanFor(blocks, before, after, order).error == Corrupt
  {
    hide OpenAt;
    if |order| > 0 {
      var n := |order| - 1;
      assert order == order[..n] + [order[n]];
      PlanFailsIff(blocks, before, after, order[..n]);
      assert forall id :: id in order <==> id in order[..n] || id == order[n];
      assert PlanFor(blocks, before, after, order).Err?
             <==> PlanFor(blocks, before, after, order[..n]).Err? || Unreadable(blocks, before, after, order[n]);
    }
  }

  /** A record that opens with neither key stops the rotation before any write,
      and nothing else does. */
  lemma NeitherKeyStops(blocks: Blocks, store: Instance, after: Master, order: seq<BlockId>)
    requires Lists(order, RecordIds(blocks)) && after != store.master && !FinishedUnder(blocks, after)
    requires CheckKey(blocks, store, false).result.Ok?
    ensures var o := Rotate(blocks, store, after, order);
            (o.result.Err? <==> exists id :: id in RecordIds(blocks) && Unreadable(blocks, store.master, after, id))
            && (o.result.Err? ==> o.writes == [] && o.result.error == Corrupt)
  {
    hide CheckKey, PlanFor, OpenAt;
    PlanFailsIff(blocks, store.master, after, order);
  }

  /** The records that the old key opens. */
  ghost function Readable(blocks: Blocks, master: Master, ids: set<BlockId>): set<BlockId>
    requires forall id :: id in ids ==> id in blocks && !id.CheckId?
  {
    set id | id in ids && OpenAt(blocks, master, id).Some?
  }

  lemma ReadableOneMore(blocks: Blocks, master: Master, ids: set<BlockId>, id: BlockId)
    requires id in ids && forall x :: x in ids ==> x in blocks && !x.CheckId?
    ensures |Readable(blocks, master, ids)|
            == |Readable(blocks, master, ids - {id})| + if OpenAt(blocks, master, id).Some? then 1 else 0
  {
    hide OpenAt;
    var fewer := Readable(blocks, master, ids - {id});
    assert Readable(blocks, master, ids) == if OpenAt(blocks, master, id).Some? then fewer + {id} else fewer;
  }

  lemma {:induction false} PlanCounts(blocks: Blocks, before: Master, after: Master, order: seq<BlockId>,
                                      ids: set<BlockId>)
    requires Lists(order, ids) && forall id :: id in ids ==> id in blocks && !id.CheckId?
    requires PlanFor(blocks, before, after, order).Ok?
    ensures var p := PlanFor(blocks, before, after, order).value;
            |p.writes| == |Readable(blocks, before, ids)| && |p.writes| + p.already == |ids|
    decreases |order|
  {
    hide OpenAt, Readable;
    if |order| == 0 {
      assert ids == {};
      NothingReadable(blocks, before);
    } else {
      var n := |order| - 1;
      ListsFewer(order, ids);
      PlanCounts(blocks, before, after, order[..n], ids - {order[n]});
      ReadableOneMore(blocks, before, ids, order[n]);
    }
  }

  lemma NothingReadable(blocks: Blocks, master: Master)
    ensures Readable(blocks, master, {}) == {}
  {
  }

  /** What a rotation that succeeds reports: the records it moved, which the old key
      opened, and all others, which were current already; or, when it had been
      finished before, that all of them were. */
  lemma ReportCounts(blocks: Blocks, store: Instance, after: Master, order: seq<BlockId>)
    requires Lists(order, RecordIds(blocks)) && Rotate(blocks, store, after, order).result.Ok?
    ensures var r, all := Rotate(blocks, store, after, order).result.value, RecordIds(blocks);
            r.records + r.already == |all|
            && r.records == if FinishedUnder(blocks, after) then 0 else |Readable(blocks, store.master, all)|
  {
    hide CheckKey, PlanFor, OpenAt, FinishedUnder;
    if FinishedUnder(blocks, after) {
      ListsLength(order, RecordIds(blocks));
    } else {
      PlanCounts(blocks, store.master, after, order, RecordIds(blocks));
    }
  }

  // --------------------------------------------------------------- either key

  /** A storage that holds exactly these streams under one key. The key check, too,
      is under that key, or absent: a database from before key checks existed has
      streams and no check, and is trusted until a rotation records one. */
  ghost predicate Kept(env: Env, blocks: Blocks, master: Master, logs: Logs) {
    && (forall s :: s in logs ==> Holds(env, blocks, master, s, logs[s]))
    && (forall s, n: nat :: Evt(s, n) in blocks ==> s in logs)
    && (forall s, n: nat :: Snp(s, n) in blocks ==> s in logs)
    && (CheckId in blocks ==> blocks[CheckId] == CheckBlob(master))
  }

  /** What a storage written today has besides: the check, once there is anything. */
  lemma KeptChecked(env: Env, blocks: Blocks, master: Master, logs: Logs)
    ensures Represents(env, blocks, master, logs) <==> Kept(env, blocks, master, logs) && (CheckId in blocks || blocks == map[])
  {
    hide Holds;
  }

  /** Any storage of today without its key check is one from before there were any. */
  lemma LegacyKept(env: Env, blocks: Blocks, master: Master, logs: Logs)
    requires Represents(env, blocks, master, logs)
    ensures Kept(env, blocks - {CheckId}, master, logs)
  {
    hide SoundLog, StateAfter, RecordAt, SnapshotAt;
    forall s | s in logs ensures Holds(env, blocks - {CheckId}, master, s, logs[s]) {
      assert Holds(env, blocks, master, s, logs[s]);
    }
  }

  /** Every record is where it belongs with its plaintext, under one of the keys. */
  ghost predicate EitherKey(env: Env, blocks: Blocks, before: Master, after: Master, logs: Logs) {
    && (forall s :: s in logs ==> SoundLog(env, logs[s]))
    && (forall s, n: nat :: Evt(s, n) in blocks <==> s in logs && n <= |logs[s].events|)
    && (forall s, n: nat :: Evt(s, n) in blocks ==> UnderEither(blocks[Evt(s, n)], before, after, s, n, RecordAt(logs[s], n)))
    && (forall s, n: nat :: Snp(s, n) in blocks ==>
          s in logs && n <= |logs[s].events| && UnderEither(blocks[Snp(s, n)], before, after, s, n,
            SnapshotAt(env, logs[s], n)))
    && (CheckId in blocks ==> blocks[CheckId] == CheckBlob(before) || blocks[CheckId] == CheckBlob(after))
  }

  ghost predicate UnderEither(blob: Blob, before: Master, after: Master, stream: string, n: nat, record: Record) {
    blob == Seal(before, stream, n, record) || blob == Seal(after, stream, n, record)
  }

  /** What a record says, and which keys open it. */
  function Plain(env: Env, logs: Logs, id: BlockId): Record
    requires !id.CheckId? && id.stream in logs && id.seqNo <= |logs[id.stream].events| && SoundLog(env, logs[id.stream])
  {
    if id.Evt? then RecordAt(logs[id.stream], id.seqNo) else SnapshotAt(env, logs[id.stream], id.seqNo)
  }

  /** Exactly one of two different keys opens a record, and it reads the same. */
  lemma OneKeyOpens(env: Env, blocks: Blocks, before: Master, after: Master, logs: Logs, id: BlockId)
    requires EitherKey(env, blocks, before, after, logs) && before != after && id in blocks && !id.CheckId?
    ensures id.stream in logs && id.seqNo <= |logs[id.stream].events| && SoundLog(env, logs[id.stream])
    ensures (OpenAt(blocks, before, id) == Some(Plain(env, logs, id)) && OpenAt(blocks, after, id) == None)
            || (OpenAt(blocks, after, id) == Some(Plain(env, logs, id)) && OpenAt(blocks, before, id) == None)
    ensures OpenAt(blocks, after, id).Some? <==> blocks[id] == Seal(after, id.stream, id.seqNo, Plain(env, logs, id))
    ensures OpenAt(blocks, before, id).Some? <==> blocks[id] == Seal(before, id.stream, id.seqNo, Plain(env, logs, id))
  {
    hide SoundLog, StateAfter;
    match id
    case Evt(s, n) => assert Evt(s, n) in blocks;
    case Snp(s, n) => assert Snp(s, n) in blocks;
  }

  lemma KeptEither(env: Env, blocks: Blocks, before: Master, after: Master, logs: Logs)
    requires Kept(env, blocks, before, logs)
    ensures EitherKey(env, blocks, before, after, logs)
  {
    hide StateAfter, SnapshotAt, RecordAt;
    KeptSound(env, blocks, before, logs);
    forall s, n: nat
      ensures Evt(s, n) in blocks <==> s in logs && n <= |logs[s].events|
      ensures Evt(s, n) in blocks ==> UnderEither(blocks[Evt(s, n)], before, after, s, n, RecordAt(logs[s], n))
      ensures Snp(s, n) in blocks ==>
                s in logs && n <= |logs[s].events| && UnderEither(blocks[Snp(s, n)], before, after, s, n,
                  SnapshotAt(env, logs[s], n))
    {
      if s in logs { assert Holds(env, blocks, before, s, logs[s]); }
    }
  }

  lemma KeptSound(env: Env, blocks: Blocks, master: Master, logs: Logs)
    requires Kept(env, blocks, master, logs)
    ensures forall s :: s in logs ==> SoundLog(env, logs[s])
  {
    hide SoundLog, StateAfter;
    forall s | s in logs ensures SoundLog(env, logs[s]) { assert Holds(env, blocks, master, s, logs[s]); }
  }

  /** Re-sealing one record under the new key. */
  lemma ResealKeeps(env: Env, blocks: Blocks, before: Master, after: Master, logs: Logs, id: BlockId)
    requires EitherKey(env, blocks, before, after, logs) && before != after && id in blocks && !id.CheckId?
    ensures id.stream in logs && id.seqNo <= |logs[id.stream].events| && SoundLog(env, logs[id.stream])
    ensures EitherKey(env, blocks[id := Seal(after, id.stream, id.seqNo, Plain(env, logs, id))], before, after, logs)
  {
    OneKeyOpens(env, blocks, before, after, logs, id);
    hide SoundLog, StateAfter, RecordAt, SnapshotAt;
  }

  /** The plan: it exists, writes only what is still under the old key, and any
      part of it leaves every record readable under one of the keys. */
  lemma {:induction false} PlanWorks(env: Env, blocks: Blocks, before: Master, after: Master, logs: Logs,
                                     order: seq<BlockId>)
    requires EitherKey(env, blocks, before, after, logs) && before != after
    requires forall id :: id in order ==> id in blocks && !id.CheckId?
    ensures var p := PlanFor(blocks, before, after, order);
            && p.Ok?
            && EitherKey(env, Perform(blocks, p.value.writes), before, after, logs)
            && Perform(blocks, p.value.writes).Keys == blocks.Keys
            && (CheckId in blocks ==> Perform(blocks, p.value.writes)[CheckId] == blocks[CheckId])
            && (forall id :: id in order ==> OpenAt(Perform(blocks, p.value.writes), after, id).Some?)
            && (forall w :: w in p.value.writes ==> w.id in order)
            && (forall id :: id in blocks && id !in order ==> Perform(blocks, p.value.writes)[id] == blocks[id])
            && |p.value.writes| + p.value.already == |order|
  {
    hide EitherKey, OpenAt, Perform;
    if |order| == 0 {
      NoWrites(blocks);
    } else {
      var n := |order| - 1;
      var id := order[n];
      assert order == order[..n] + [id];
      assert forall x :: x in order <==> x in order[..n] || x == id;
      PlanWorks(env, blocks, before, after, logs, order[..n]);
      var p := PlanFor(blocks, before, after, order[..n]).value;
      var mid := Perform(blocks, p.writes);
      OneKeyOpens(env, blocks, before, after, logs, id);
      OneKeyOpens(env, mid, before, after, logs, id);
      var plain := OpenAt(blocks, before, id);
      if plain.Some? {
        var w := Write(id, Seal(after, id.stream, id.seqNo, plain.value));
        ResealKeeps(env, mid, before, after, logs, id);
        LastWrite(blocks, p.writes, w);
        ResealOpens(env, mid, before, after, logs, id, order[..n]);
        hide Seal;
      } else {
        StillOpens(blocks, mid, before, after, id, order[..n]);
      }
    }
  }

  lemma ResealOpens(env: Env, blocks: Blocks, before: Master, after: Master, logs: Logs, id: BlockId,
                    done: seq<BlockId>)
    requires EitherKey(env, blocks, before, after, logs) && before != after && id in blocks && !id.CheckId?
    requires forall d :: d in done ==> d in blocks && !d.CheckId? && OpenAt(blocks, after, d).Some?
    ensures id.stream in logs && id.seqNo <= |logs[id.stream].events| && SoundLog(env, logs[id.stream])
    ensures var next := blocks[id := Seal(after, id.stream, id.seqNo, Plain(env, logs, id))];
            OpenAt(next, after, id).Some? && forall d :: d in done ==> OpenAt(next, after, d).Some?
  {
    OneKeyOpens(env, blocks, before, after, logs, id);
    ResealKeeps(env, blocks, before, after, logs, id);
    var next := blocks[id := Seal(after, id.stream, id.seqNo, Plain(env, logs, id))];
    OneKeyOpens(env, next, before, after, logs, id);
  }

  /** A record already under the new key keeps opening: it was not rewritten, or
      was rewritten under that key. */
  lemma StillOpens(blocks: Blocks, mid: Blocks, before: Master, after: Master, id: BlockId, done: seq<BlockId>)
    requires id in blocks && id in mid && !id.CheckId? && OpenAt(blocks, after, id).Some?
    requires id !in done ==> mid[id] == blocks[id]
    requires id in done ==> OpenAt(mid, after, id).Some?
    ensures OpenAt(mid, after, id).Some?
  {
  }

  /** Every record under the new key and the check written: the storage holds the
      same streams under the new key. */
  lemma AllMoved(env: Env, blocks: Blocks, before: Master, after: Master, logs: Logs)
    requires EitherKey(env, blocks, before, after, logs) && before != after
    requires forall id :: id in blocks && !id.CheckId? ==> OpenAt(blocks, after, id).Some?
    requires CheckId in blocks && blocks[CheckId] == CheckBlob(after)
    ensures Represents(env, blocks, after, logs)
  {
    hide StateAfter, OpenAt;
    forall s | s in logs ensures Holds(env, blocks, after, s, logs[s]) {
      forall n: nat | n <= |logs[s].events| ensures blocks[Evt(s, n)] == Seal(after, s, n, RecordAt(logs[s], n)) {
        assert Evt(s, n) in blocks;
        OneKeyOpens(env, blocks, before, after, logs, Evt(s, n));
      }
      forall n: nat | Snp(s, n) in blocks ensures blocks[Snp(s, n)] == Seal(after, s, n, SnapshotAt(env, logs[s], n)) {
        OneKeyOpens(env, blocks, before, after, logs, Snp(s, n));
      }
    }
  }

  // ------------------------------------------------------------- interruptions

  lemma RecordsCovered(env: Env, blocks: Blocks, before: Master, after: Master, logs: Logs, id: BlockId)
    requires EitherKey(env, blocks, before, after, logs) && id in blocks && !id.CheckId?
    ensures id in RecordIds(blocks) && HasStreams(blocks)
  {
    hide SoundLog, StateAfter, UnderEither;
    match id
    case Evt(s, n) =>
    case Snp(s, n) => assert Evt(s, n) in blocks;
  }

  lemma {:induction false} PrefixKeeps(env: Env, blocks: Blocks, before: Master, after: Master, logs: Logs,
                                       order: seq<BlockId>, k: nat)
    requires EitherKey(env, blocks, before, after, logs) && before != after
    requires forall id :: id in order ==> id in blocks && !id.CheckId?
    requires PlanFor(blocks, before, after, order).Ok? && k <= |PlanFor(blocks, before, after, order).value.writes|
    ensures var mid := Perform(blocks, PlanFor(blocks, before, after, order).value.writes[..k]);
            && EitherKey(env, mid, before, after, logs) && mid.Keys == blocks.Keys
            && (CheckId in blocks ==> mid[CheckId] == blocks[CheckId])
    decreases |order|
  {
    hide EitherKey, OpenAt;
    var ws := PlanFor(blocks, before, after, order).value.writes;
    if k == |ws| {
      assert ws[..k] == ws;
      PlanWorks(env, blocks, before, after, logs, order);
    } else {
      var n := |order| - 1;
      PrefixKeeps(env, blocks, before, after, logs, order[..n], k);
      assert ws[..k] == PlanFor(blocks, before, after, order[..n]).value.writes[..k];
    }
  }

  /** A storage before or between attempts: no check under the new key yet. */
  ghost predicate Ready(env: Env, blocks: Blocks, before: Master, after: Master, logs: Logs) {
    && EitherKey(env, blocks, before, after, logs) && before != after
    && (CheckId in blocks ==> blocks[CheckId] == CheckBlob(before))
  }

  lemma KeptReady(env: Env, blocks: Blocks, before: Master, after: Master, logs: Logs)
    requires Kept(env, blocks, before, logs) && before != after
    ensures Ready(env, blocks, before, after, logs)
  {
    hide Holds, EitherKey;
    KeptEither(env, blocks, before, after, logs);
  }

  /** One attempt, cut off after `k` writes: until the last write the storage is
      ready for another attempt; after it, it holds the streams under the new
      key. A storage without streams writes nothing. */
  lemma AttemptKeepsOrFinishes(env: Env, blocks: Blocks, before: Master, after: Master, logs: Logs, every: nat,
                               order: seq<BlockId>, k: nat)
    requires Ready(env, blocks, before, after, logs) && Lists(order, RecordIds(blocks))
    ensures var o := Rotate(blocks, Fresh(before, every), after, order);
            && o.result.Ok?
            && (k < |o.writes| ==> Ready(env, Perform(blocks, o.writes[..k]), before, after, logs))
            && (logs != map[] ==> |o.writes| > 0 && Represents(env, Perform(blocks, o.writes), after, logs))
            && (logs == map[] ==> o.writes == [])
  {
    hide SoundLog, StateAfter, EitherKey, OpenAt, Represents, Perform;
    var store := Fresh(before, every);
    CheckUnderOld(env, blocks, before, after, logs, store);
    PlanWorks(env, blocks, before, after, logs, order);
    var p := PlanFor(blocks, before, after, order).value;
    var o := Rotate(blocks, store, after, order);
    StreamsIffLogs(env, blocks, before, after, logs);
    if k <= |p.writes| {
      PrefixKeeps(env, blocks, before, after, logs, order, k);
      assert k < |o.writes| ==> o.writes[..k] == p.writes[..k];
    }
    if logs != map[] {
      var done := Perform(blocks, p.writes);
      LastWrite(blocks, p.writes, Write(CheckId, CheckBlob(after)));
      CheckKeepsEither(env, done, before, after, logs);
      var all := done[CheckId := CheckBlob(after)];
      forall id: BlockId | id in all && !id.CheckId? ensures OpenAt(all, after, id).Some? {
        RecordsCovered(env, blocks, before, after, logs, id);
        SameBlob(done, all, after, id);
      }
      AllMoved(env, all, before, after, logs);
    } else {
      assert order == [] by { NothingListed(env, blocks, before, after, logs, order); }
    }
  }

  lemma SameBlob(blocks: Blocks, all: Blocks, master: Master, id: BlockId)
    requires id in blocks && id in all && blocks[id] == all[id] && !id.CheckId?
    ensures OpenAt(all, master, id) == OpenAt(blocks, master, id)
  {
  }

  lemma NothingListed(env: Env, blocks: Blocks, before: Master, after: Master, logs: Logs, order: seq<BlockId>)
    requires EitherKey(env, blocks, before, after, logs) && logs == map[] && Lists(order, RecordIds(blocks))
    ensures order == []
  {
    assert forall s, n: nat :: Evt(s, n) !in blocks && Snp(s, n) !in blocks;
    if order != [] { var id := SomeElement(order); }
  }

  lemma CheckUnderOld(env: Env, blocks: Blocks, before: Master, after: Master, logs: Logs, store: Instance)
    requires Ready(env, blocks, before, after, logs) && store.master == before
    ensures CheckKey(blocks, store, false).result.Ok? && !FinishedUnder(blocks, after)
  {
    hide EitherKey;
  }

  lemma StreamsIffLogs(env: Env, blocks: Blocks, before: Master, after: Master, logs: Logs)
    requires EitherKey(env, blocks, before, after, logs)
    ensures HasStreams(blocks) <==> logs != map[]
  {
    hide SoundLog, StateAfter, UnderEither;
    if logs != map[] {
      var s :| s in logs;
      assert Evt(s, 0) in blocks;
    }
    if HasStreams(blocks) {
      var id :| id in blocks && id.Evt?;
      assert Evt(id.stream, id.seqNo) in blocks;
    }
  }

  lemma CheckKeepsEither(env: Env, blocks: Blocks, before: Master, after: Master, logs: Logs)
    requires EitherKey(env, blocks, before, after, logs)
    ensures EitherKey(env, blocks[CheckId := CheckBlob(after)], before, after, logs)
  {
    hide SoundLog, StateAfter, UnderEither, RecordAt, SnapshotAt;
  }

  /** The records in whatever order a listing has them. */
  type RecordOrder = f: Blocks -> seq<BlockId> | forall b :: Lists(f(b), RecordIds(b))
    ghost witness b => Listing(RecordIds(b))

  /** An attempt by a new process holding the old key: the order it lists records in,
      its snapshot interval, and how many writes it gets to make. */
  datatype Attempt = Attempt(order: RecordOrder, every: nat, writes: nat)

  lemma ListedRecords(blocks: Blocks, order: seq<BlockId>)
    requires Lists(order, RecordIds(blocks))
    ensures forall id :: id in order ==> id in blocks && !id.CheckId?
  {
  }

  function AttemptOn(blocks: Blocks, before: Master, after: Master, a: Attempt): Blocks {
    ListedRecords(blocks, a.order(blocks));
    Perform(blocks, Cut(Rotate(blocks, Fresh(before, a.every), after, a.order(blocks)).writes, a.writes))
  }

  function Attempts(blocks: Blocks, before: Master, after: Master, cuts: seq<Attempt>): Blocks
  {
    if |cuts| == 0 then blocks
    else AttemptOn(Attempts(blocks, before, after, cuts[..|cuts| - 1]), before, after, cuts[|cuts| - 1])
  }

  /** Between attempts: ready for another, or done already. */
  ghost predicate UnderWay(env: Env, blocks: Blocks, before: Master, after: Master, logs: Logs) {
    Ready(env, blocks, before, after, logs) || (logs != map[] && before != after && Represents(env, blocks, after, logs))
  }

  /** One more attempt, cut off anywhere or not at all; run to the end it is done. */
  lemma OneAttempt(env: Env, blocks: Blocks, before: Master, after: Master, logs: Logs, every: nat, order: seq<BlockId>,
                   k: nat)
    requires UnderWay(env, blocks, before, after, logs) && Lists(order, RecordIds(blocks))
    ensures forall id :: id in order ==> id in blocks && !id.CheckId?
    ensures var o := Rotate(blocks, Fresh(before, every), after, order);
            var cut := Perform(blocks, Cut(o.writes, k));
            && o.result.Ok? && UnderWay(env, cut, before, after, logs)
            && (if logs == map[] then o.writes == [] && cut == blocks
                else Represents(env, Perform(blocks, o.writes), after, logs))
  {
    hide Represents, Rotate, Ready, RecordIds, Perform;
    ListedRecords(blocks, order);
    NoWrites(blocks);
    if Ready(env, blocks, before, after, logs) {
      DifferentKeys(env, blocks, before, after, logs);
      AttemptKeepsOrFinishes(env, blocks, before, after, logs, every, order, k);
    } else {
      RotationIdempotent(env, blocks, before, after, logs, Fresh(before, every), order);
    }
  }

  lemma DifferentKeys(env: Env, blocks: Blocks, before: Master, after: Master, logs: Logs)
    requires Ready(env, blocks, before, after, logs)
    ensures before != after
  {
    hide EitherKey;
  }

  lemma {:induction false} AttemptsUnderWay(env: Env, blocks: Blocks, before: Master, after: Master, logs: Logs,
                                            cuts: seq<Attempt>)
    requires UnderWay(env, blocks, before, after, logs)
    ensures UnderWay(env, Attempts(blocks, before, after, cuts), before, after, logs)
    ensures logs == map[] ==> Attempts(blocks, before, after, cuts) == blocks
  {
    hide UnderWay, Rotate, RecordIds, Perform;
    if |cuts| > 0 {
      var n := |cuts| - 1;
      AttemptsUnderWay(env, blocks, before, after, logs, cuts[..n]);
      var b, a := Attempts(blocks, before, after, cuts[..n]), cuts[n];
      OneAttempt(env, b, before, after, logs, a.every, a.order(b), a.writes);
    }
  }

  lemma UnderWayEither(env: Env, blocks: Blocks, before: Master, after: Master, logs: Logs)
    requires UnderWay(env, blocks, before, after, logs)
    ensures EitherKey(env, blocks, before, after, logs)
  {
    hide Represents, Holds, EitherKey, Kept;
    if !Ready(env, blocks, before, after, logs) {
      KeptChecked(env, blocks, after, logs);
      KeptEither(env, blocks, after, before, logs);
      EitherSwapped(env, blocks, after, before, logs);
    }
  }

  lemma EitherSwapped(env: Env, blocks: Blocks, before: Master, after: Master, logs: Logs)
    requires EitherKey(env, blocks, before, after, logs)
    ensures EitherKey(env, blocks, after, before, logs)
  {
    hide SoundLog, StateAfter, RecordAt, SnapshotAt;
  }

  /** Rotation is resumable: after any number of attempts, each cut off anywhere,
      every record still opens under exactly one of the keys with its old plaintext,
      and one run to the end leaves the same streams under the new key, with a key
      check whether or not there was one. Without streams nothing ever changes. */
  lemma RotationResumes(env: Env, blocks: Blocks, before: Master, after: Master, logs: Logs, cuts: seq<Attempt>,
                        order: seq<BlockId>)
    requires Kept(env, blocks, before, logs) && before != after
    requires Lists(order, RecordIds(Attempts(blocks, before, after, cuts)))
    ensures var b := Attempts(blocks, before, after, cuts);
            var o := Rotate(b, Fresh(before, 0), after, order);
            && EitherKey(env, b, before, after, logs)
            && (forall id :: id in b && !id.CheckId? ==> (OpenAt(b, before, id).Some? <==> OpenAt(b, after, id).None?))
            && o.result.Ok?
            && (if logs == map[] then b == blocks && o.writes == []
                else Represents(env, Perform(b, o.writes), after, logs) && CheckId in Perform(b, o.writes))
  {
    hide Kept, Represents, EitherKey, Rotate, Attempts, OpenAt, Lists, Perform, Ready;
    KeptReady(env, blocks, before, after, logs);
    AttemptsUnderWay(env, blocks, before, after, logs, cuts);
    var b := Attempts(blocks, before, after, cuts);
    UnderWayEither(env, b, before, after, logs);
    OneAttempt(env, b, before, after, logs, 0, order, 0);
    forall id | id in b && !id.CheckId? ensures OpenAt(b, before, id).Some? <==> OpenAt(b, after, id).None? {
      OneKeyOpens(env, b, before, after, logs, id);
    }
    if logs != map[] {
      var s :| s in logs;
      KnownStream(env, Perform(b, Rotate(b, Fresh(before, 0), after, order).writes), after, logs, s);
    }
  }

  lemma CheckOld(env: Env, blocks: Blocks, master: Master, logs: Logs)
    requires Represents(env, blocks, master, logs)
    ensures CheckId in blocks ==> blocks[CheckId] == CheckBlob(master)
  {
    hide Holds;
  }

  /** A finished rotation is recognised: running it again changes nothing. */
  lemma RotationIdempotent(env: Env, blocks: Blocks, before: Master, after: Master, logs: Logs, store: Instance,
                           order: seq<BlockId>)
    requires Represents(env, blocks, after, logs) && logs != map[] && store.master == before != after
    requires Lists(order, RecordIds(blocks))
    ensures var o := Rotate(blocks, store, after, order);
            o.result == Ok(Report(0, |order|)) && o.writes == [] && o.store.master == after && o.store.verified
  {
    hide Holds;
    var s :| s in logs;
    KnownStream(env, blocks, after, logs, s);
  }

  /** A rotation run to the end moves a storage to the new key exactly when it
      holds a stream or has no key check to move. With a check and no stream
      nothing is written: the check stays under the old key while the store goes
      on with the new one. */
  lemma RotationMovesIffStreams(env: Env, blocks: Blocks, before: Master, after: Master, logs: Logs,
                                order: seq<BlockId>)
    requires Kept(env, blocks, before, logs) && before != after && Lists(order, RecordIds(blocks))
    ensures var o := Rotate(blocks, Fresh(before, 0), after, order);
            o.result.Ok? && o.store.master == after
            && (Represents(env, Perform(blocks, o.writes), after, logs) <==> logs != map[] || CheckId !in blocks)
  {
    hide Kept, Represents, EitherKey, Rotate, RecordIds;
    KeptReady(env, blocks, before, after, logs);
    AttemptKeepsOrFinishes(env, blocks, before, after, logs, 0, order, 0);
    ListedRecords(blocks, order);
    RotatedStore(blocks, before, after, order);
    if logs == map[] {
      NoWrites(blocks);
      NothingHeld(env, blocks, before, after, logs);
      if CheckId in blocks {
        if Represents(env, blocks, after, logs) { CheckOld(env, blocks, after, logs); }
      } else {
        NothingRepresented(env, after);
      }
    }
  }

  /** Without streams there is nothing but, perhaps, the key check. */
  lemma NothingHeld(env: Env, blocks: Blocks, before: Master, after: Master, logs: Logs)
    requires EitherKey(env, blocks, before, after, logs) && logs == map[]
    ensures blocks == if CheckId in blocks then map[CheckId := blocks[CheckId]] else map[]
  {
    hide SoundLog, StateAfter, UnderEither;
    forall id: BlockId ensures id in blocks ==> id == CheckId {
      match id
      case Evt(s, n) =>
      case Snp(s, n) =>
      case CheckId =>
    }
  }

  lemma NothingRepresented(env: Env, master: Master)
    ensures Represents(env, map[], master, map[])
  {
  }

  lemma RotatedStore(blocks: Blocks, before: Master, after: Master, order: seq<BlockId>)
    requires forall id :: id in order ==> id in blocks && !id.CheckId?
    requires Rotate(blocks, Fresh(before, 0), after, order).result.Ok?
    ensures Rotate(blocks, Fresh(before, 0), after, order).store.master == after
  {
  }

  /** After such an empty rotation, a new process with the new key is told that
      its key is wrong when it creates the first stream. */
  lemma EmptyRotationLocksOut(env: Env, before: Master, after: Master, a: CreateArgs)
    requires before != after && ValidId(a.stream) && a.codec in env.codecs && env.fits(a.state) && a.state.Obj?
    ensures var blocks: Blocks := map[CheckId := CheckBlob(before)];
            var o := Rotate(blocks, Fresh(before, 0), after, []);
            o.result.Ok? && o.writes == [] && Create(env, blocks, Fresh(after, 0), a).result == Err(WrongKey)
  {
    hide ValidId;
  }
}
