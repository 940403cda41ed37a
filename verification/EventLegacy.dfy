/** Databases from before there were key checks. */
module EventLegacy {
  // Such a database holds streams and no check, and `_check_key` trusts every key
  // (mdc/src/mdc/events/store.py:363-378). While all stores hold the right one,
  // everything goes as if the check were there; a store with another key can start
  // a stream that no rotation but the one between the two keys gets past.

  import opened EventCodec
  import opened EventLog
  import opened EventOps
  import opened EventRotation
  import opened EventRuns
  import opened Listings
  import opened MasterKeys
  import opened Outcomes

  /** The same storage with its key check. */
  function Checked(blocks: Blocks, master: Master): Blocks {
    blocks[CheckId := CheckBlob(master)]
  }

  // ------------------------------------------------- reads do not see the check

  lemma SameSeqs(blocks: Blocks, master: Master, stream: string)
    ensures EventSeqs(Checked(blocks, master), stream) == EventSeqs(blocks, stream)
  {
    var b := Checked(blocks, master);
    assert forall id: BlockId :: id.Evt? ==> (id in b <==> id in blocks);
  }

  lemma {:induction false} SameSnapshot(blocks: Blocks, master: Master, stream: string, at: Option<Time>, n: int,
                                        base: View)
    ensures FromSnapshot(Checked(blocks, master), master, stream, at, n, base) == FromSnapshot(blocks, master, stream,
            at, n, base)
    decreases n
  {
    if n >= 0 { SameSnapshot(blocks, master, stream, at, n - 1, base); }
  }

  lemma {:induction false} SameReplay(codec: Codec, blocks: Blocks, master: Master, stream: string, at: Option<Time>,
                                      view: View, target: nat)
    ensures Replay(codec, Checked(blocks, master), master, stream, at, view, target) == Replay(codec, blocks, master,
            stream, at, view, target)
    decreases target - view.seqNo
  {
    if view.seqNo < target {
      var event := ReadRecord(blocks, master, stream, EventKind, view.seqNo + 1);
      assert event == ReadRecord(Checked(blocks, master), master, stream, EventKind, view.seqNo + 1);
      if event.Ok? {
        var next := codec.apply(view.state, event.value.payload);
        if next.Some? { SameReplay(codec, blocks, master, stream, at, View(next.value, view.seqNo + 1, event.value.ts), target); }
      }
    }
  }

  lemma SameRebuild(env: Env, blocks: Blocks, master: Master, stream: string, at: Option<Time>, seqNo: Option<int>)
    ensures Rebuild(env, Checked(blocks, master), master, stream, at, seqNo) == Rebuild(env, blocks, master, stream, at,
            seqNo)
  {
    hide FromSnapshot, Replay, FirstGap;
    SameSeqs(blocks, master, stream);
    var last := LastSeq(blocks, stream);
    assert last == LastSeq(Checked(blocks, master), stream);
    var base := ReadRecord(blocks, master, stream, BaseKind, 0);
    assert base == ReadRecord(Checked(blocks, master), master, stream, BaseKind, 0);
    if last.Ok? && !(seqNo.Some? && !(0 <= seqNo.value <= last.value)) && base.Ok? && base.value.codec in env.codecs {
      var target: nat := if seqNo.Some? then seqNo.value else last.value;
      var first := View(base.value.state, 0, base.value.ts);
      SameSnapshot(blocks, master, stream, at, target, first);
      var start := FromSnapshot(blocks, master, stream, at, target, first);
      if start.Ok? { SameReplay(env.codecs[base.value.codec], blocks, master, stream, at, start.value, target); }
    }
  }

  // ------------------------------------------------------ calls, step by step

  /** A store of the unchecked storage and one of the checked storage that differ in
      nothing but whether the key was checked. */
  ghost predicate Twins(a: Instance, b: Instance, master: Master) {
    a.master == master && !a.verified && b.(verified := false) == a
  }

  lemma SameTail(env: Env, blocks: Blocks, master: Master, a: Instance, b: Instance, stream: string)
    requires Twins(a, b, master)
    ensures var (t, s) := FindTail(env, blocks, a, stream);
            var (t2, s2) := FindTail(env, Checked(blocks, master), b, stream);
            t == t2 && Twins(s, s2, master)
  {
    hide Rebuild, Remember, Lookup;
    SameRebuild(env, blocks, master, stream, None, None);
  }

  lemma SameKeyCheck(blocks: Blocks, master: Master, a: Instance, b: Instance, first: bool)
    requires Twins(a, b, master) && CheckId !in blocks && HasStreams(blocks)
    ensures CheckKey(blocks, a, first) == Outcome(Ok(()), a, [])
    ensures var o := CheckKey(Checked(blocks, master), b, first);
            o.result.Ok? && o.writes == [] && Twins(a, o.store, master)
  {
  }

  /** An append returns and writes the same. */
  lemma SameAppend(env: Env, blocks: Blocks, master: Master, a: Instance, b: Instance, args: AppendArgs)
    requires Twins(a, b, master) && CheckId !in blocks && HasStreams(blocks)
    ensures var o, p := Append(env, blocks, a, args), Append(env, Checked(blocks, master), b, args);
            o.result == p.result && o.writes == p.writes && Twins(o.store, p.store, master)
  {
    hide FindTail, CheckKey, PayloadFor, When, Remember, Without, ValidId;
    SameKeyCheck(blocks, master, a, b, false);
    SameTail(env, blocks, master, a, CheckKey(Checked(blocks, master), b, false).store, args.stream);
  }

  lemma SameCreate(env: Env, blocks: Blocks, master: Master, a: Instance, b: Instance, args: CreateArgs)
    requires Twins(a, b, master) && CheckId !in blocks && HasStreams(blocks)
    ensures var o, p := Create(env, blocks, a, args), Create(env, Checked(blocks, master), b, args);
            o.result == p.result && o.writes == p.writes && Twins(o.store, p.store, master)
  {
    hide CheckKey, When, Remember, ValidId, EventSeqs;
    SameKeyCheck(blocks, master, a, b, true);
    SameSeqs(blocks, master, args.stream);
  }

  // ---------------------------------------------------------------------- runs

  /** An unchecked world and the checked one that it goes along with. */
  ghost predicate Alike(w: World, v: World, master: Master) {
    && CheckId !in w.blocks && HasStreams(w.blocks) && v.blocks == Checked(w.blocks, master)
    && |w.stores| == |v.stores| && forall i :: 0 <= i < |w.stores| ==> Twins(w.stores[i], v.stores[i], master)
  }

  /** New processes hold the storage's key. */
  predicate RightKey(act: Action, master: Master) {
    act.Restart? ==> act.master == master
  }

  lemma {:induction false} SameWrites(blocks: Blocks, master: Master, ws: seq<Write>)
    requires CheckId !in blocks && HasStreams(blocks) && forall w :: w in ws ==> w.id != CheckId
    ensures Perform(Checked(blocks, master), ws) == Checked(Perform(blocks, ws), master)
    ensures CheckId !in Perform(blocks, ws) && HasStreams(Perform(blocks, ws))
  {
    if |ws| > 0 {
      var front := ws[..|ws| - 1];
      assert ws[|ws| - 1] in ws && forall w :: w in front ==> w in ws;
      SameWrites(blocks, master, front);
      var id :| id in Perform(blocks, front) && id.Evt?;
      assert id in Perform(blocks, ws);
    }
  }

  lemma NoCheckWritten(env: Env, blocks: Blocks, a: Instance, create: CreateArgs, append: AppendArgs)
    requires HasStreams(blocks)
    ensures forall w :: w in Create(env, blocks, a, create).writes ==> w.id != CheckId
    ensures forall w :: w in Append(env, blocks, a, append).writes ==> w.id != CheckId
  {
    hide FindTail, PayloadFor, When, Remember, Without, ValidId, EventSeqs;
  }

  lemma ActAlike(env: Env, w: World, v: World, master: Master, act: Action)
    requires Alike(w, v, master) && RightKey(act, master)
    ensures Alike(Act(env, w, act), Act(env, v, act), master)
  {
    hide Create, Append, CheckKey, Perform, HasStreams;
    if act.i < |w.stores| {
      var a, b := w.stores[act.i], v.stores[act.i];
      assert Twins(a, b, master);
      match act
      case DoCreate(_, c) =>
        SameCreate(env, w.blocks, master, a, b, c);
        CreatedAlike(env, w.blocks, master, a, c, |Create(env, w.blocks, a, c).writes|);
      case CrashCreate(_, c, k) =>
        SameCreate(env, w.blocks, master, a, b, c);
        CreatedAlike(env, w.blocks, master, a, c, k);
      case DoAppend(_, c) =>
        SameAppend(env, w.blocks, master, a, b, c);
        AppendedAlike(env, w.blocks, master, a, c, |Append(env, w.blocks, a, c).writes|);
      case CrashAppend(_, c, k) =>
        SameAppend(env, w.blocks, master, a, b, c);
        AppendedAlike(env, w.blocks, master, a, c, k);
      case DoRead(_) => SameKeyCheck(w.blocks, master, a, b, false);
      case Restart(_, key, every) =>
    }
  }

  lemma CreatedAlike(env: Env, blocks: Blocks, master: Master, a: Instance, c: CreateArgs, k: nat)
    requires CheckId !in blocks && HasStreams(blocks)
    ensures var ws := Cut(Create(env, blocks, a, c).writes, k);
            Perform(Checked(blocks, master), ws) == Checked(Perform(blocks, ws), master)
            && CheckId !in Perform(blocks, ws) && HasStreams(Perform(blocks, ws))
  {
    hide Create, Append, Perform;
    NoCheckWritten(env, blocks, a, c, AppendArgs("", None, None, None, None, None, 0));
    SameWrites(blocks, master, Cut(Create(env, blocks, a, c).writes, k));
  }

  lemma AppendedAlike(env: Env, blocks: Blocks, master: Master, a: Instance, c: AppendArgs, k: nat)
    requires CheckId !in blocks && HasStreams(blocks)
    ensures var ws := Cut(Append(env, blocks, a, c).writes, k);
            Perform(Checked(blocks, master), ws) == Checked(Perform(blocks, ws), master)
            && CheckId !in Perform(blocks, ws) && HasStreams(Perform(blocks, ws))
  {
    hide Create, Append, Perform;
    NoCheckWritten(env, blocks, a, CreateArgs("", Null, "", None, None, 0), c);
    SameWrites(blocks, master, Cut(Append(env, blocks, a, c).writes, k));
  }

  lemma {:induction false} RunAlike(env: Env, w: World, v: World, master: Master, acts: seq<Action>)
    requires Alike(w, v, master) && forall act :: act in acts ==> RightKey(act, master)
    ensures Alike(Run(env, w, acts), Run(env, v, acts), master)
  {
    hide Alike, Act;
    if |acts| > 0 {
      var front := acts[..|acts| - 1];
      assert acts[|acts| - 1] in acts && forall act :: act in front ==> act in acts;
      RunAlike(env, w, v, master, front);
      ActAlike(env, Run(env, w, front), Run(env, v, front), master, acts[|acts| - 1]);
    }
  }

  /** From any good world on, whatever is done. */
  lemma {:induction false} RunStaysGood(env: Env, w: World, master: Master, logs: Logs, acts: seq<Action>)
                                        returns (more: Logs)
    requires GoodWorld(env, w, master, logs) && CheckId in w.blocks
    ensures GoodWorld(env, Run(env, w, acts), master, more) && Grows(logs, more)
            && Keeps(w.blocks, Run(env, w, acts).blocks)
  {
    hide GoodWorld, Grows, Act;
    if |acts| == 0 {
      more := logs;
      GrowsSame(logs);
    } else {
      var front := acts[..|acts| - 1];
      var mid := RunStaysGood(env, w, master, logs, front);
      var m;
      m, more := ActKeepsGood(env, Run(env, w, front), master, mid, acts[|acts| - 1]);
      GrowsMore(logs, mid, more);
    }
  }

  /** The storage of an old database, opened by any number of stores that hold its
      key. */
  ghost predicate OldDatabase(env: Env, w: World, master: Master, logs: Logs) {
    && Kept(env, w.blocks, master, logs) && logs != map[] && CheckId !in w.blocks
    && forall i :: 0 <= i < |w.stores| ==> w.stores[i] == Fresh(master, w.stores[i].every)
  }

  lemma OldStarts(env: Env, w: World, master: Master, logs: Logs)
    requires OldDatabase(env, w, master, logs)
    ensures var v := World(Checked(w.blocks, master), w.stores);
            Alike(w, v, master) && GoodWorld(env, v, master, logs)
  {
    hide SoundLog, StateAfter, RecordAt, SnapshotAt;
    var b := Checked(w.blocks, master);
    forall s | s in logs ensures Holds(env, b, master, s, logs[s]) {
      OtherHolds(env, w.blocks, master, s, logs[s], CheckId, CheckBlob(master));
    }
    assert Kept(env, b, master, logs);
    KeptChecked(env, b, master, logs);
    var s :| s in logs;
    assert Holds(env, w.blocks, master, s, logs[s]) && Evt(s, 0) in w.blocks;
  }

  /** Runs on an old database with its key: every stream stays a sound log, nothing
      written is changed, and still there is no check. */
  lemma OldRunsAreGood(env: Env, w: World, master: Master, logs: Logs, acts: seq<Action>) returns (more: Logs)
    requires OldDatabase(env, w, master, logs) && forall act :: act in acts ==> RightKey(act, master)
    ensures Kept(env, Run(env, w, acts).blocks, master, more) && Grows(logs, more)
    ensures Keeps(w.blocks, Run(env, w, acts).blocks) && CheckId !in Run(env, w, acts).blocks
  {
    hide OldDatabase, GoodWorld, Grows, Run, Kept;
    OldStarts(env, w, master, logs);
    var v := World(Checked(w.blocks, master), w.stores);
    RunAlike(env, w, v, master, acts);
    more := RunStaysGood(env, v, master, logs, acts);
    var after := Run(env, w, acts).blocks;
    GoodRepresents(env, Run(env, v, acts), master, more);
    LegacyKept(env, Checked(after, master), master, more);
    assert Checked(after, master) - {CheckId} == after;
    hide Checked;
    forall id | id in w.blocks ensures id in after && after[id] == w.blocks[id] { WithoutCheck(w.blocks, after, master, id); }
  }

  lemma WithoutCheck(blocks: Blocks, after: Blocks, master: Master, id: BlockId)
    requires Keeps(Checked(blocks, master), Checked(after, master)) && CheckId !in blocks && id in blocks
    ensures id in after && after[id] == blocks[id]
  {
    assert id in Checked(blocks, master);
  }

  // ------------------------------------------------------------ another key

  /** A store with another key is not refused: it starts a stream under its own key. */
  lemma StrangerCreates(env: Env, blocks: Blocks, other: Master, every: nat, c: CreateArgs)
    requires CheckId !in blocks && HasStreams(blocks) && Creates(env, c) && EventSeqs(blocks, c.stream) == {}
    ensures var o := Create(env, blocks, Fresh(other, every), c);
            o.result.Ok? && o.writes == [Write(Evt(c.stream, 0), StrangeBlob(other, c))]
  {
    hide ValidId, Remember, EventSeqs;
  }

  function StrangeBlob(other: Master, c: CreateArgs): Blob
    requires c.state.Obj?
  {
    Seal(other, c.stream, 0, BaseRecord(FirstTailOf(c).ts, c.codec, c.note, c.state.fields))
  }

  /** Records of the database open under its key and no other. */
  lemma OpensUnder(env: Env, blocks: Blocks, master: Master, logs: Logs, id: BlockId, key: Master)
    requires Kept(env, blocks, master, logs) && id in blocks && !id.CheckId?
    ensures OpenAt(blocks, key, id).Some? <==> key == master
  {
    hide Kept, EitherKey, SoundLog, StateAfter;
    var another := Master(master.id + 1);
    var k := if key == master then another else key;
    KeptEither(env, blocks, master, k, logs);
    OneKeyOpens(env, blocks, master, k, logs, id);
    SealedUnder(env, blocks, master, logs, id);
  }

  lemma SealedUnder(env: Env, blocks: Blocks, master: Master, logs: Logs, id: BlockId)
    requires Kept(env, blocks, master, logs) && id in blocks && !id.CheckId?
    ensures OpenAt(blocks, master, id).Some?
  {
    hide SoundLog, StateAfter;
    match id
    case Evt(s, n) => assert Holds(env, blocks, master, s, logs[s]);
    case Snp(s, n) => assert Holds(env, blocks, master, s, logs[s]);
  }

  /** After that, a rotation goes through exactly between the two keys; any other
      stops at a record that neither of its keys opens, before any write. */
  lemma StrangerBlocksRotation(env: Env, blocks: Blocks, master: Master, logs: Logs, other: Master, c: CreateArgs,
                               before: Master, after: Master, every: nat, order: seq<BlockId>)
    requires Kept(env, blocks, master, logs) && logs != map[] && CheckId !in blocks && master != other && before != after
    requires Creates(env, c) && c.stream !in logs
    requires Lists(order, RecordIds(blocks[Evt(c.stream, 0) := StrangeBlob(other, c)]))
    ensures forall id :: id in order ==> id in blocks[Evt(c.stream, 0) := StrangeBlob(other, c)] && !id.CheckId?
    ensures var o := Rotate(blocks[Evt(c.stream, 0) := StrangeBlob(other, c)], Fresh(before, every), after, order);
            (o.result.Ok? <==> {before, after} == {master, other}) && (o.result.Err? ==> o.writes == [] && o.result.error == Corrupt)
  {
    hide Kept, ValidId, When, OpenAt;
    var mixed, strange := blocks[Evt(c.stream, 0) := StrangeBlob(other, c)], Evt(c.stream, 0);
    ListedRecords(mixed, order);
    NeitherKeyStops(mixed, Fresh(before, every), after, order);
    var s :| s in logs;
    StreamHeld(env, blocks, master, logs, s);
    SlotEmpty(env, blocks, master, logs, c.stream);
    var first := Evt(s, 0);
    StrangeOpens(mixed, other, c, before);
    StrangeOpens(mixed, other, c, after);
    assert strange in RecordIds(mixed) && first in RecordIds(mixed);
    forall id: BlockId, key: Master | id in mixed && id != strange ensures !id.CheckId? && (OpenAt(mixed, key, id).Some? <==> key == master) {
      OpensUnder(env, blocks, master, logs, id, key);
      SameBlob(blocks, mixed, key, id);
    }
    assert OpenAt(mixed, before, first).Some? <==> before == master;
    assert OpenAt(mixed, after, first).Some? <==> after == master;
    if master in {before, after} && other in {before, after} {
      assert forall id :: id in RecordIds(mixed) ==> !Unreadable(mixed, before, after, id);
    } else if other !in {before, after} {
      assert Unreadable(mixed, before, after, strange);
    } else {
      assert Unreadable(mixed, before, after, first);
    }
  }

  lemma StreamHeld(env: Env, blocks: Blocks, master: Master, logs: Logs, s: string)
    requires Kept(env, blocks, master, logs) && s in logs
    ensures Evt(s, 0) in blocks
  {
    hide SoundLog, StateAfter;
    assert Holds(env, blocks, master, s, logs[s]);
  }

  lemma SlotEmpty(env: Env, blocks: Blocks, master: Master, logs: Logs, stream: string)
    requires Kept(env, blocks, master, logs) && stream !in logs
    ensures Evt(stream, 0) !in blocks && EventSeqs(blocks, stream) == {}
  {
    forall n: nat ensures Evt(stream, n) !in blocks { }
  }

  lemma StrangeOpens(mixed: Blocks, other: Master, c: CreateArgs, key: Master)
    requires c.state.Obj?
    requires Evt(c.stream, 0) in mixed && mixed[Evt(c.stream, 0)] == StrangeBlob(other, c)
    ensures OpenAt(mixed, key, Evt(c.stream, 0)).Some? <==> key == other
  {
  }
}
