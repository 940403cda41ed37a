/** Any interleaving of calls by any number of stores over one storage. */
module EventRuns {
  // Creating, appending and reading, with restarts, cache evictions and crashes
  // between the writes of a call: no record is overwritten, every stream stays a
  // sound log, and a successful append extended the true last state.

  import opened EventCodec
  import opened EventLog
  import opened EventOps
  import opened MasterKeys
  import opened Outcomes

  // ---------------------------------------------------------------- one append

  lemma EmptyLogs(env: Env, blocks: Blocks, master: Master, logs: Logs)
    requires Represents(env, blocks, master, logs) && blocks == map[]
    ensures logs == map[]
  {
    forall s ensures s in logs ==> Evt(s, 0) in blocks { }
  }

  lemma UnknownStream(env: Env, blocks: Blocks, master: Master, logs: Logs, stream: string)
    requires Represents(env, blocks, master, logs) && stream !in logs
    ensures EventSeqs(blocks, stream) == {}
  {
    forall n: nat ensures n in EventSeqs(blocks, stream) ==> Evt(stream, n) in blocks { }
  }

  lemma KnownStream(env: Env, blocks: Blocks, master: Master, logs: Logs, stream: string)
    requires Represents(env, blocks, master, logs) && stream in logs
    ensures 0 in EventSeqs(blocks, stream) && CheckId in blocks
  {
    hide SoundLog, StateAfter;
    assert Holds(env, blocks, master, stream, logs[stream]);
    assert Evt(stream, 0) in blocks;
  }

  /** A checked key is the key of the storage, or there is nothing stored. */
  lemma CheckedKey(env: Env, blocks: Blocks, master: Master, logs: Logs, store: Instance, first: bool)
    requires Represents(env, blocks, master, logs) && Honest(env, logs, blocks, master, store)
    ensures var o := CheckKey(blocks, store, first);
            && (o.result.Ok? && CheckId in blocks ==> o.store.master == master)
            && (o.writes != [] ==> blocks == map[] && first && o.writes == [Write(CheckId, CheckBlob(store.master))])
            && (o.writes == [] ==> Honest(env, logs, blocks, master, o.store))
            && o.store.master == store.master && o.store.tails == store.tails && o.store.every == store.every
  {
    hide TrueTail, Holds;
  }

  /** The tail an append works from: true, and the latest unless it was cached. */
  lemma TailIsTrue(env: Env, blocks: Blocks, master: Master, logs: Logs, store: Instance, stream: string)
    requires Represents(env, blocks, master, logs) && Honest(env, logs, blocks, master, store)
    requires CheckId in blocks ==> store.master == master
    ensures var (t, s) := FindTail(env, blocks, store, stream);
            && Honest(env, logs, blocks, master, s)
            && (t.Ok? ==> TrueTail(env, logs, stream, t.value) && CheckId in blocks)
            && (stream !in logs ==> t == Err(NotFound))
            && (stream in logs && Lookup(store.tails, stream).None? ==> t.Ok? && t.value.last == |logs[stream].events|)
  {
    hide StateAfter, Rebuild, Remember, Holds;
    var cached := Lookup(store.tails, stream);
    if cached.Some? {
      assert Cached(stream, cached.value) in store.tails;
    } else if stream in logs {
      KnownStream(env, blocks, master, logs, stream);
      TailRebuilt(env, blocks, master, stream, logs[stream]);
    } else {
      UnknownStream(env, blocks, master, logs, stream);
      assert Rebuild(env, blocks, store.master, stream, None,
             None) == Err(NotFound) by { NoStream(env, blocks, store.master, stream); }
    }
  }

  lemma NoStream(env: Env, blocks: Blocks, master: Master, stream: string)
    requires EventSeqs(blocks, stream) == {}
    ensures Rebuild(env, blocks, master, stream, None, None) == Err(NotFound)
  {
  }

  lemma TailRebuilt(env: Env, blocks: Blocks, master: Master, stream: string, log: Log)
    requires Holds(env, blocks, master, stream, log)
    ensures SoundLog(env, log)
    ensures Rebuild(env, blocks, master, stream, None, None) == Ok(ViewAt(env, log, |log.events|))
    ensures ReadRecord(blocks, master, stream, BaseKind, 0) == Ok(RecordAt(log, 0))
  {
    hide Rebuild, StateAfter;
    StateAtIsFold(env, blocks, master, stream, log, None, None);
    assert blocks[Evt(stream, 0)] == Seal(master, stream, 0, RecordAt(log, 0));
    var v := Rebuild(env, blocks, master, stream, None, None).value;
    assert |log.events| <= v.seqNo <==> Within(TimeOf(log, |log.events|), None);
  }

  /** What a successful append means for the abstract log. */
  ghost predicate Appends(env: Env, logs: Logs, stream: string, r: Appended, codec: Codec, next: Fields) {
    && stream in logs && SoundLog(env, logs[stream]) && codec == env.codecs[logs[stream].codec]
    && r.seqNo == |logs[stream].events| + 1
    && r.ts >= TimeOf(logs[stream], |logs[stream].events|)
    && codec.apply(StateAfter(codec, logs[stream], |logs[stream].events|).value, r.payload) == Some(next)
  }

  function EntryOf(r: Appended): Entry {
    Entry(r.ts, r.note, r.payload)
  }

  function Grown(logs: Logs, stream: string, r: Appended): Logs
    requires stream in logs
  {
    logs[stream := Extended(logs[stream], EntryOf(r))]
  }

  /** Putting the event of a true tail: it conflicts exactly when the tail is
      stale, and then the tail is dropped and nothing is written. */
  lemma PutCorrect(env: Env, blocks: Blocks, master: Master, logs: Logs, store: Instance, stream: string, t: Tail,
                   e: Entry, next: Fields)
    requires Represents(env, blocks, master, logs) && Honest(env, logs, blocks, master, store)
    requires store.master == master && CheckId in blocks && TrueTail(env, logs, stream, t) && e.ts >= t.ts
    requires env.codecs[t.codec].apply(t.state, e.payload) == Some(next)
    ensures var o := Put(blocks, store, stream, t, e, next);
            && (o.result.Ok? <==> t.last == |logs[stream].events|)
            && (o.result.Err? ==> o.result.error == Concurrency && o.writes == [] && Lookup(o.store.tails, stream).None?
                                  && Honest(env, logs, blocks, master, o.store))
            && (o.result.Ok? ==> Appends(env, logs, stream, o.result.value, env.codecs[t.codec], next)
                                 && EntryOf(o.result.value) == e
                                 && AppendWritten(env, blocks, master, Grown(logs, stream, o.result.value), o.writes)
                                 && Honest(env, Grown(logs, stream, o.result.value), Perform(blocks, o.writes), master,
                                    o.store))
  {
    hide StateAfter, SoundLog, Represents, Perform, AppendWritten, Remember, Holds;
    var log, n := logs[stream], t.last + 1;
    TrueTailHeld(env, logs, stream, t);
    SlotFree(env, blocks, master, logs, stream, n);
    var o := Put(blocks, store, stream, t, e, next);
    if t.last == |log.events| {
      EventWritten(env, blocks, master, logs, stream, e, next, o.writes);
      ExtendedSoundHere(env, logs, stream, e, next);
      NewTail(env, logs, stream, t, e, next);
      PerformKeeps(blocks, o.writes);
      forall c | c in o.store.tails ensures TrueTail(env, Grown(logs, stream, o.result.value), c.stream, c.tail) {
        if c.stream != stream { TailSurvives(env, logs, c.stream, c.tail, stream, e); }
      }
    } else {
      NotFoundAfterDrop(store.tails, stream);
    }
  }

  lemma NotFoundAfterDrop(tails: seq<Cached>, stream: string)
    ensures Lookup(Without(tails, stream), stream).None?
  {
  }

  lemma SlotFree(env: Env, blocks: Blocks, master: Master, logs: Logs, stream: string, n: nat)
    requires Represents(env, blocks, master, logs) && stream in logs
    ensures Evt(stream, n) in blocks <==> n <= |logs[stream].events|
    ensures Snp(stream, n) in blocks ==> n <= |logs[stream].events|
  {
    hide StateAfter, SoundLog;
    assert Holds(env, blocks, master, stream, logs[stream]);
  }

  lemma ExtendedSoundHere(env: Env, logs: Logs, stream: string, e: Entry, next: Fields)
    requires stream in logs && SoundLog(env, logs[stream]) && e.ts >= TimeOf(logs[stream], |logs[stream].events|)
    requires var c := env.codecs[logs[stream].codec];
             c.apply(StateAfter(c, logs[stream], |logs[stream].events|).value, e.payload) == Some(next)
    ensures SoundLog(env, Extended(logs[stream], e))
  {
    ExtendedSound(env, logs[stream], e, next);
  }

  lemma NewTail(env: Env, logs: Logs, stream: string, t: Tail, e: Entry, next: Fields)
    requires TrueTail(env, logs, stream, t) && t.last == |logs[stream].events| && e.ts >= t.ts
    requires env.codecs[t.codec].apply(t.state, e.payload) == Some(next)
    ensures TrueTail(env, logs[stream := Extended(logs[stream], e)], stream, Tail(t.codec, t.last + 1, e.ts, next))
  {
    TrueTailHeld(env, logs, stream, t);
    ExtendedSound(env, logs[stream], e, next);
  }

  /** Every storage a call passes through, from its first write to its last,
      holds the new logs. */
  ghost predicate AppendWritten(env: Env, blocks: Blocks, master: Master, logs: Logs, ws: seq<Write>) {
    |ws| > 0 && forall k :: 0 < k <= |ws| ==> Represents(env, Perform(blocks, ws[..k]), master, logs)
  }

  lemma EventWritten(env: Env, blocks: Blocks, master: Master, logs: Logs, stream: string, e: Entry, next: Fields,
                     ws: seq<Write>)
    requires Represents(env, blocks, master, logs) && CheckId in blocks && stream in logs && SoundLog(env, logs[stream])
    requires e.ts >= TimeOf(logs[stream], |logs[stream].events|)
    requires var c := env.codecs[logs[stream].codec];
             c.apply(StateAfter(c, logs[stream], |logs[stream].events|).value, e.payload) == Some(next)
    requires var n := |logs[stream].events| + 1;
             var event := Write(Evt(stream, n), Seal(master, stream, n, EventRecord(e.ts, e.note, e.payload)));
             var snap := Write(Snp(stream, n), Seal(master, stream, n, SnapshotRecord(e.ts, next)));
             ws == [event] || ws == [event, snap]
    ensures AppendWritten(env, blocks, master, logs[stream := Extended(logs[stream], e)], ws)
  {
    hide StateAfter, SoundLog, Represents;
    var grown := logs[stream := Extended(logs[stream], e)];
    OneWrite(blocks, ws);
    StreamGrows(env, blocks, master, logs, stream, e, next, false);
    assert ws[..1] == [ws[0]];
    if |ws| == 2 {
      StreamGrows(env, blocks, master, logs, stream, e, next, true);
      assert ws[..2] == ws;
    }
  }

  lemma OneWrite(blocks: Blocks, ws: seq<Write>)
    requires 1 <= |ws| <= 2
    ensures Perform(blocks, [ws[0]]) == blocks[ws[0].id := ws[0].blob]
    ensures |ws| == 2 ==> Perform(blocks, ws) == blocks[ws[0].id := ws[0].blob][ws[1].id := ws[1].blob]
  {
    assert [ws[0]][..0] == [];
    if |ws| == 2 { assert ws[..1] == [ws[0]]; }
  }

  lemma StreamGrows(env: Env, blocks: Blocks, master: Master, logs: Logs, stream: string, e: Entry, next: Fields,
                    withSnap: bool)
    requires Represents(env, blocks, master, logs) && CheckId in blocks && stream in logs && SoundLog(env, logs[stream])
    requires e.ts >= TimeOf(logs[stream], |logs[stream].events|)
    requires var c := env.codecs[logs[stream].codec];
             c.apply(StateAfter(c, logs[stream], |logs[stream].events|).value, e.payload) == Some(next)
    ensures var n := |logs[stream].events| + 1;
            var b := blocks[Evt(stream, n) := Seal(master, stream, n, EventRecord(e.ts, e.note, e.payload))];
            Represents(env, if withSnap then b[Snp(stream, n) := Seal(master, stream, n, SnapshotRecord(e.ts, next))] else b,
                       master, logs[stream := Extended(logs[stream], e)])
  {
    hide StateAfter, SoundLog, Holds;
    var log, n := logs[stream], |logs[stream].events| + 1;
    var grown := logs[stream := Extended(log, e)];
    var event, snap := Seal(master, stream, n, EventRecord(e.ts, e.note, e.payload)), Seal(master, stream, n, SnapshotRecord(e.ts, next));
    var b := blocks[Evt(stream, n) := event];
    var after := if withSnap then b[Snp(stream, n) := snap] else b;
    EventHolds(env, blocks, master, stream, log, e, next, withSnap);
    forall s | s in grown ensures Holds(env, after, master, s, grown[s]) {
      if s != stream {
        OtherHolds(env, blocks, master, s, logs[s], Evt(stream, n), event);
        OtherHolds(env, b, master, s, logs[s], Snp(stream, n), snap);
      }
    }
  }

  lemma {:induction false} PerformKeeps(blocks: Blocks, ws: seq<Write>)
    ensures blocks.Keys <= Perform(blocks, ws).Keys
    ensures forall w :: w in ws ==> w.id in Perform(blocks, ws)
  {
    if |ws| > 0 { PerformKeeps(blocks, ws[..|ws| - 1]); }
  }

  /** The payload a call asks to record on `state`: its own, or the difference to the
      state it gives. */
  ghost function Asked(codec: Codec, state: Fields, a: AppendArgs): Json {
    if Given(a.state) && a.state.value.Obj? then codec.diff(state, a.state.value.fields)
    else if a.payload.Some? then a.payload.value else Null
  }

  /** The time of an event no earlier than `last`: the one requested, neither before that
      nor in the future, or else the later of the clock's and `last`. */
  ghost predicate TimeAsked(requested: Option<Time>, now: Time, last: Time, ts: Time) {
    if requested.Some? then ts == requested.value && last <= ts <= now + MAX_CLOCK_SKEW
    else ts == if now < last then last else now
  }

  /** What was recorded is what was asked for: the payload given, or the difference
      from the true last state; the note; the time. */
  ghost predicate AsAsked(env: Env, log: Log, a: AppendArgs, r: Appended) {
    var n := |log.events|;
    && log.codec in env.codecs && StateAfter(env.codecs[log.codec], log, n).Some?
    && r.payload == Asked(env.codecs[log.codec], StateAfter(env.codecs[log.codec], log, n).value, a)
    && Given(a.state) != Given(a.payload) && r.note == a.note
    && (Given(a.state) ==> env.fits(a.state.value) && a.state.value.Obj? && !Falsy(r.payload))
    && TimeAsked(a.ts, a.now, TimeOf(log, n), r.ts)
    && (a.expected.Some? ==> a.expected.value == n)
  }

  /** `append` on represented storage, by a store whose cache may be stale. It
      succeeds only from the true last state; a refusal writes nothing. */
  lemma AppendCorrect(env: Env, blocks: Blocks, master: Master, logs: Logs, store: Instance, a: AppendArgs)
                      returns (next: Fields)
    requires Represents(env, blocks, master, logs) && Honest(env, logs, blocks, master, store)
    ensures var o := Append(env, blocks, store, a);
            && (o.result.Err? ==> o.writes == [] && Honest(env, logs, blocks, master, o.store))
            && (o.result.Ok? ==> a.stream in logs && logs[a.stream].codec in env.codecs
                                 && Appends(env, logs, a.stream, o.result.value, env.codecs[logs[a.stream].codec], next)
                                 && AsAsked(env, logs[a.stream], a, o.result.value)
                                 && AppendWritten(env, blocks, master, Grown(logs, a.stream, o.result.value), o.writes)
                                 && Honest(env, Grown(logs, a.stream, o.result.value), Perform(blocks, o.writes),
                                    master, o.store))
  {
    hide StateAfter, SoundLog, Represents, Perform, AppendWritten, Holds, Put, FindTail, CheckKey, PayloadFor, When,
         Appends, Honest, ValidId;
    next := map[];
    CheckedKey(env, blocks, master, logs, store, false);
    var key := CheckKey(blocks, store, false);
    if ValidId(a.stream) && Given(a.state) != Given(a.payload) && key.result.Ok? {
      CheckedKeyMaster(env, blocks, master, logs, store);
      TailIsTrue(env, blocks, master, logs, key.store, a.stream);
      var (tail, s) := FindTail(env, blocks, key.store, a.stream);
      if tail.Ok? {
        var t := tail.value;
        TrueTailHeld(env, logs, a.stream, t);
        var codec := env.codecs[t.codec];
        var p := PayloadFor(env, codec, t.state, a);
        if p.Ok? {
          var applied := codec.apply(t.state, p.value);
          var when := When(a.ts, a.now, Some(t.ts));
          if applied.Some? && when.Ok? {
            PayloadAsked(env, codec, t.state, a);
            next := applied.value;
            PutCorrect(env, blocks, master, logs, s, a.stream, t, Entry(when.value, a.note, p.value), next);
          }
        }
      }
    }
  }

  lemma PayloadAsked(env: Env, codec: Codec, state: Fields, a: AppendArgs)
    requires Given(a.state) != Given(a.payload)
    ensures var p := PayloadFor(env, codec, state, a);
            p.Ok? ==> p.value == Asked(codec, state, a)
                      && (Given(a.state) ==> env.fits(a.state.value) && a.state.value.Obj? && !Falsy(p.value))
  {
    hide Falsy;
  }

  lemma CheckedKeyMaster(env: Env, blocks: Blocks, master: Master, logs: Logs, store: Instance)
    requires Represents(env, blocks, master, logs) && Honest(env, logs, blocks, master, store)
    requires CheckKey(blocks, store, false).result.Ok?
    ensures var s := CheckKey(blocks, store, false).store;
            Honest(env, logs, blocks, master, s) && (CheckId in blocks ==> s.master == master)
  {
    hide Holds, TrueTail;
  }

  // ------------------------------------------------------------- which appends

  /** A payload the codec accepts and can replay on `state`. */
  ghost predicate Replayable(env: Env, codec: Codec, state: Fields, p: Json) {
    env.fits(p) && codec.valid(p) && codec.apply(state, p).Some?
  }

  /** The appends that get as far as their write when the stream is taken to end at
      `t`: a well-formed call that expects this end, if any; that changes the state
      there, or gives a payload that can be replayed there; and whose time, if
      given, is neither before the end nor in the future. */
  ghost predicate Passes(env: Env, t: Tail, a: AppendArgs) {
    && ValidId(a.stream) && t.codec in env.codecs && Given(a.state) != Given(a.payload)
    && (a.expected.Some? ==> a.expected.value == t.last)
    && (a.ts.Some? ==> t.ts <= a.ts.value <= a.now + MAX_CLOCK_SKEW)
    && var codec := env.codecs[t.codec];
       if Given(a.state) then
         && env.fits(a.state.value) && a.state.value.Obj?
         && var change := codec.diff(t.state, a.state.value.fields);
            !Falsy(change) && Replayable(env, codec, t.state, change)
       else Replayable(env, codec, t.state, a.payload.value)
  }

  /** What such an append records, and the state it leads to. */
  ghost function EntryFor(env: Env, t: Tail, a: AppendArgs): Entry
    requires Passes(env, t, a)
  {
    Entry(if a.ts.Some? then a.ts.value else if a.now < t.ts then t.ts else a.now, a.note, Asked(env.codecs[t.codec], t.state, a))
  }

  ghost function NextFor(env: Env, t: Tail, a: AppendArgs): Fields
    requires Passes(env, t, a)
  {
    env.codecs[t.codec].apply(t.state, EntryFor(env, t, a).payload).value
  }

  /** `append` from the tail it finds: it writes, or refuses and writes nothing. */
  lemma PassesOrRefuses(env: Env, blocks: Blocks, store: Instance, a: AppendArgs, t: Tail)
    requires CheckKey(blocks, store, false).result.Ok?
    requires FindTail(env, blocks, CheckKey(blocks, store, false).store, a.stream).0 == Ok(t)
    ensures var s := FindTail(env, blocks, CheckKey(blocks, store, false).store, a.stream).1;
            var o := Append(env, blocks, store, a);
            && (Passes(env, t, a) ==> o == Put(blocks, s, a.stream, t, EntryFor(env, t, a), NextFor(env, t, a)))
            && (!Passes(env, t, a) ==> o.result.Err? && o.writes == [] && (o.store == s || o.store == store))
            && (!Passes(env, t, a) && ValidId(a.stream) && Given(a.state) != Given(a.payload) ==> o.store == s)
  {
    hide ValidId, CheckKey, FindTail, Put, Falsy;
  }

  /** The end of a log. */
  ghost function LastTail(env: Env, log: Log): Tail
    requires SoundLog(env, log)
  {
    Tail(log.codec, |log.events|, TimeOf(log, |log.events|), ViewAt(env, log, |log.events|).state)
  }

  /** The tail an append starts from: the remembered one, or else the true one. */
  ghost function TailUsed(env: Env, store: Instance, stream: string, log: Log): Tail
    requires SoundLog(env, log)
  {
    var cached := Lookup(store.tails, stream);
    if cached.Some? then cached.value else LastTail(env, log)
  }

  lemma TailFound(env: Env, blocks: Blocks, master: Master, logs: Logs, store: Instance, stream: string)
    requires Represents(env, blocks, master, logs) && Honest(env, logs, blocks, master, store)
    requires stream in logs && CheckKey(blocks, store, false).result.Ok?
    ensures SoundLog(env, logs[stream])
    ensures var key := CheckKey(blocks, store, false).store;
            var (found, s) := FindTail(env, blocks, key, stream);
            && found == Ok(TailUsed(env, store, stream, logs[stream]))
            && key.master == master && key.tails == store.tails && Honest(env, logs, blocks, master, key)
            && s.master == master && Honest(env, logs, blocks, master, s)
            && TrueTail(env, logs, stream, TailUsed(env, store, stream, logs[stream])) && CheckId in blocks
            && (Lookup(store.tails, stream).Some? ==> s == key)
  {
    hide StateAfter, SoundLog, Represents, Rebuild, Holds, Remember;
    CheckedKey(env, blocks, master, logs, store, false);
    CheckedKeyMaster(env, blocks, master, logs, store);
    KnownStream(env, blocks, master, logs, stream);
    AllSound(env, blocks, master, logs);
    var key := CheckKey(blocks, store, false).store;
    hide Honest, CheckKey;
    TailIsTrue(env, blocks, master, logs, key, stream);
    if Lookup(key.tails, stream).Some? { CachedTrue(env, blocks, master, logs, key, stream); }
  }

  lemma CachedTrue(env: Env, blocks: Blocks, master: Master, logs: Logs, store: Instance, stream: string)
    requires Honest(env, logs, blocks, master, store) && Lookup(store.tails, stream).Some?
    ensures TrueTail(env, logs, stream, Lookup(store.tails, stream).value)
  {
    hide TrueTail;
    assert Cached(stream, Lookup(store.tails, stream).value) in store.tails;
  }

  /** When `append` succeeds: with the right key, from a tail that is the true end,
      and with arguments that pass there. */
  lemma AppendSucceedsIff(env: Env, blocks: Blocks, master: Master, logs: Logs, store: Instance, a: AppendArgs)
    requires Represents(env, blocks, master, logs) && Honest(env, logs, blocks, master, store) && a.stream in logs
    ensures SoundLog(env, logs[a.stream])
    ensures Append(env, blocks, store, a).result.Ok?
            <==> CheckKey(blocks, store, false).result.Ok?
                 && TailUsed(env, store, a.stream, logs[a.stream]).last == |logs[a.stream].events|
                 && Passes(env, TailUsed(env, store, a.stream, logs[a.stream]), a)
  {
    hide StateAfter, SoundLog, Represents, Rebuild, Holds, Honest, FindTail, Put, Passes, Lookup, TailUsed, EntryFor,
         NextFor;
    AllSound(env, blocks, master, logs);
    if CheckKey(blocks, store, false).result.Ok? {
      TailFound(env, blocks, master, logs, store, a.stream);
      hide CheckKey, Append;
      var t := TailUsed(env, store, a.stream, logs[a.stream]);
      PassesOrRefuses(env, blocks, store, a, t);
      if Passes(env, t, a) {
        EntryGood(env, t, a);
        var s := FindTail(env, blocks, CheckKey(blocks, store, false).store, a.stream).1;
        PutCorrect(env, blocks, master, logs, s, a.stream, t, EntryFor(env, t, a), NextFor(env, t, a));
      }
    }
  }

  lemma EntryGood(env: Env, t: Tail, a: AppendArgs)
    requires Passes(env, t, a)
    ensures EntryFor(env, t, a).ts >= t.ts
    ensures env.codecs[t.codec].apply(t.state, EntryFor(env, t, a).payload) == Some(NextFor(env, t, a))
  {
    hide ValidId, Falsy;
  }

  /** A stale store: its append is refused and writes nothing. It forgets its tail
      exactly when the call passes at that stale tail; any other call leaves the
      tail as it is. */
  lemma StaleAppendRefused(env: Env, blocks: Blocks, master: Master, logs: Logs, store: Instance, a: AppendArgs,
                           t: Tail)
    requires Represents(env, blocks, master, logs) && Honest(env, logs, blocks, master, store)
    requires a.stream in logs && Lookup(store.tails, a.stream) == Some(t) && t.last < |logs[a.stream].events|
    ensures var o := Append(env, blocks, store, a);
            && o.result.Err? && o.writes == []
            && (Lookup(o.store.tails, a.stream).None? <==> Passes(env, t, a))
            && (if Passes(env, t, a) then o.result.error == Concurrency else o.store.tails == store.tails)
  {
    hide StateAfter, SoundLog, Represents, Rebuild, Holds, FindTail, Put, Passes, Lookup, EntryFor, NextFor, Append,
         Honest;
    KeyPasses(env, blocks, master, logs, store, a.stream);
    TailFound(env, blocks, master, logs, store, a.stream);
    PassesOrRefuses(env, blocks, store, a, t);
    if Passes(env, t, a) {
      EntryGood(env, t, a);
      var s := FindTail(env, blocks, CheckKey(blocks, store, false).store, a.stream).1;
      PutCorrect(env, blocks, master, logs, s, a.stream, t, EntryFor(env, t, a), NextFor(env, t, a));
    }
  }

  /** A store that remembers a tail holds the storage's key. */
  lemma KeyPasses(env: Env, blocks: Blocks, master: Master, logs: Logs, store: Instance, stream: string)
    requires Represents(env, blocks, master, logs) && Honest(env, logs, blocks, master, store)
             && Lookup(store.tails, stream).Some?
    ensures CheckKey(blocks, store, false).result.Ok?
  {
    hide Holds, TrueTail;
    assert Cached(stream, Lookup(store.tails, stream).value) in store.tails;
  }

  /** Once the stale tail is forgotten, the same call repeated works from the true
      end: it succeeds exactly when it passes there, and otherwise the store now
      remembers the true end. */
  lemma StaleRetry(env: Env, blocks: Blocks, master: Master, logs: Logs, store: Instance, a: AppendArgs, t: Tail)
    requires Represents(env, blocks, master, logs) && Honest(env, logs, blocks, master, store)
    requires a.stream in logs && Lookup(store.tails, a.stream) == Some(t) && t.last < |logs[a.stream].events|
    requires Passes(env, t, a)
    ensures SoundLog(env, logs[a.stream])
    ensures var again := Append(env, blocks, Append(env, blocks, store, a).store, a);
            && (again.result.Ok? <==> Passes(env, LastTail(env, logs[a.stream]), a))
            && (again.result.Err? ==> Lookup(again.store.tails, a.stream) == Some(LastTail(env, logs[a.stream])))
  {
    hide StateAfter, SoundLog, Represents, Rebuild, Holds, FindTail, Put, Passes, Lookup, EntryFor, NextFor, Append,
         Honest, CheckKey, ViewAt;
    StaleAppendRefused(env, blocks, master, logs, store, a, t);
    var dropped := Append(env, blocks, store, a).store;
    DroppedStore(env, blocks, master, logs, store, a, t);
    AppendSucceedsIff(env, blocks, master, logs, dropped, a);
    TailFound(env, blocks, master, logs, dropped, a.stream);
    var last := LastTail(env, logs[a.stream]);
    PassesOrRefuses(env, blocks, dropped, a, last);
    FoundIsCached(env, blocks, CheckKey(blocks, dropped, false).store, a.stream);
    WellFormedCall(env, t, a);
  }

  lemma WellFormedCall(env: Env, t: Tail, a: AppendArgs)
    requires Passes(env, t, a)
    ensures ValidId(a.stream) && Given(a.state) != Given(a.payload)
  {
  }

  lemma FoundIsCached(env: Env, blocks: Blocks, store: Instance, stream: string)
    ensures var (found, s) := FindTail(env, blocks, store, stream); found.Ok? ==> Lookup(s.tails, stream) == Some(found.value)
  {
    hide Rebuild, Remember, Lookup;
  }

  lemma DroppedStore(env: Env, blocks: Blocks, master: Master, logs: Logs, store: Instance, a: AppendArgs, t: Tail)
    requires Represents(env, blocks, master, logs) && Honest(env, logs, blocks, master, store)
    requires a.stream in logs && Lookup(store.tails, a.stream) == Some(t) && t.last < |logs[a.stream].events|
    requires Passes(env, t, a)
    ensures var dropped := Append(env, blocks, store, a).store;
            Honest(env, logs, blocks, master, dropped) && CheckKey(blocks, dropped, false).result.Ok?
  {
    hide StateAfter, SoundLog, Rebuild, Holds, FindTail, Passes, Lookup, EntryFor, NextFor, Append, TrueTail, TailUsed;
    KeyPasses(env, blocks, master, logs, store, a.stream);
    TailFound(env, blocks, master, logs, store, a.stream);
    PassesOrRefuses(env, blocks, store, a, t);
    EntryGood(env, t, a);
    StaleAppendRefused(env, blocks, master, logs, store, a, t);
    var next := AppendCorrect(env, blocks, master, logs, store, a);
  }

  /** A refusal that does not help: asked for the state it already remembers, a
      stale store answers that nothing changed and keeps its stale tail, even when
      the true last state is another one. */
  lemma StaleNoChangeSticks(env: Env, blocks: Blocks, master: Master, logs: Logs, store: Instance, a: AppendArgs,
                            t: Tail)
    requires Represents(env, blocks, master, logs) && Honest(env, logs, blocks, master, store)
    requires a.stream in logs && Lookup(store.tails, a.stream) == Some(t) && t.last < |logs[a.stream].events|
    requires a.state == Some(Obj(t.state)) && t.codec in env.codecs && Falsy(env.codecs[t.codec].diff(t.state, t.state))
    ensures Append(env, blocks, store, a).result.Err? && Append(env, blocks, store, a).store.tails == store.tails
  {
    hide StateAfter, SoundLog, Represents, Rebuild, Holds, Append, Honest, Lookup, ValidId;
    StaleAppendRefused(env, blocks, master, logs, store, a, t);
  }

  /** Another one: a caller who has read the stream and passes
      its true last number to a store with a stale tail is refused, and the
      store keeps the stale tail, so the same call is refused again. */
  lemma StaleExpectationSticks(env: Env, blocks: Blocks, master: Master, logs: Logs, store: Instance, a: AppendArgs,
                               t: Tail)
    requires Represents(env, blocks, master, logs) && Honest(env, logs, blocks, master, store) && ValidId(a.stream)
    requires a.stream in logs && Lookup(store.tails, a.stream) == Some(t) && t.last < |logs[a.stream].events|
    requires a.expected == Some(|logs[a.stream].events|) && Given(a.state) != Given(a.payload)
    ensures var o := Append(env, blocks, store, a);
            o.result == Err(Concurrency) && o.writes == [] && Lookup(o.store.tails, a.stream) == Some(t)
  {
    hide StateAfter, SoundLog, Holds, Lookup, ValidId, Rebuild;
    CheckedKey(env, blocks, master, logs, store, false);
    KnownStream(env, blocks, master, logs, a.stream);
    assert Cached(a.stream, t) in store.tails;
  }

  // ---------------------------------------------------------------- one create

  function NewLog(a: CreateArgs, ts: Time): Log
    requires a.state.Obj?
  {
    Log(a.codec, ts, a.note, a.state.fields, [])
  }

  /** The logs after a create. */
  function Started(logs: Logs, a: CreateArgs, r: Result<View, Error>): Logs
    requires a.state.Obj?
  {
    if r.Ok? then logs[a.stream := NewLog(a, r.value.ts)] else logs
  }

  /** The key of the storage once this store has checked or set it. */
  function KeyAfter(blocks: Blocks, master: Master, store: Instance): Master {
    if CheckId in blocks then master else store.master
  }

  lemma NewLogSound(env: Env, a: CreateArgs, ts: Time)
    requires a.state.Obj? && a.codec in env.codecs
    ensures SoundLog(env, NewLog(a, ts))
  {
  }

  lemma FirstBlock(env: Env, blocks: Blocks, master: Master, logs: Logs, a: CreateArgs, ts: Time)
    requires Represents(env, blocks, master, logs) && CheckId in blocks
    requires a.state.Obj? && a.codec in env.codecs && EventSeqs(blocks, a.stream) == {}
    ensures a.stream !in logs
    ensures Represents(env, blocks[Evt(a.stream, 0) := Seal(master, a.stream, 0,
            BaseRecord(ts, a.codec, a.note, a.state.fields))],
                       master, logs[a.stream := NewLog(a, ts)])
  {
    hide StateAfter, SoundLog, Holds, EventSeqs;
    if a.stream in logs { KnownStream(env, blocks, master, logs, a.stream); }
    var log := NewLog(a, ts);
    var blob := Seal(master, a.stream, 0, BaseRecord(ts, a.codec, a.note, a.state.fields));
    var after, started := blocks[Evt(a.stream, 0) := blob], logs[a.stream := log];
    forall s | s in started ensures Holds(env, after, master, s, started[s]) {
      if s == a.stream {
        NewStreamHolds(env, blocks, master, logs, a, ts);
      } else {
        OtherHolds(env, blocks, master, s, logs[s], Evt(a.stream, 0), blob);
      }
    }
  }

  lemma NewStreamHolds(env: Env, blocks: Blocks, master: Master, logs: Logs, a: CreateArgs, ts: Time)
    requires Represents(env, blocks, master, logs) && a.stream !in logs && a.state.Obj? && a.codec in env.codecs
    ensures Holds(env, blocks[Evt(a.stream, 0) := Seal(master, a.stream, 0,
            BaseRecord(ts, a.codec, a.note, a.state.fields))],
                  master, a.stream, NewLog(a, ts))
  {
    NewLogSound(env, a, ts);
    hide StateAfter, SoundLog;
  }

  lemma CheckWritten(env: Env, master: Master)
    ensures Represents(env, map[CheckId := CheckBlob(master)], master, map[])
  {
  }

  lemma TailsGrow(env: Env, logs: Logs, more: Logs, blocks: Blocks, after: Blocks, master: Master, store: Instance)
    requires Honest(env, logs, blocks, master, store) && blocks.Keys <= after.Keys
    requires forall s :: s in logs ==> s in more && more[s] == logs[s]
    ensures Honest(env, more, after, master, store)
  {
    hide StateAfter, SoundLog;
  }

  /** `create_stream` on represented storage: after any prefix of its writes the
      storage holds the streams it held, or those and the new one. */
  lemma CreateCorrect(env: Env, blocks: Blocks, master: Master, logs: Logs, store: Instance, a: CreateArgs, k: nat)
    requires Represents(env, blocks, master, logs) && Honest(env, logs, blocks, master, store)
    ensures var o := Create(env, blocks, store, a);
            && |o.writes| <= 2
            && (o.result.Ok? ==> a.stream !in logs && a.state.Obj? && |o.writes| > 0)
            && (k <= |o.writes| ==>
                  var after := Perform(blocks, o.writes[..k]);
                  Represents(env, after, if k == 0 then master else KeyAfter(blocks, master, store),
                             if o.result.Ok? && k == |o.writes| then Started(logs, a, o.result) else logs))
            && Honest(env, if o.result.Ok? then Started(logs, a, o.result) else logs, Perform(blocks, o.writes),
                      KeyAfter(blocks, master, store), o.store)
  {
    hide StateAfter, SoundLog, Represents, Holds, Honest, Perform, CheckKey, ValidId, Remember, EventSeqs;
    var o := Create(env, blocks, store, a);
    CheckedKey(env, blocks, master, logs, store, true);
    NoWrites(blocks);
    assert o.writes[..0] == [];
    HonestAnyKey(env, logs, blocks, master, store);
    if ValidId(a.stream) && a.codec in env.codecs && env.fits(a.state) && a.state.Obj? {
      var key := CheckKey(blocks, store, true);
      CheckKeyWrites(env, blocks, master, logs, store);
      if key.result.Ok? {
        var when := When(a.ts, a.now, None);
        if EventSeqs(blocks, a.stream) == {} && when.Ok? {
          CreateWrites(env, blocks, master, logs, store, a, when.value, k);
        }
      }
      WritesPrefix(blocks, key.writes, k);
    }
  }

  lemma NoWrites(blocks: Blocks)
    ensures Perform(blocks, []) == blocks
  {
  }

  lemma WritesPrefix(blocks: Blocks, ws: seq<Write>, k: nat)
    requires |ws| <= 1
    ensures k <= |ws| ==> Perform(blocks, ws[..k]) == if k == 0 then blocks else Perform(blocks, ws)
  {
    if k <= |ws| { assert k > 0 ==> ws[..k] == ws; }
  }

  /** Nothing stored means nothing remembered, so any key will do. */
  lemma HonestAnyKey(env: Env, logs: Logs, blocks: Blocks, master: Master, store: Instance)
    requires Honest(env, logs, blocks, master, store)
    ensures Honest(env, logs, blocks, KeyAfter(blocks, master, store), store)
  {
    hide TrueTail;
  }

  lemma CheckKeyWrites(env: Env, blocks: Blocks, master: Master, logs: Logs, store: Instance)
    requires Represents(env, blocks, master, logs) && Honest(env, logs, blocks, master, store)
    ensures var key := CheckKey(blocks, store, true);
            var after := Perform(blocks, key.writes);
            && |key.writes| <= 1
            && (key.result.Err? ==> key.writes == [] && key.store == store)
            && (key.writes == [] ==> after == blocks)
            && (key.result.Ok? ==> CheckId in after && key.store.master == KeyAfter(blocks, master, store))
            && Represents(env, after, if key.writes == [] then master else KeyAfter(blocks, master, store), logs)
            && (key.result.Ok? ==> Represents(env, after, KeyAfter(blocks, master, store), logs))
            && Honest(env, logs, after, KeyAfter(blocks, master, store), key.store)
  {
    hide StateAfter, SoundLog, Holds, TrueTail;
    var key := CheckKey(blocks, store, true);
    if key.writes != [] {
      EmptyLogs(env, blocks, master, logs);
      assert key.writes[..0] == [];
      assert Perform(blocks, key.writes) == map[CheckId := CheckBlob(store.master)];
      CheckWritten(env, store.master);
    }
  }

  lemma CreateWrites(env: Env, blocks: Blocks, master: Master, logs: Logs, store: Instance, a: CreateArgs, ts: Time,
                     k: nat)
    requires Represents(env, blocks, master, logs) && Honest(env, logs, blocks, master, store)
    requires CheckKey(blocks, store, true).result.Ok? && EventSeqs(blocks, a.stream) == {}
    requires a.state.Obj? && a.codec in env.codecs
    ensures var key := CheckKey(blocks, store, true);
            var m := KeyAfter(blocks, master, store);
            var blob := Seal(store.master, a.stream, 0, BaseRecord(ts, a.codec, a.note, a.state.fields));
            var ws := key.writes + [Write(Evt(a.stream, 0), blob)];
            var after, started := Perform(blocks, ws), logs[a.stream := NewLog(a, ts)];
            && a.stream !in logs && |key.writes| <= 1
            && Represents(env, after, m, started)
            && (k < |ws| ==> Represents(env, Perform(blocks, ws[..k]), if k == 0 then master else m, logs))
            && (k == |ws| ==> ws[..k] == ws)
            && Honest(env, started, after, m,
                      key.store.(tails := Remember(key.store.tails, a.stream, Tail(a.codec, 0, ts, a.state.fields))))
  {
    hide StateAfter, SoundLog, Represents, Holds, CheckKey, EventSeqs, Remember, Perform;
    var key, m := CheckKey(blocks, store, true), KeyAfter(blocks, master, store);
    CheckKeyWrites(env, blocks, master, logs, store);
    CheckedKey(env, blocks, master, logs, store, true);
    var checked := Perform(blocks, key.writes);
    SeqsSame(env, blocks, key.writes, a.stream);
    FirstBlock(env, checked, m, logs, a, ts);
    var ws := key.writes + [Write(Evt(a.stream, 0), Seal(store.master, a.stream, 0, BaseRecord(ts, a.codec, a.note, a.state.fields)))];
    LastWrite(blocks, key.writes, ws[|ws| - 1]);
    if k < |ws| { assert ws[..k] == key.writes[..k]; }
    NoWrites(blocks);
    WritesPrefix(blocks, key.writes, k);
    var started := logs[a.stream := NewLog(a, ts)];
    FirstTail(env, a, ts, started);
    TailsGrow(env, logs, started, checked, Perform(blocks, ws), m, key.store);
  }

  lemma FirstTail(env: Env, a: CreateArgs, ts: Time, logs: Logs)
    requires a.state.Obj? && a.codec in env.codecs && a.stream in logs && logs[a.stream] == NewLog(a, ts)
    ensures TrueTail(env, logs, a.stream, Tail(a.codec, 0, ts, a.state.fields))
  {
    NewLogSound(env, a, ts);
  }

  lemma LastWrite(blocks: Blocks, ws: seq<Write>, w: Write)
    ensures Perform(blocks, ws + [w]) == Perform(blocks, ws)[w.id := w.blob]
  {
    assert (ws + [w])[..|ws|] == ws;
  }

  lemma SeqsSame(env: Env, blocks: Blocks, ws: seq<Write>, stream: string)
    requires |ws| <= 1 && (|ws| == 1 ==> ws[0].id == CheckId)
    ensures EventSeqs(Perform(blocks, ws), stream) == EventSeqs(blocks, stream)
  {
    if |ws| == 1 {
      OneWrite(blocks, ws);
      assert ws == [ws[0]];
      var after := Perform(blocks, ws);
      assert after == blocks[CheckId := ws[0].blob];
      assert forall id: BlockId :: id.Evt? ==> (id in after <==> id in blocks);
    }
  }

  // ---------------------------------------------------------------------- runs

  datatype World = World(blocks: Blocks, stores: seq<Instance>)

  /** A call by store `i`, or the end of its process: in between calls, or after
      the first `k` writes of one. A restarted store may have any key. */
  datatype Action =
    | DoCreate(i: nat, create: CreateArgs)
    | DoAppend(i: nat, append: AppendArgs)
    | DoRead(i: nat)
    | Restart(i: nat, master: Master, every: nat)
    | CrashCreate(i: nat, create: CreateArgs, k: nat)
    | CrashAppend(i: nat, append: AppendArgs, k: nat)

  function Cut(ws: seq<Write>, k: nat): seq<Write> {
    if k < |ws| then ws[..k] else ws
  }

  /** One action. Reads only record that the key was checked. */
  function Act(env: Env, w: World, act: Action): World {
    if act.i >= |w.stores| then w
    else
      var store := w.stores[act.i];
      match act
      case DoCreate(i, a) =>
        var o := Create(env, w.blocks, store, a);
        World(Perform(w.blocks, o.writes), w.stores[i := o.store])
      case DoAppend(i, a) =>
        var o := Append(env, w.blocks, store, a);
        World(Perform(w.blocks, o.writes), w.stores[i := o.store])
      case DoRead(i) => World(w.blocks, w.stores[i := CheckKey(w.blocks, store, false).store])
      case Restart(i, master, every) => World(w.blocks, w.stores[i := Fresh(master, every)])
      case CrashCreate(i, a, k) =>
        World(Perform(w.blocks, Cut(Create(env, w.blocks, store, a).writes, k)),
          w.stores[i := Fresh(store.master, store.every)])
      case CrashAppend(i, a, k) =>
        World(Perform(w.blocks, Cut(Append(env, w.blocks, store, a).writes, k)),
          w.stores[i := Fresh(store.master, store.every)])
  }

  function Run(env: Env, w: World, acts: seq<Action>): World
  {
    if |acts| == 0 then w else Act(env, Run(env, w, acts[..|acts| - 1]), acts[|acts| - 1])
  }

  ghost predicate GoodWorld(env: Env, w: World, master: Master, logs: Logs) {
    Represents(env, w.blocks, master, logs) && forall i :: 0 <= i < |w.stores| ==> Honest(env, logs, w.blocks, master, w.stores[i])
  }

  /** Streams only ever grow at the end. */
  ghost predicate Grows(before: Logs, after: Logs) {
    forall s :: s in before ==>
      && s in after && |before[s].events| <= |after[s].events|
      && after[s].(events := after[s].events[..|before[s].events|]) == before[s]
  }

  /** Nothing once written is changed or removed. */
  ghost predicate Keeps(before: Blocks, after: Blocks) {
    forall id :: id in before ==> id in after && after[id] == before[id]
  }

  lemma GrowsSame(logs: Logs)
    ensures Grows(logs, logs)
  {
    forall s | s in logs ensures logs[s].(events := logs[s].events[..|logs[s].events|]) == logs[s] { }
  }

  lemma GrowsMore(a: Logs, b: Logs, c: Logs)
    requires Grows(a, b) && Grows(b, c)
    ensures Grows(a, c)
  {
    forall s | s in a
      ensures s in c && |a[s].events| <= |c[s].events| && c[s].(events := c[s].events[..|a[s].events|]) == a[s]
    {
      assert c[s].events[..|a[s].events|] == c[s].events[..|b[s].events|][..|a[s].events|];
      assert b[s].events == c[s].events[..|b[s].events|];
    }
  }

  lemma GrownGrows(logs: Logs, stream: string, r: Appended)
    requires stream in logs
    ensures Grows(logs, Grown(logs, stream, r))
  {
    GrowsSame(logs);
    var log := logs[stream];
    assert (log.events + [EntryOf(r)])[..|log.events|] == log.events;
  }

  lemma StartedGrows(logs: Logs, a: CreateArgs, r: Result<View, Error>)
    requires a.state.Obj? && (r.Ok? ==> a.stream !in logs)
    ensures Grows(logs, Started(logs, a, r))
  {
    GrowsSame(logs);
  }

  lemma FreshHonest(env: Env, logs: Logs, blocks: Blocks, master: Master, m: Master, every: nat)
    ensures Honest(env, logs, blocks, master, Fresh(m, every))
  {
  }

  /** Another store's memory stays true when the logs grow. */
  lemma HonestGrows(env: Env, blocks: Blocks, after: Blocks, master: Master, logs: Logs, more: Logs, store: Instance)
    requires Honest(env, logs, blocks, master, store) && blocks.Keys <= after.Keys && Grows(logs, more)
    requires forall s :: s in more ==> SoundLog(env, more[s])
    ensures Honest(env, more, after, master, store)
  {
    hide SoundLog, StateAfter;
    forall c | c in store.tails ensures TrueTail(env, more, c.stream, c.tail) {
      TailGrows(env, logs, more, c.stream, c.tail);
    }
  }

  lemma TailGrows(env: Env, logs: Logs, more: Logs, stream: string, t: Tail)
    requires TrueTail(env, logs, stream, t) && Grows(logs, more) && stream in more && SoundLog(env, more[stream])
    ensures TrueTail(env, more, stream, t)
  {
    PrefixState(env.codecs[logs[stream].codec], logs[stream], more[stream], t.last);
  }

  lemma {:induction false} PrefixState(codec: Codec, log: Log, big: Log, n: nat)
    requires n <= |log.events| <= |big.events| && big.(events := big.events[..|log.events|]) == log
    ensures StateAfter(codec, big, n) == StateAfter(codec, log, n) && TimeOf(big, n) == TimeOf(log, n)
    decreases n
  {
    if n > 0 {
      PrefixState(codec, log, big, n - 1);
      assert log.events[n - 1] == big.events[..|log.events|][n - 1];
    }
  }

  lemma AllSound(env: Env, blocks: Blocks, master: Master, logs: Logs)
    requires Represents(env, blocks, master, logs)
    ensures forall s :: s in logs ==> SoundLog(env, logs[s])
  {
    hide SoundLog, StateAfter;
    forall s | s in logs ensures SoundLog(env, logs[s]) { assert Holds(env, blocks, master, s, logs[s]); }
  }

  /** New blocks land where nothing was. */
  lemma {:induction false} FreshWrites(blocks: Blocks, ws: seq<Write>)
    requires forall i :: 0 <= i < |ws| ==> ws[i].id !in blocks
    ensures Keeps(blocks, Perform(blocks, ws))
  {
    if |ws| > 0 { FreshWrites(blocks, ws[..|ws| - 1]); }
  }

  lemma CreateKeeps(env: Env, blocks: Blocks, store: Instance, a: CreateArgs)
    ensures forall i :: 0 <= i < |Create(env, blocks, store, a).writes| ==> Create(env, blocks, store, a).writes[i].id !in blocks
  {
    hide ValidId, When, Remember;
    if Evt(a.stream, 0) in blocks { assert 0 in EventSeqs(blocks, a.stream); }
  }

  lemma AppendKeeps(env: Env, blocks: Blocks, store: Instance, a: AppendArgs)
    ensures forall i :: 0 <= i < |Append(env, blocks, store, a).writes| ==> Append(env, blocks, store, a).writes[i].id !in blocks
  {
    hide ValidId, When, Remember, FindTail, CheckKey, PayloadFor;
  }

  /** Storage after some of a call's writes, for the other stores. */
  lemma OthersHonest(env: Env, w: World, master: Master, logs: Logs, blocks: Blocks, m: Master, more: Logs,
                     stores: seq<Instance>, i: nat)
    requires GoodWorld(env, w, master, logs) && i < |w.stores| == |stores|
    requires forall j :: 0 <= j < |stores| && j != i ==> stores[j] == w.stores[j]
    requires Represents(env, blocks, m, more) && Honest(env, more, blocks, m, stores[i])
    requires Grows(logs, more) && w.blocks.Keys <= blocks.Keys && (CheckId in w.blocks ==> m == master)
    ensures GoodWorld(env, World(blocks, stores), m, more)
  {
    hide SoundLog, StateAfter, Represents, Honest, Grows;
    AllSound(env, blocks, m, more);
    forall j | 0 <= j < |stores| ensures Honest(env, more, blocks, m, stores[j]) {
      if j != i {
        AnyKey(env, logs, w.blocks, master, m, stores[j]);
        HonestGrows(env, w.blocks, blocks, m, logs, more, stores[j]);
      }
    }
  }

  lemma AnyKey(env: Env, logs: Logs, blocks: Blocks, master: Master, m: Master, store: Instance)
    requires Honest(env, logs, blocks, master, store) && (CheckId in blocks ==> m == master)
    ensures Honest(env, logs, blocks, m, store)
  {
    hide TrueTail;
  }

  /** Every action keeps the invariant, and nothing written is lost. */
  lemma ActKeepsGood(env: Env, w: World, master: Master, logs: Logs, act: Action) returns (m: Master, more: Logs)
    requires GoodWorld(env, w, master, logs)
    ensures GoodWorld(env, Act(env, w, act), m, more) && Grows(logs, more)
    ensures Keeps(w.blocks, Act(env, w, act).blocks) && (CheckId in w.blocks ==> m == master)
  {
    hide SoundLog, StateAfter, Represents, Honest, Grows, Create, Append, CheckKey;
    m, more := master, logs;
    GrowsSame(logs);
    if act.i < |w.stores| {
      var store := w.stores[act.i];
      var next := Act(env, w, act);
      match act
      case DoCreate(i, a) => m, more := CreateStep(env, w, master, logs, i, a, |Create(env, w.blocks, store, a).writes|, next.stores[i]);
      case CrashCreate(i, a, k) =>
        FreshHonest(env, logs, w.blocks, master, store.master, store.every);
        m, more := CreateStep(env, w, master, logs, i, a, k, next.stores[i]);
      case DoAppend(i, a) => more := AppendStep(env, w, master, logs, i, a, |Append(env, w.blocks, store, a).writes|, next.stores[i]);
      case CrashAppend(i, a, k) => more := AppendStep(env, w, master, logs, i, a, k, next.stores[i]);
      case DoRead(i) =>
        CheckedKey(env, w.blocks, master, logs, store, false);
        OthersHonest(env, w, master, logs, w.blocks, master, logs, next.stores, i);
      case Restart(i, key, every) =>
        FreshHonest(env, logs, w.blocks, master, key, every);
        OthersHonest(env, w, master, logs, w.blocks, master, logs, next.stores, i);
    }
  }

  lemma AppendStep(env: Env, w: World, master: Master, logs: Logs, i: nat, a: AppendArgs, k: nat, after: Instance)
                   returns (more: Logs)
    requires GoodWorld(env, w, master, logs) && i < |w.stores|
    requires var o := Append(env, w.blocks, w.stores[i], a);
             (after == o.store && k == |o.writes|) || after == Fresh(w.stores[i].master, w.stores[i].every)
    ensures var blocks := Perform(w.blocks, Cut(Append(env, w.blocks, w.stores[i], a).writes, k));
            GoodWorld(env, World(blocks, w.stores[i := after]), master, more) && Grows(logs, more)
              && Keeps(w.blocks, blocks)
  {
    hide SoundLog, StateAfter, Represents, Honest, Grows, Append, Perform, Appends, Grown;
    var store := w.stores[i];
    var o := Append(env, w.blocks, store, a);
    var ws := Cut(o.writes, k);
    var blocks := Perform(w.blocks, ws);
    var next := AppendCorrect(env, w.blocks, master, logs, store, a);
    AppendKeeps(env, w.blocks, store, a);
    FreshWrites(w.blocks, ws);
    NoWrites(w.blocks);
    GrowsSame(logs);
    more := logs;
    if o.result.Ok? {
      GrownGrows(logs, a.stream, o.result.value);
      if |ws| > 0 {
        more := Grown(logs, a.stream, o.result.value);
        assert ws == o.writes[..|ws|];
      }
    }
    FreshHonest(env, more, blocks, master, store.master, store.every);
    OthersHonest(env, w, master, logs, blocks, master, more, w.stores[i := after], i);
  }

  lemma CreateStep(env: Env, w: World, master: Master, logs: Logs, i: nat, a: CreateArgs, k: nat, after: Instance)
    returns (m: Master, more: Logs)
    requires GoodWorld(env, w, master, logs) && i < |w.stores|
    requires var o := Create(env, w.blocks, w.stores[i], a);
             (after == o.store && k == |o.writes|) || after == Fresh(w.stores[i].master, w.stores[i].every)
    ensures var blocks := Perform(w.blocks, Cut(Create(env, w.blocks, w.stores[i], a).writes, k));
            GoodWorld(env, World(blocks, w.stores[i := after]), m, more) && Grows(logs, more) && Keeps(w.blocks, blocks)
    ensures CheckId in w.blocks ==> m == master
  {
    hide SoundLog, StateAfter, Represents, Honest, Grows, Create, Perform, Started;
    var store := w.stores[i];
    var o := Create(env, w.blocks, store, a);
    var ws := Cut(o.writes, k);
    var blocks := Perform(w.blocks, ws);
    assert ws == o.writes[..|ws|];
    CreateCorrect(env, w.blocks, master, logs, store, a, |ws|);
    CreateKeeps(env, w.blocks, store, a);
    FreshWrites(w.blocks, ws);
    GrowsSame(logs);
    m := if |ws| == 0 then master else KeyAfter(w.blocks, master, store);
    more := logs;
    if o.result.Ok? {
      StartedGrows(logs, a, o.result);
      if |ws| == |o.writes| { more := Started(logs, a, o.result); }
    }
    NoWrites(w.blocks);
    assert |ws| == 0 ==> ws == [];
    if after == o.store && |ws| == |o.writes| == 0 { m := KeyAfter(w.blocks, master, store); NoWritesAnyKey(env, w, master, logs, store); }
    FreshHonest(env, more, blocks, m, store.master, store.every);
    OthersHonest(env, w, master, logs, blocks, m, more, w.stores[i := after], i);
  }

  lemma NoWritesAnyKey(env: Env, w: World, master: Master, logs: Logs, store: Instance)
    requires Represents(env, w.blocks, master, logs)
    ensures Represents(env, w.blocks, KeyAfter(w.blocks, master, store), logs)
  {
    if CheckId !in w.blocks { EmptyLogs(env, w.blocks, master, logs); }
  }

  /** The start: nothing stored, any number of stores with any keys. */
  ghost predicate Initial(w: World) {
    w.blocks == map[] && forall i :: 0 <= i < |w.stores| ==> w.stores[i] == Fresh(w.stores[i].master, w.stores[i].every)
  }

  lemma InitialGood(env: Env, w: World, master: Master)
    requires Initial(w)
    ensures GoodWorld(env, w, master, map[])
  {
  }

  /** The stream and the tail that a create leaves. */
  function FirstTailOf(c: CreateArgs): Tail
    requires c.state.Obj?
  {
    Tail(c.codec, 0, if c.ts.Some? then c.ts.value else c.now, c.state.fields)
  }

  ghost predicate Creates(env: Env, c: CreateArgs) {
    ValidId(c.stream) && c.codec in env.codecs && env.fits(c.state) && c.state.Obj?
    && (c.ts.Some? ==> c.ts.value <= c.now + MAX_CLOCK_SKEW)
  }

  lemma FirstCreate(env: Env, store: Instance, c: CreateArgs)
    requires Creates(env, c) && store == Fresh(store.master, store.every)
    ensures var o := Create(env, map[], store, c);
            var logs := map[c.stream := NewLog(c, FirstTailOf(c).ts)];
            && Represents(env, Perform(map[], o.writes), store.master, logs)
            && Honest(env, logs, Perform(map[], o.writes), store.master, o.store)
            && Lookup(o.store.tails, c.stream) == Some(FirstTailOf(c)) && CheckId in Perform(map[], o.writes)
  {
    hide Represents, Honest, ValidId, Lookup, Remember, When, Perform;
    var o := Create(env, map[], store, c);
    assert EventSeqs(map[], c.stream) == {};
    assert o.result.Ok?;
    CheckWritten(env, store.master);
    NothingStored(env, store);
    CreateCorrect(env, map[], store.master, map[], store, c, |o.writes|);
    assert o.writes[..|o.writes|] == o.writes;
    RememberedFound(store.tails, c.stream, FirstTailOf(c));
    OneStream(env, Perform(map[], o.writes), store.master, map[c.stream := NewLog(c, FirstTailOf(c).ts)], c.stream);
    KnownStream(env, Perform(map[], o.writes), store.master, map[c.stream := NewLog(c, FirstTailOf(c).ts)], c.stream);
  }

  lemma NothingStored(env: Env, store: Instance)
    requires store == Fresh(store.master, store.every)
    ensures Represents(env, map[], store.master, map[]) && Honest(env, map[], map[], store.master, store)
  {
  }

  /** The stale world is real: one store creates a stream, another appends to it, and
      the first still remembers the stream as it was created. */
  lemma StaleReached(env: Env, w: World, c: CreateArgs, a: AppendArgs) returns (logs: Logs)
    requires Initial(w) && |w.stores| >= 2 && w.stores[0].master == w.stores[1].master
    requires Creates(env, c) && a.stream == c.stream && Passes(env, FirstTailOf(c), a)
    ensures var r := Run(env, w, [DoCreate(0, c), DoAppend(1, a)]);
            && |r.stores| == |w.stores| && GoodWorld(env, r, w.stores[0].master, logs)
            && c.stream in logs && SoundLog(env, logs[c.stream]) && |logs[c.stream].events| == 1
            && LastTail(env, logs[c.stream]).state == NextFor(env, FirstTailOf(c), a)
            && LastTail(env, logs[c.stream]).codec == c.codec
            && LastTail(env, logs[c.stream]).ts == EntryFor(env, FirstTailOf(c), a).ts
            && Lookup(r.stores[0].tails, c.stream) == Some(FirstTailOf(c))
  {
    hide Represents, Honest, Create, Append, Perform, Passes, Lookup, EntryFor, NextFor, FirstTailOf, CheckKey,
         TailUsed, Put, ValidId, When;
    var m, first := w.stores[0].master, DoCreate(0, c);
    var w1 := Act(env, w, first);
    TwoActs(env, w, first, DoAppend(1, a));
    FirstCreate(env, w.stores[0], c);
    var logs1 := map[c.stream := NewLog(c, FirstTailOf(c).ts)];
    forall i | 0 < i < |w.stores| ensures Honest(env, logs1, w1.blocks, m, w1.stores[i]) {
      FreshHonest(env, logs1, w1.blocks, m, w.stores[i].master, w.stores[i].every);
    }
    FirstAppend(env, w1.blocks, m, c, w.stores[1], a);
    var o := Append(env, w1.blocks, w.stores[1], a);
    logs := Grown(logs1, c.stream, o.result.value);
    var next := AppendCorrect(env, w1.blocks, m, logs1, w.stores[1], a);
    assert o.writes[..|o.writes|] == o.writes;
    GrownGrows(logs1, c.stream, o.result.value);
    PerformKeeps(w1.blocks, o.writes);
    OthersHonest(env, w1, m, logs1, Perform(w1.blocks, o.writes), m, logs, w1.stores[1 := o.store], 1);
  }

  lemma TwoActs(env: Env, w: World, x: Action, y: Action)
    ensures Run(env, w, [x, y]) == Act(env, Act(env, w, x), y)
  {
    assert [x, y][..1] == [x] && [x][..0] == [];
    hide Act;
    assert Run(env, w, [x]) == Act(env, Run(env, w, []), x);
  }

  lemma FirstAppend(env: Env, blocks: Blocks, master: Master, c: CreateArgs, store: Instance, a: AppendArgs)
    requires Creates(env, c) && a.stream == c.stream && Passes(env, FirstTailOf(c), a)
    requires Represents(env, blocks, master, map[c.stream := NewLog(c, FirstTailOf(c).ts)]) && CheckId in blocks
    requires store == Fresh(master, store.every)
    ensures var o := Append(env, blocks, store, a);
            && o.result.Ok? && EntryOf(o.result.value) == EntryFor(env, FirstTailOf(c), a)
            && var log := Extended(NewLog(c, FirstTailOf(c).ts), EntryOf(o.result.value));
               SoundLog(env, log) && LastTail(env, log) == Tail(c.codec, 1, EntryOf(o.result.value).ts,
                 NextFor(env, FirstTailOf(c), a))
  {
    hide Represents, Honest, Append, Passes, EntryFor, NextFor, ValidId, FindTail, Rebuild, When;
    var log, t := NewLog(c, FirstTailOf(c).ts), FirstTailOf(c);
    var logs := map[c.stream := log];
    NewLogSound(env, c, t.ts);
    FreshHonest(env, logs, blocks, master, master, store.every);
    FreshKey(env, blocks, master, logs, store);
    assert TailUsed(env, store, c.stream, log) == t;
    AppendSucceedsIff(env, blocks, master, logs, store, a);
    TailFound(env, blocks, master, logs, store, c.stream);
    PassesOrRefuses(env, blocks, store, a, t);
    EntryGood(env, t, a);
    ExtendedSound(env, log, EntryFor(env, t, a), NextFor(env, t, a));
  }

  lemma FreshKey(env: Env, blocks: Blocks, master: Master, logs: Logs, store: Instance)
    requires Represents(env, blocks, master, logs) && store == Fresh(master, store.every)
    ensures CheckKey(blocks, store, false).result.Ok?
  {
    hide Holds;
  }

  /** Every reachable world: whatever the stores do, in whatever order, the
      storage holds sound logs, and every record written earlier is still there,
      unchanged, as part of a longer log. */
  lemma {:induction false} RunsAreGood(env: Env, w: World, acts: seq<Action>, n: nat)
                                       returns (m: Master, early: Logs, late: Logs)
    requires Initial(w) && n <= |acts|
    ensures GoodWorld(env, Run(env, w, acts), m, late)
    ensures Represents(env, Run(env, w, acts[..n]).blocks, m, early) || Run(env, w, acts[..n]).blocks == map[]
    ensures Run(env, w, acts[..n]).blocks != map[] ==> Grows(early, late)
    ensures Keeps(Run(env, w, acts[..n]).blocks, Run(env, w, acts).blocks)
    decreases |acts|
  {
    hide GoodWorld, Act, Represents, Grows;
    if n == |acts| {
      assert acts[..n] == acts;
      if n == 0 {
        m, early, late := Master(0), map[], map[];
        InitialGood(env, w, m);
      } else {
        m, early, late := RunsAreGood(env, w, acts[..n - 1], n - 1);
        m, late := ActKeepsGood(env, Run(env, w, acts[..n - 1]), m, late, acts[n - 1]);
        early := late;
      }
      GoodRepresents(env, Run(env, w, acts), m, late);
      GrowsSame(late);
    } else {
      var before := acts[..|acts| - 1];
      assert before[..n] == acts[..n];
      m, early, late := RunsAreGood(env, w, before, n);
      var m0, late0 := m, late;
      m, late := ActKeepsGood(env, Run(env, w, before), m0, late0, acts[|acts| - 1]);
      if Run(env, w, acts[..n]).blocks != map[] {
        CheckIsThere(env, Run(env, w, acts[..n]).blocks, m0, early);
        GrowsMore(early, late0, late);
      }
    }
  }

  lemma GoodRepresents(env: Env, w: World, master: Master, logs: Logs)
    requires GoodWorld(env, w, master, logs)
    ensures Represents(env, w.blocks, master, logs)
  {
  }

  lemma CheckIsThere(env: Env, blocks: Blocks, master: Master, logs: Logs)
    requires Represents(env, blocks, master, logs) && blocks != map[]
    ensures CheckId in blocks
  {
  }

  /** Hence in every reachable world a read is the fold of its stream's log. */
  lemma ReachableReads(env: Env, w: World, acts: seq<Action>, stream: string, n: nat)
    returns (m: Master, log: Log)
    requires Initial(w) && Evt(stream, n) in Run(env, w, acts).blocks
    ensures Holds(env, Run(env, w, acts).blocks, m, stream, log) && n <= |log.events|
    ensures Rebuild(env, Run(env, w, acts).blocks, m, stream, None, Some(n)) == Ok(ViewAt(env, log, n))
  {
    hide GoodWorld, Grows, Holds, Rebuild, StateAfter, SoundLog, Run;
    var late, early;
    m, early, late := RunsAreGood(env, w, acts, 0);
    var blocks := Run(env, w, acts).blocks;
    GoodRepresents(env, Run(env, w, acts), m, late);
    log := late[stream];
    SlotFree(env, blocks, m, late, stream, n);
    StateAtIsFold(env, blocks, m, stream, log, None, Some(n));
    NumberedView(env, blocks, m, stream, log, n);
  }

  lemma NumberedView(env: Env, blocks: Blocks, master: Master, stream: string, log: Log, n: nat)
    requires Holds(env, blocks, master, stream, log) && n <= |log.events|
    ensures SoundLog(env, log) && Rebuild(env, blocks, master, stream, None, Some(n)) == Ok(ViewAt(env, log, n))
  {
    hide Rebuild, StateAfter;
    StateAtIsFold(env, blocks, master, stream, log, None, Some(n));
    assert n <= Rebuild(env, blocks, master, stream, None, Some(n)).value.seqNo <==> Within(TimeOf(log, n), None);
  }

  /** And so is a read at a time: the state after exactly the events up to then. */
  lemma ReachableTimedReads(env: Env, w: World, acts: seq<Action>, stream: string, at: Time)
    returns (m: Master, log: Log, n: nat)
    requires Initial(w) && Evt(stream, 0) in Run(env, w, acts).blocks
    ensures Holds(env, Run(env, w, acts).blocks, m, stream, log) && n <= |log.events|
    ensures Rebuild(env, Run(env, w, acts).blocks, m, stream, Some(at), None) == (if at < log.ts then Err(NotYet) else Ok(ViewAt(env, log, n)))
    ensures at >= log.ts ==> forall k :: 0 <= k <= |log.events| ==> (k <= n <==> TimeOf(log, k) <= at)
  {
    hide GoodWorld, Grows, Holds, Rebuild, StateAfter, SoundLog, Run;
    var late, early;
    m, early, late := RunsAreGood(env, w, acts, 0);
    var blocks := Run(env, w, acts).blocks;
    GoodRepresents(env, Run(env, w, acts), m, late);
    log := late[stream];
    SlotFree(env, blocks, m, late, stream, 0);
    n := TimedView(env, blocks, m, stream, log, at);
  }

  lemma TimedView(env: Env, blocks: Blocks, master: Master, stream: string, log: Log, at: Time) returns (n: nat)
    requires Holds(env, blocks, master, stream, log)
    ensures SoundLog(env, log) && n <= |log.events|
    ensures Rebuild(env, blocks, master, stream, Some(at), None) == (if at < log.ts then Err(NotYet) else Ok(ViewAt(env, log, n)))
    ensures at >= log.ts ==> forall k :: 0 <= k <= |log.events| ==> (k <= n <==> TimeOf(log, k) <= at)
  {
    hide Rebuild, StateAfter;
    StateAtIsFold(env, blocks, master, stream, log, Some(at), None);
    var r := Rebuild(env, blocks, master, stream, Some(at), None);
    n := if r.Ok? then r.value.seqNo else 0;
    if at >= log.ts {
      forall k | 0 <= k <= |log.events| ensures k <= n <==> TimeOf(log, k) <= at {
        assert k <= r.value.seqNo <==> Within(TimeOf(log, k), Some(at));
      }
    }
  }

  /** In every reachable world a successful append, by whichever store, extends the
      true end of its stream by what was asked for. */
  lemma ReachableAppend(env: Env, w: World, acts: seq<Action>, i: nat, a: AppendArgs) returns (m: Master, log: Log)
    requires Initial(w) && i < |Run(env, w, acts).stores|
    requires Append(env, Run(env, w, acts).blocks, Run(env, w, acts).stores[i], a).result.Ok?
    ensures var b := Run(env, w, acts).blocks;
            var o := Append(env, b, Run(env, w, acts).stores[i], a);
            && Holds(env, b, m, a.stream, log) && o.result.value.seqNo == |log.events| + 1
            && AsAsked(env, log, a, o.result.value)
            && Holds(env, Perform(b, o.writes), m, a.stream, Extended(log, EntryOf(o.result.value)))
  {
    hide Grows, Holds, StateAfter, SoundLog, Run, Append, AsAsked, Represents, Perform, Appends, Grown, Honest;
    var early, late;
    m, early, late := RunsAreGood(env, w, acts, 0);
    var world := Run(env, w, acts);
    var o := Append(env, world.blocks, world.stores[i], a);
    var next := AppendCorrect(env, world.blocks, m, late, world.stores[i], a);
    log := late[a.stream];
    OneStream(env, world.blocks, m, late, a.stream);
    assert o.writes[..|o.writes|] == o.writes;
    GrownStream(late, a.stream, o.result.value);
    OneStream(env, Perform(world.blocks, o.writes), m, Grown(late, a.stream, o.result.value), a.stream);
    NextNumber(env, late, a.stream, o.result.value, next);
  }

  lemma OneStream(env: Env, blocks: Blocks, master: Master, logs: Logs, stream: string)
    requires Represents(env, blocks, master, logs) && stream in logs
    ensures Holds(env, blocks, master, stream, logs[stream])
  {
  }

  lemma GrownStream(logs: Logs, stream: string, r: Appended)
    requires stream in logs
    ensures stream in Grown(logs, stream, r) && Grown(logs, stream, r)[stream] == Extended(logs[stream], EntryOf(r))
  {
  }

  lemma NextNumber(env: Env, logs: Logs, stream: string, r: Appended, next: Fields)
    requires stream in logs && logs[stream].codec in env.codecs
    requires Appends(env, logs, stream, r, env.codecs[logs[stream].codec], next)
    ensures r.seqNo == |logs[stream].events| + 1
  {
  }
}
