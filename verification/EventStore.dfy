/** `EventStore` as an object. */
module EventStore {
  // A store over a shared block store (mdc/src/mdc/events/store.py), whose methods
  // do step by step what the functions of EventLog, EventOps and EventRotation say.

  import Bytes
  import opened EventCodec
  import opened EventLog
  import opened EventOps
  import opened EventRotation
  import opened EventRuns
  import opened MasterKeys
  import opened Outcomes

  /** The storage backend. */
  class BlockStore {
    var blocks: Blocks

    constructor ()
      ensures blocks == map[]
    {
      blocks := map[];
    }

    method Put(id: BlockId, blob: Blob)
      modifies this
      ensures blocks == old(blocks)[id := blob]
    {
      blocks := blocks[id := blob];
    }
  }

  // ------------------------------------------------------------------ history

  /** One line of the log: the base lists the starting state, an event its
      payload. */
  datatype Listed = ListedBase(ts: Time, note: Note, state: Fields) | ListedEvent(seqNo: nat, ts: Time, note: Note,
    payload: Json)

  function ListedAt(seqNo: nat, r: Record): Listed
    requires r.BaseRecord? || r.EventRecord?
  {
    if r.BaseRecord? then ListedBase(r.ts, r.note, r.state) else ListedEvent(seqNo, r.ts, r.note, r.payload)
  }

  predicate InRange(ts: Time, since: Option<Time>, until: Option<Time>) {
    (since.Some? ==> ts >= since.value) && (until.Some? ==> ts <= until.value)
  }

  /** The lines for the first `n` records. */
  function Lines(blocks: Blocks, master: Master, stream: string, since: Option<Time>, until: Option<Time>,
                 n: nat): Result<seq<Listed>, Error>
  {
    if n == 0 then Ok([])
    else
      var rest :- Lines(blocks, master, stream, since, until, n - 1);
      var r :- ReadRecord(blocks, master, stream, if n == 1 then BaseKind else EventKind, n - 1);
      Ok(if InRange(r.ts, since, until) then rest + [ListedAt(n - 1, r)] else rest)
  }

  /** `events[-limit:] if limit else events`. */
  function Newest<T>(xs: seq<T>, limit: Option<int>): seq<T> {
    if limit.None? || limit.value == 0 then xs
    else if limit.value > 0 then (if |xs| > limit.value then xs[|xs| - limit.value..] else xs)
    else (if |xs| > -limit.value then xs[-limit.value..] else [])
  }

  /** `history`, once the id and the key are checked. */
  function History(blocks: Blocks, master: Master, stream: string, since: Option<Time>, until: Option<Time>,
                   limit: Option<int>): Result<seq<Listed>, Error> {
    var last :- LastSeq(blocks, stream);
    var lines :- Lines(blocks, master, stream, since, until, last + 1);
    Ok(Newest(lines, limit))
  }

  /** The first `n` records of a log that are in the time range. */
  function LogLines(log: Log, since: Option<Time>, until: Option<Time>, n: nat): seq<Listed>
    requires n <= |log.events| + 1
  {
    if n == 0 then []
    else
      LogLines(log, since, until, n - 1)
      + if InRange(TimeOf(log, n - 1), since, until) then [ListedAt(n - 1, RecordAt(log, n - 1))] else []
  }

  lemma {:induction false} LinesAreLog(env: Env, blocks: Blocks, master: Master, stream: string, log: Log,
                                       since: Option<Time>, until: Option<Time>, n: nat)
    requires Holds(env, blocks, master, stream, log) && n <= |log.events| + 1
    ensures Lines(blocks, master, stream, since, until, n) == Ok(LogLines(log, since, until, n))
  {
    hide SoundLog, StateAfter;
    if n > 0 {
      LinesAreLog(env, blocks, master, stream, log, since, until, n - 1);
      assert blocks[Evt(stream, n - 1)] == Seal(master, stream, n - 1, RecordAt(log, n - 1));
      Bytes.Unit(LogLines(log, since, until, n - 1));
    }
  }

  /** `history` is the log, oldest first, within the times asked for. */
  lemma HistoryIsLog(env: Env, blocks: Blocks, master: Master, stream: string, log: Log, since: Option<Time>,
                     until: Option<Time>, limit: Option<int>)
    requires Holds(env, blocks, master, stream, log)
    ensures History(blocks, master, stream, since, until,
            limit) == Ok(Newest(LogLines(log, since, until, |log.events| + 1), limit))
  {
    hide LastSeq, Holds;
    HoldsLast(env, blocks, master, stream, log);
    LinesAreLog(env, blocks, master, stream, log, since, until, |log.events| + 1);
  }

  /** Which record a line lists. */
  function SeqOf(l: Listed): nat {
    match l
    case ListedBase(_, _, _) => 0
    case ListedEvent(seqNo, _, _, _) => seqNo
  }

  /** The line for record `n` of a log. */
  ghost predicate IsLine(log: Log, n: nat, l: Listed) {
    && n <= |log.events|
    && l == if n == 0 then ListedBase(log.ts, log.note, log.state)
            else ListedEvent(n, log.events[n - 1].ts, log.events[n - 1].note, log.events[n - 1].payload)
  }

  /** The time of record `n` is neither before `since` nor after `until`. */
  ghost predicate TimeIn(log: Log, since: Option<Time>, until: Option<Time>, n: nat)
    requires n <= |log.events|
  {
    (since.Some? ==> since.value <= TimeOf(log, n)) && (until.Some? ==> TimeOf(log, n) <= until.value)
  }

  /** Lines of records among the first `m` whose time is in the range, in order. */
  ghost predicate OnlyInRange(log: Log, since: Option<Time>, until: Option<Time>, m: nat, lines: seq<Listed>)
    requires m <= |log.events| + 1
  {
    && (forall k :: 0 <= k < |lines| ==>
          && SeqOf(lines[k]) < m && IsLine(log, SeqOf(lines[k]), lines[k])
          && TimeIn(log, since, until, SeqOf(lines[k])))
    && forall k, j :: 0 <= k < j < |lines| ==> SeqOf(lines[k]) < SeqOf(lines[j])
  }

  /** All of them. */
  ghost predicate AllInRange(log: Log, since: Option<Time>, until: Option<Time>, m: nat, lines: seq<Listed>)
    requires m <= |log.events| + 1
  {
    forall n :: 0 <= n < m && TimeIn(log, since, until, n) ==> Shows(lines, n)
  }

  ghost predicate Shows(lines: seq<Listed>, n: nat) {
    exists k :: 0 <= k < |lines| && SeqOf(lines[k]) == n
  }

  lemma ShowsMore(lines: seq<Listed>, l: Listed, n: nat)
    ensures Shows(lines, n) || SeqOf(l) == n ==> Shows(lines + [l], n)
  {
    if Shows(lines, n) {
      var k :| 0 <= k < |lines| && SeqOf(lines[k]) == n;
      assert (lines + [l])[k] == lines[k];
    } else {
      assert (lines + [l])[|lines|] == l;
    }
  }

  lemma LineOf(log: Log, n: nat)
    requires n <= |log.events|
    ensures RecordAt(log, n).BaseRecord? || RecordAt(log, n).EventRecord?
    ensures IsLine(log, n, ListedAt(n, RecordAt(log, n))) && SeqOf(ListedAt(n, RecordAt(log, n))) == n
  {
  }

  lemma InRangeTimes(log: Log, since: Option<Time>, until: Option<Time>, n: nat)
    requires n <= |log.events|
    ensures InRange(TimeOf(log, n), since, until) <==> TimeIn(log, since, until, n)
  {
  }

  lemma {:induction false} LinesInRange(log: Log, since: Option<Time>, until: Option<Time>, m: nat)
    requires m <= |log.events| + 1
    ensures OnlyInRange(log, since, until, m, LogLines(log, since, until, m))
    ensures AllInRange(log, since, until, m, LogLines(log, since, until, m))
  {
    hide OnlyInRange, AllInRange, ListedAt, RecordAt, InRange, TimeOf;
    if m == 0 {
      NoLines(log, since, until);
    } else {
      LinesInRange(log, since, until, m - 1);
      LineOf(log, m - 1);
      InRangeTimes(log, since, until, m - 1);
      NextLine(log, since, until, m, LogLines(log, since, until, m - 1), ListedAt(m - 1, RecordAt(log, m - 1)));
      Bytes.Unit(LogLines(log, since, until, m - 1));
    }
  }

  lemma NoLines(log: Log, since: Option<Time>, until: Option<Time>)
    ensures OnlyInRange(log, since, until, 0, []) && AllInRange(log, since, until, 0, [])
  {
  }

  /** One more record, listed or not. */
  lemma NextLine(log: Log, since: Option<Time>, until: Option<Time>, m: nat, before: seq<Listed>, l: Listed)
    requires 0 < m <= |log.events| + 1 && SeqOf(l) == m - 1 && IsLine(log, m - 1, l)
    requires OnlyInRange(log, since, until, m - 1, before) && AllInRange(log, since, until, m - 1, before)
    ensures var lines := if TimeIn(log, since, until, m - 1) then before + [l] else before;
            OnlyInRange(log, since, until, m, lines) && AllInRange(log, since, until, m, lines)
  {
    hide Shows, IsLine, SeqOf, TimeIn;
    forall n: nat | n < m ensures Shows(before, n) || n == m - 1 ==> Shows(before + [l], n) { ShowsMore(before, l, n); }
  }

  /** A positive limit keeps that many at the end, a negative one leaves out as many at
      the start, as a slice does; zero and none keep all. */
  lemma NewestIsEnd<T>(xs: seq<T>, limit: Option<int>)
    ensures exists k :: 0 <= k <= |xs| && Newest(xs, limit) == xs[k..]
    ensures limit.None? || limit.value == 0 ==> Newest(xs, limit) == xs
    ensures limit.Some? && limit.value > 0 ==> |Newest(xs, limit)| == Bytes.Min(limit.value, |xs|)
    ensures limit.Some? && limit.value < 0 ==> |Newest(xs, limit)| == |xs| - Bytes.Min(-limit.value, |xs|)
  {
    var n := |Newest(xs, limit)|;
    assert xs[|xs|..] == [] && xs[0..] == xs;
    assert Newest(xs, limit) == xs[|xs| - n..];
  }

  /** `history` on a stored log: the lines whose times are in the range, all of them and
      in order, and of those the end that the limit asks for. */
  lemma HistoryExact(env: Env, blocks: Blocks, master: Master, stream: string, log: Log, since: Option<Time>,
                     until: Option<Time>, limit: Option<int>) returns (lines: seq<Listed>)
    requires Holds(env, blocks, master, stream, log)
    ensures OnlyInRange(log, since, until, |log.events| + 1, lines)
    ensures AllInRange(log, since, until, |log.events| + 1, lines)
    ensures History(blocks, master, stream, since, until, limit) == Ok(Newest(lines, limit))
    ensures exists k :: 0 <= k <= |lines| && Newest(lines, limit) == lines[k..]
    ensures limit.Some? && limit.value > 0 ==> |Newest(lines, limit)| == Bytes.Min(limit.value, |lines|)
    ensures limit.None? ==> Newest(lines, limit) == lines
  {
    hide History, LogLines, OnlyInRange, AllInRange, Newest, Holds;
    lines := LogLines(log, since, until, |log.events| + 1);
    HistoryIsLog(env, blocks, master, stream, log, since, until, limit);
    LinesInRange(log, since, until, |log.events| + 1);
    NewestIsEnd(lines, limit);
  }

  // ---------------------------------------------------------------- the object

  class EventStore {
    const storage: BlockStore
    const env: Env
    const every: nat
    var master: Master
    var keyVerified: bool
    var tails: seq<Cached>

    constructor (storage: BlockStore, master: Master, env: Env, every: nat)
      requires every >= 1
      ensures this.storage == storage && this.env == env && State() == Fresh(master, every)
    {
      this.storage := storage;
      this.env := env;
      this.every := every;
      this.master := master;
      keyVerified := false;
      tails := [];
    }

    function State(): Instance
      reads this
    {
      Instance(master, every, keyVerified, tails)
    }

    /** `_check_key`. */
    method CheckKeyNow(firstStream: bool) returns (r: Result<(), Error>)
      modifies this, storage
      ensures var o := old(CheckKey(storage.blocks, State(), firstStream));
              r == o.result && State() == o.store && storage.blocks == Perform(old(storage.blocks), o.writes)
    {
      NoWrites(storage.blocks);
      OneMore(storage.blocks, [], Write(CheckId, CheckBlob(master)));
      if keyVerified { return Ok(()); }
      if CheckId in storage.blocks {
        if Open(master, CHECK_STREAM, CheckKind, 0, storage.blocks[CheckId]).None? { return Err(WrongKey); }
        keyVerified := true;
      } else if firstStream && !HasStreams(storage.blocks) {
        storage.Put(CheckId, CheckBlob(master));
        keyVerified := true;
      }
      r := Ok(());
    }

    /** `_remember`. */
    method RememberTail(stream: string, t: Tail)
      modifies this`tails
      ensures tails == Remember(old(tails), stream, t)
    {
      hide Without;
      tails := Without(tails, stream) + [Cached(stream, t)];
      ghost var all := tails;
      var dropped := 0;
      while |tails| > CACHE_SIZE
        invariant 0 <= dropped <= |all| && tails == all[dropped..]
        invariant |all| <= CACHE_SIZE ==> dropped == 0
        invariant |all| > CACHE_SIZE ==> dropped <= |all| - CACHE_SIZE
        decreases |tails|
      {
        tails := tails[1..];
        dropped := dropped + 1;
      }
    }

    /** `_rebuild`: find where to start, then a loop that replays the log. */
    method RebuildView(stream: string, at: Option<Time>, seqNo: Option<int>) returns (r: Result<View, Error>)
      ensures r == Rebuild(env, storage.blocks, master, stream, at, seqNo)
    {
      hide LastSeq, ReadRecord;
      var last := LastSeq(storage.blocks, stream);
      if last.Err? { return Err(last.error); }
      if seqNo.Some? && !(0 <= seqNo.value <= last.value) { return Err(InvalidEvent); }
      var target: nat := if seqNo.Some? then seqNo.value else last.value;
      var base := ReadRecord(storage.blocks, master, stream, BaseKind, 0);
      if base.Err? { return Err(base.error); }
      BaseShape(storage.blocks, master, stream);
      if !Within(base.value.ts, at) { return Err(NotYet); }
      if base.value.codec !in env.codecs { return Err(Corrupt); }
      var codec := env.codecs[base.value.codec];
      var start := FindStart(stream, at, target, View(base.value.state, 0, base.value.ts));
      if start.Err? { return Err(start.error); }
      r := ReplayFrom(codec, stream, at, start.value, target);
    }

    method FindStart(stream: string, at: Option<Time>, target: nat, base: View) returns (r: Result<View, Error>)
      ensures r == FromSnapshot(storage.blocks, master, stream, at, target, base)
    {
      hide ReadRecord;
      var n := target as int;
      while n >= 0
        invariant -1 <= n <= target
        invariant FromSnapshot(storage.blocks, master, stream, at, target, base)
                  == FromSnapshot(storage.blocks, master, stream, at, n, base)
      {
        if Snp(stream, n) in storage.blocks {
          var snap := ReadRecord(storage.blocks, master, stream, SnapshotKind, n);
          if snap.Err? { return Err(snap.error); }
          SnapshotShape(storage.blocks, master, stream, n);
          if Within(snap.value.ts, at) { return Ok(View(snap.value.state, n, snap.value.ts)); }
        }
        n := n - 1;
      }
      r := Ok(base);
    }

    method ReplayFrom(codec: Codec, stream: string, at: Option<Time>, start: View, target: nat)
                      returns (r: Result<View, Error>)
      ensures r == Replay(codec, storage.blocks, master, stream, at, start, target)
    {
      hide ReadRecord;
      var state, applied: nat, appliedTs := start.state, start.seqNo, start.ts;
      while applied < target
        invariant Replay(codec, storage.blocks, master, stream, at, View(state, applied, appliedTs), target)
                  == Replay(codec, storage.blocks, master, stream, at, start, target)
      {
        var n := applied + 1;
        var event := ReadRecord(storage.blocks, master, stream, EventKind, n);
        if event.Err? { return Err(event.error); }
        EventShape(storage.blocks, master, stream, n);
        if !Within(event.value.ts, at) { break; }
        var next := codec.apply(state, event.value.payload);
        if next.None? { return Err(InvalidEvent); }
        state, applied, appliedTs := next.value, n, event.value.ts;
      }
      r := Ok(View(state, applied, appliedTs));
    }

    /** `_tail`. */
    method FindTailNow(stream: string) returns (r: Result<Tail, Error>)
      modifies this`tails
      ensures var o := old(FindTail(env, storage.blocks, State(), stream));
              r == o.0 && State() == o.1
    {
      hide Lookup, Rebuild, Remember, ReadRecord;
      var cached := Lookup(tails, stream);
      if cached.Some? { return Ok(cached.value); }
      var view := RebuildView(stream, None, None);
      if view.Err? { return Err(view.error); }
      var base := ReadRecord(storage.blocks, master, stream, BaseKind, 0);
      if base.Err? { return Err(base.error); }
      BaseShape(storage.blocks, master, stream);
      var t := Tail(base.value.codec, view.value.seqNo, view.value.ts, view.value.state);
      RememberTail(stream, t);
      r := Ok(t);
    }

    /** `create_stream`. */
    method CreateStream(a: CreateArgs) returns (r: Result<View, Error>)
      modifies this, storage
      ensures var o := old(Create(env, storage.blocks, State(), a));
              r == o.result && State() == o.store && storage.blocks == Perform(old(storage.blocks), o.writes)
    {
      hide ValidId, Remember, CheckKey, When, EventSeqs, Perform;
      NoWrites(storage.blocks);
      if !ValidId(a.stream) { return Err(BadId); }
      if a.codec !in env.codecs || !env.fits(a.state) || !a.state.Obj? { return Err(InvalidEvent); }
      ghost var key := CheckKey(storage.blocks, State(), true);
      KeepsKey(storage.blocks, State(), true, a.stream);
      var checked := CheckKeyNow(true);
      if checked.Err? { return Err(checked.error); }
      if EventSeqs(storage.blocks, a.stream) != {} { return Err(AlreadyExists); }
      var when := When(a.ts, a.now, None);
      if when.Err? { return Err(when.error); }
      var blob := Seal(master, a.stream, 0, BaseRecord(when.value, a.codec, a.note, a.state.fields));
      OneMore(old(storage.blocks), key.writes, Write(Evt(a.stream, 0), blob));
      storage.Put(Evt(a.stream, 0), blob);
      RememberTail(a.stream, Tail(a.codec, 0, when.value, a.state.fields));
      r := Ok(View(a.state.fields, 0, when.value));
    }

    /** `append`. */
    method AppendEvent(a: AppendArgs) returns (r: Result<Appended, Error>)
      modifies this, storage
      ensures var o := old(Append(env, storage.blocks, State(), a));
              r == o.result && State() == o.store && storage.blocks == Perform(old(storage.blocks), o.writes)
    {
      hide ValidId, Remember, CheckKey, When, FindTail, PayloadFor, Perform, Put, Given, Lookup;
      NoWrites(storage.blocks);
      if !ValidId(a.stream) { return Err(BadId); }
      if Given(a.state) == Given(a.payload) { return Err(InvalidEvent); }
      KeepsKey(storage.blocks, State(), false, a.stream);
      var checked := CheckKeyNow(false);
      if checked.Err? { return Err(checked.error); }
      var tail := FindTailNow(a.stream);
      if tail.Err? { return Err(tail.error); }
      if a.expected.Some? && a.expected.value != tail.value.last { return Err(Concurrency); }
      if tail.value.codec !in env.codecs { return Err(Corrupt); }
      var t, codec := tail.value, env.codecs[tail.value.codec];
      var p := PayloadFor(env, codec, t.state, a);
      if p.Err? { return Err(p.error); }
      if !env.fits(p.value) || !codec.valid(p.value) { return Err(InvalidEvent); }
      var next := codec.apply(t.state, p.value);
      if next.None? { return Err(InvalidEvent); }
      var when := When(a.ts, a.now, Some(t.ts));
      if when.Err? { return Err(when.error); }
      r := PutEvent(a.stream, t, Entry(when.value, a.note, p.value), next.value);
    }

    /** The writes of `append`, each refused if its slot is taken. */
    method PutEvent(stream: string, t: Tail, e: Entry, next: Fields) returns (r: Result<Appended, Error>)
      modifies this, storage
      ensures var o := old(Put(storage.blocks, State(), stream, t, e, next));
              r == o.result && State() == o.store && storage.blocks == Perform(old(storage.blocks), o.writes)
    {
      hide Remember, Without, Perform;
      var n := t.last + 1;
      var event := Seal(master, stream, n, EventRecord(e.ts, e.note, e.payload));
      var snap := Seal(master, stream, n, SnapshotRecord(e.ts, next));
      NoWrites(storage.blocks);
      OneMore(storage.blocks, [], Write(Evt(stream, n), event));
      OneMore(storage.blocks, [Write(Evt(stream, n), event)], Write(Snp(stream, n), snap));
      assert [] + [Write(Evt(stream, n), event)] == [Write(Evt(stream, n), event)];
      assert [Write(Evt(stream, n), event)] + [Write(Snp(stream, n), snap)] == [Write(Evt(stream, n), event),
             Write(Snp(stream, n), snap)];
      if Evt(stream, n) in storage.blocks {
        tails := Without(tails, stream);
        return Err(Concurrency);
      }
      storage.Put(Evt(stream, n), event);
      if every > 0 && n % every == 0 {
        if Snp(stream, n) in storage.blocks {
          tails := Without(tails, stream);
          return Err(Concurrency);
        }
        storage.Put(Snp(stream, n), snap);
      }
      RememberTail(stream, Tail(t.codec, n, e.ts, next));
      r := Ok(Appended(n, e.ts, e.note, e.payload));
    }

    /** `state_at`. */
    method StateAt(stream: string, at: Option<Time>, seqNo: Option<int>) returns (r: Result<View, Error>)
      modifies this, storage
      ensures storage.blocks == old(storage.blocks) && State() == old(State()).(verified := keyVerified)
      ensures !ValidId(stream) ==> r == Err(BadId)
      ensures ValidId(stream) && at.Some? && seqNo.Some? ==> r == Err(InvalidEvent)
      ensures ValidId(stream) && !(at.Some? && seqNo.Some?) ==>
                r == if old(CheckKey(storage.blocks, State(), false)).result.Err? then Err(WrongKey)
                     else Rebuild(env, storage.blocks, master, stream, at, seqNo)
    {
      hide ValidId, Rebuild;
      if !ValidId(stream) { return Err(BadId); }
      if at.Some? && seqNo.Some? { return Err(InvalidEvent); }
      NoWrites(storage.blocks);
      var checked := CheckKeyNow(false);
      if checked.Err? { return Err(checked.error); }
      r := RebuildView(stream, at, seqNo);
    }

    /** `history`. */
    method ListHistory(stream: string, since: Option<Time>, until: Option<Time>, limit: Option<int>)
                       returns (r: Result<seq<Listed>, Error>)
      ensures r == History(storage.blocks, master, stream, since, until, limit)
    {
      hide LastSeq, ReadRecord;
      var last := LastSeq(storage.blocks, stream);
      if last.Err? { return Err(last.error); }
      var lines: seq<Listed> := [];
      for n := 0 to last.value + 1
        invariant Lines(storage.blocks, master, stream, since, until, n) == Ok(lines)
      {
        var rec := ReadRecord(storage.blocks, master, stream, if n == 0 then BaseKind else EventKind, n);
        if rec.Err? {
          LinesStop(storage.blocks, master, stream, since, until, n + 1, last.value + 1);
          return Err(rec.error);
        }
        LineShape(storage.blocks, master, stream, n);
        if InRange(rec.value.ts, since, until) { lines := lines + [ListedAt(n, rec.value)]; }
      }
      r := Ok(Newest(lines, limit));
    }

    /** `rotate_key`, with the records to look at in some order. */
    method RotateKey(after: Master, order: seq<BlockId>) returns (r: Result<Report, Error>)
      requires forall id :: id in order ==> id in storage.blocks && !id.CheckId?
      modifies this, storage
      ensures var o := old(Rotate(storage.blocks, State(), after, order));
              r == o.result && State() == o.store && storage.blocks == Perform(old(storage.blocks), o.writes)
    {
      hide PlanFor, FinishedUnder, CheckKey, Perform;
      NoWrites(storage.blocks);
      if after == master { return Err(InvalidEvent); }
      if FinishedUnder(storage.blocks, after) {
        master, keyVerified, tails := after, true, [];
        return Ok(Report(0, |order|));
      }
      KeepsKey(storage.blocks, State(), false, "");
      var checked := CheckKeyNow(false);
      if checked.Err? { return Err(checked.error); }
      var plan := MakePlan(after, order);
      if plan.Err? { return Err(plan.error); }
      var streams := HasStreams(storage.blocks);
      ghost var before := storage.blocks;
      var ws := plan.value.writes;
      for i := 0 to |ws|
        invariant storage.blocks == Perform(before, ws[..i])
        invariant State() == old(CheckKey(storage.blocks, State(), false)).store
      {
        OneMore(before, ws[..i], ws[i]);
        assert ws[..i + 1] == ws[..i] + [ws[i]];
        storage.Put(ws[i].id, ws[i].blob);
      }
      assert ws[..|ws|] == ws;
      if streams {
        OneMore(before, ws, Write(CheckId, CheckBlob(after)));
        storage.Put(CheckId, CheckBlob(after));
      } else {
        assert ws + [] == ws;
      }
      master, tails, keyVerified := after, [], streams || keyVerified;
      r := Ok(Report(|plan.value.writes|, plan.value.already));
    }

    /** The in-memory half of a rotation: nothing is written here. */
    method MakePlan(after: Master, order: seq<BlockId>) returns (r: Result<Plan, Error>)
      requires forall id :: id in order ==> id in storage.blocks && !id.CheckId?
      ensures r == PlanFor(storage.blocks, master, after, order)
    {
      hide OpenAt;
      var writes, already := [], 0;
      for i := 0 to |order|
        invariant already >= 0
        invariant PlanFor(storage.blocks, master, after, order[..i]) == Ok(Plan(writes, already))
      {
        assert order[..i + 1][..i] == order[..i];
        var id := order[i];
        var plain := OpenAt(storage.blocks, master, id);
        if plain.Some? {
          writes := writes + [Write(id, Seal(after, id.stream, id.seqNo, plain.value))];
        } else if OpenAt(storage.blocks, after, id).Some? {
          already := already + 1;
        } else {
          PlanStops(storage.blocks, master, after, order, i + 1);
          return Err(Corrupt);
        }
      }
      assert order[..|order|] == order;
      r := Ok(Plan(writes, already));
    }
  }

  // ------------------------------------------------------- what methods rely on

  lemma OneMore(blocks: Blocks, ws: seq<Write>, w: Write)
    ensures Perform(blocks, ws + [w]) == Perform(blocks, ws)[w.id := w.blob]
  {
    LastWrite(blocks, ws, w);
  }

  lemma BaseShape(blocks: Blocks, master: Master, stream: string)
    ensures var r := ReadRecord(blocks, master, stream, BaseKind, 0); r.Ok? ==> r.value.BaseRecord?
  {
  }

  lemma EventShape(blocks: Blocks, master: Master, stream: string, n: nat)
    ensures var r := ReadRecord(blocks, master, stream, EventKind, n); r.Ok? ==> r.value.EventRecord?
  {
  }

  lemma SnapshotShape(blocks: Blocks, master: Master, stream: string, n: nat)
    ensures var r := ReadRecord(blocks, master, stream, SnapshotKind, n); r.Ok? ==> r.value.SnapshotRecord?
  {
  }

  lemma LineShape(blocks: Blocks, master: Master, stream: string, n: nat)
    ensures var r := ReadRecord(blocks, master, stream, if n == 0 then BaseKind else EventKind, n);
            r.Ok? ==> if n == 0 then r.value.BaseRecord? else r.value.EventRecord?
  {
  }

  /** Checking the key changes no stream, and the store keeps its key. */
  lemma KeepsKey(blocks: Blocks, store: Instance, first: bool, stream: string)
    ensures var o := CheckKey(blocks, store, first);
            && o.store == store.(verified := o.store.verified)
            && (o.writes == [] || o.writes == [Write(CheckId, CheckBlob(store.master))])
            && (!first ==> o.writes == [])
            && EventSeqs(Perform(blocks, o.writes), stream) == EventSeqs(blocks, stream)
  {
    var o := CheckKey(blocks, store, first);
    if o.writes == [] { NoWrites(blocks); } else { SeqsSame(Env(map[], _ => true), blocks, o.writes, stream); }
  }

  lemma {:induction false} LinesStop(blocks: Blocks, master: Master, stream: string, since: Option<Time>,
                                     until: Option<Time>, n: nat, m: nat)
    requires n <= m && Lines(blocks, master, stream, since, until, n).Err?
    ensures Lines(blocks, master, stream, since, until, m) == Lines(blocks, master, stream, since, until, n)
    decreases m
  {
    if n < m { LinesStop(blocks, master, stream, since, until, n, m - 1); }
  }

  lemma {:induction false} PlanStops(blocks: Blocks, before: Master, after: Master, order: seq<BlockId>, n: nat)
    requires (forall id :: id in order ==> id in blocks && !id.CheckId?) && n <= |order|
    requires PlanFor(blocks, before, after, order[..n]).Err?
    ensures PlanFor(blocks, before, after, order) == PlanFor(blocks, before, after, order[..n])
    decreases |order|
  {
    hide OpenAt;
    if n == |order| {
      assert order[..n] == order;
    } else {
      var front := order[..|order| - 1];
      assert front[..n] == order[..n];
      PlanStops(blocks, before, after, front, n);
    }
  }
}
