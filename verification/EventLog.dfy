/** Event-sourced streams and their logs. */
module EventLog {
  // Sealed records, rebuilding a state from the log, and what a rebuild is worth
  // (mdc/src/mdc/events/store.py). Sealing (mdc/src/mdc/events/sealing.py) is an
  // ideal AEAD: a sealed record opens only under its own key, stream, kind and
  // sequence number.

  import opened EventCodec
  import opened KeySpace
  import opened MasterKeys
  import opened Outcomes

  type Time = int

  type Note = Option<string>

  /** A state codec; `apply` raises on a payload it cannot replay. */
  datatype Codec = Codec(diff: (Fields, Fields) -> Json, valid: Json -> bool, apply: (Fields, Json) -> Option<Fields>)

  /** The codecs a server has, and which values are plain JSON within the limit. */
  datatype Env = Env(codecs: map<string, Codec>, fits: Json -> bool)

  // ------------------------------------------------------------------ sealing

  datatype Kind = BaseKind | EventKind | SnapshotKind | CheckKind

  datatype Record =
    | BaseRecord(ts: Time, codec: string, note: Note, state: Fields)
    | EventRecord(ts: Time, note: Note, payload: Json)
    | SnapshotRecord(ts: Time, state: Fields)
    | CheckRecord

  function KindOf(r: Record): Kind {
    match r
    case BaseRecord(_, _, _, _) => BaseKind
    case EventRecord(_, _, _) => EventKind
    case SnapshotRecord(_, _) => SnapshotKind
    case CheckRecord => CheckKind
  }

  /** The key derived for one stream. */
  datatype StreamKey = StreamKey(master: Master, stream: string)

  datatype Blob = Sealed(key: StreamKey, stream: string, seqNo: nat, record: Record) | Noise(bits: nat)

  function Seal(master: Master, stream: string, seqNo: nat, record: Record): Blob {
    Sealed(StreamKey(master, stream), stream, seqNo, record)
  }

  /** `open_sealed`, with the stream's key. */
  function Open(master: Master, stream: string, kind: Kind, seqNo: nat, blob: Blob): Option<Record> {
    if blob.Sealed? && blob.key == StreamKey(master, stream) && blob.stream == stream
       && KindOf(blob.record) == kind && blob.seqNo == seqNo
    then Some(blob.record) else None
  }

  // ------------------------------------------------------------------ storage

  /** Block ids; their metadata is the stream and kind they name. */
  datatype BlockId = Evt(stream: string, seqNo: nat) | Snp(stream: string, seqNo: nat) | CheckId

  type Blocks = map<BlockId, Blob>

  const CHECK_STREAM := "__keycheck__"

  predicate PlainIdChar(c: char) {
    ('A' <= c <= 'Z') || ('a' <= c <= 'z') || ('0' <= c <= '9')
  }

  predicate PlainId(s: string) {
    1 <= |s| <= 64 && PlainIdChar(s[0])
    && forall i :: 1 <= i < |s| ==> PlainIdChar(s[i]) || s[i] == '_' || s[i] == '.' || s[i] == '-'
  }

  /** The stream id pattern; its `$` also accepts one newline at the end. */
  predicate ValidId(s: string) {
    PlainId(s) || (|s| > 0 && s[|s| - 1] == '\n' && PlainId(s[..|s| - 1]))
  }

  /** The key check's own stream name is no stream id, so it shares no key. */
  lemma CheckStreamReserved()
    ensures !ValidId(CHECK_STREAM)
  {
    assert CHECK_STREAM[0] == '_';
  }

  /** The id under which a record is stored. */
  function BlockKey(id: BlockId): string {
    match id
    case Evt(s, n) => EventKey(false, s, n)
    case Snp(s, n) => EventKey(true, s, n)
    case CheckId => CHECK_KEY
  }

  lemma StreamIdsHaveNoColon(s: string)
    requires ValidId(s)
    ensures NoColon(s)
  {
    forall i | 0 <= i < |s| ensures s[i] != ':' {
      if i < |s| - 1 { assert s[..|s| - 1][i] == s[i]; }
    }
  }

  /** Different records of valid streams have different ids in storage. */
  lemma BlockKeysDiffer(a: BlockId, b: BlockId)
    requires (!a.CheckId? ==> ValidId(a.stream)) && (!b.CheckId? ==> ValidId(b.stream)) && BlockKey(a) == BlockKey(b)
    ensures a == b
  {
    hide ValidId, EventKey, Location, IndexKey, ArchiveKey;
    if a.CheckId? || b.CheckId? {
      if !a.CheckId? { KeySpacesDisjoint(Unknown, "", "", "", a.Snp?, a.stream, a.seqNo); }
      if !b.CheckId? { KeySpacesDisjoint(Unknown, "", "", "", b.Snp?, b.stream, b.seqNo); }
    } else {
      StreamIdsHaveNoColon(a.stream);
      StreamIdsHaveNoColon(b.stream);
      EventKeysDiffer(a.Snp?, a.stream, a.seqNo, b.Snp?, b.stream, b.seqNo);
    }
  }

  function EventSeqs(blocks: Blocks, stream: string): set<nat> {
    set id | id in blocks && id.Evt? && id.stream == stream :: id.seqNo
  }

  /** The first number from `n` on that is not in the set. */
  function FirstGap(ns: set<nat>, n: nat): (g: nat)
    ensures g >= n && g !in ns
    ensures forall m :: n <= m < g ==> m in ns
    decreases ns
  {
    if n in ns then FirstGap(ns - {n}, n + 1) else n
  }

  datatype Error = NotFound | AlreadyExists | BadId | InvalidEvent | NotYet | Concurrency | Corrupt | WrongKey

  /** `_ordered_event_ids`: the last event number, if they run 0, 1, 2, ... */
  function LastSeq(blocks: Blocks, stream: string): Result<nat, Error> {
    var ns := EventSeqs(blocks, stream);
    var gap := FirstGap(ns, 0);
    if ns == {} then Err(NotFound)
    else if gap == 0 || exists n :: n in ns && n > gap then Err(Corrupt)
    else Ok(gap - 1)
  }

  /** `_open`. */
  function ReadRecord(blocks: Blocks, master: Master, stream: string, kind: Kind, seqNo: nat): (r: Result<Record,
                      Error>)
    requires kind != CheckKind
    ensures r.Ok? ==> KindOf(r.value) == kind
  {
    var id := if kind == SnapshotKind then Snp(stream, seqNo) else Evt(stream, seqNo);
    if id !in blocks then Err(Corrupt)
    else
      var r := Open(master, stream, kind, seqNo, blocks[id]);
      if r.None? then Err(Corrupt) else Ok(r.value)
  }

  // --------------------------------------------------------------- rebuilding

  datatype View = View(state: Fields, seqNo: nat, ts: Time)

  predicate Within(ts: Time, at: Option<Time>) {
    at.None? || ts <= at.value
  }

  /** The newest snapshot up to event `n` that is not too late, newest first;
      every one looked at has to authenticate. */
  function FromSnapshot(blocks: Blocks, master: Master, stream: string, at: Option<Time>, n: int,
                        base: View): Result<View, Error>
    decreases n
  {
    if n < 0 then Ok(base)
    else if Snp(stream, n) !in blocks then FromSnapshot(blocks, master, stream, at, n - 1, base)
    else
      var snap :- ReadRecord(blocks, master, stream, SnapshotKind, n);
      if Within(snap.ts, at) then Ok(View(snap.state, n, snap.ts))
      else FromSnapshot(blocks, master, stream, at, n - 1, base)
  }

  /** Replay from `view` to event `target`, stopping at the first event too late. */
  function Replay(codec: Codec, blocks: Blocks, master: Master, stream: string, at: Option<Time>, view: View,
                  target: nat): Result<View, Error>
    decreases target - view.seqNo
  {
    if view.seqNo >= target then Ok(view)
    else
      var n := view.seqNo + 1;
      var event :- ReadRecord(blocks, master, stream, EventKind, n);
      if !Within(event.ts, at) then Ok(view)
      else
        var next := codec.apply(view.state, event.payload);
        if next.None? then Err(InvalidEvent)
        else Replay(codec, blocks, master, stream, at, View(next.value, n, event.ts), target)
  }

  /** `_rebuild`. */
  function Rebuild(env: Env, blocks: Blocks, master: Master, stream: string, at: Option<Time>,
                   seqNo: Option<int>): Result<View, Error> {
    var last :- LastSeq(blocks, stream);
    if seqNo.Some? && !(0 <= seqNo.value <= last) then Err(InvalidEvent)
    else
      var target: nat := if seqNo.Some? then seqNo.value else last;
      var base :- ReadRecord(blocks, master, stream, BaseKind, 0);
      if !Within(base.ts, at) then Err(NotYet)
      else if base.codec !in env.codecs then Err(Corrupt)
      else
        var start :- FromSnapshot(blocks, master, stream, at, target, View(base.state, 0, base.ts));
        Replay(env.codecs[base.codec], blocks, master, stream, at, start, target)
  }

  // --------------------------------------------------------------------- logs

  datatype Entry = Entry(ts: Time, note: Note, payload: Json)

  /** What a stream means: the starting state and the changes since. */
  datatype Log = Log(codec: string, ts: Time, note: Note, state: Fields, events: seq<Entry>)

  function TimeOf(log: Log, n: nat): Time
    requires n <= |log.events|
  {
    if n == 0 then log.ts else log.events[n - 1].ts
  }

  /** The state after event `n`: the codec folded over the base and events 1..n. */
  function StateAfter(codec: Codec, log: Log, n: nat): Option<Fields>
    requires n <= |log.events|
  {
    if n == 0 then Some(log.state)
    else
      var s := StateAfter(codec, log, n - 1);
      if s.None? then None else codec.apply(s.value, log.events[n - 1].payload)
  }

  /** A log the store could have written: its codec known, every event
      replayable, times never decreasing. */
  ghost predicate SoundLog(env: Env, log: Log) {
    && log.codec in env.codecs
    && (forall n :: 0 <= n <= |log.events| ==> StateAfter(env.codecs[log.codec], log, n).Some?)
    && (forall m, n :: 0 <= m <= n <= |log.events| ==> TimeOf(log, m) <= TimeOf(log, n))
  }

  function ViewAt(env: Env, log: Log, n: nat): (v: View)
    requires n <= |log.events| && log.codec in env.codecs && StateAfter(env.codecs[log.codec], log, n).Some?
  {
    View(StateAfter(env.codecs[log.codec], log, n).value, n, TimeOf(log, n))
  }

  function RecordAt(log: Log, n: nat): Record
    requires n <= |log.events|
  {
    if n == 0 then BaseRecord(log.ts, log.codec, log.note, log.state)
    else EventRecord(log.events[n - 1].ts, log.events[n - 1].note, log.events[n - 1].payload)
  }

  function SnapshotAt(env: Env, log: Log, n: nat): Record
    requires n <= |log.events| && log.codec in env.codecs && StateAfter(env.codecs[log.codec], log, n).Some?
  {
    SnapshotRecord(TimeOf(log, n), StateAfter(env.codecs[log.codec], log, n).value)
  }

  /** Whatever opens under the stream's key was written for this log, in that
      place. This is all sealing promises about storage that may have been
      tampered with: blocks removed, moved, copied or overwritten. */
  ghost predicate Authentic(env: Env, blocks: Blocks, master: Master, stream: string, log: Log) {
    && SoundLog(env, log)
    && (forall n: nat :: Evt(stream, n) in blocks ==>
          && (var r := Open(master, stream, BaseKind, n, blocks[Evt(stream, n)]);
              r.Some? && n == 0 ==> r.value == RecordAt(log, 0))
          && (var r := Open(master, stream, EventKind, n, blocks[Evt(stream, n)]);
              r.Some? && n > 0 ==> n <= |log.events| && r.value == RecordAt(log, n)))
    && (forall n: nat :: Snp(stream, n) in blocks ==>
          var r := Open(master, stream, SnapshotKind, n, blocks[Snp(stream, n)]);
          r.Some? ==> n <= |log.events| && r.value == SnapshotAt(env, log, n))
  }

  ghost predicate RealPrefix(env: Env, log: Log, v: View) {
    v.seqNo <= |log.events| && log.codec in env.codecs && StateAfter(env.codecs[log.codec], log, v.seqNo).Some?
    && v == ViewAt(env, log, v.seqNo)
  }

  lemma {:induction false} SnapshotReal(env: Env, blocks: Blocks, master: Master, stream: string, log: Log,
                                        at: Option<Time>, n: int, base: View)
    requires Authentic(env, blocks, master, stream, log) && RealPrefix(env, log, base) && base.seqNo == 0
             && Within(base.ts, at)
    ensures var r := FromSnapshot(blocks, master, stream, at, n, base);
            r.Ok? ==> RealPrefix(env, log, r.value) && (r.value.seqNo <= n || r.value.seqNo == 0) && Within(r.value.ts, at)
    decreases n
  {
    hide StateAfter;
    if n >= 0 { SnapshotReal(env, blocks, master, stream, log, at, n - 1, base); }
  }

  lemma {:induction false} ReplayReal(env: Env, blocks: Blocks, master: Master, stream: string, log: Log,
                                      at: Option<Time>, v: View, target: nat)
    requires Authentic(env, blocks, master, stream, log) && RealPrefix(env, log, v)
    ensures var r := Replay(env.codecs[log.codec], blocks, master, stream, at, v, target);
            r.Ok? ==> RealPrefix(env, log, r.value) && v.seqNo <= r.value.seqNo
                      && (Within(v.ts, at) ==> Within(r.value.ts, at))
                      && (at.None? && v.seqNo <= target ==> r.value.seqNo == target)
                      && (v.seqNo <= target ==> r.value.seqNo <= target)
    decreases target - v.seqNo
  {
    if v.seqNo < target {
      var n := v.seqNo + 1;
      var event := ReadRecord(blocks, master, stream, EventKind, n);
      if event.Ok? && Within(event.value.ts, at) {
        EventReal(env, blocks, master, stream, log, n);
        var next := env.codecs[log.codec].apply(v.state, event.value.payload);
        if next.Some? { ReplayReal(env, blocks, master, stream, log, at, View(next.value, n, event.value.ts), target); }
      }
    }
  }

  lemma EventReal(env: Env, blocks: Blocks, master: Master, stream: string, log: Log, n: nat)
    requires Authentic(env, blocks, master, stream, log) && n > 0
             && ReadRecord(blocks, master, stream, EventKind, n).Ok?
    ensures n <= |log.events| && ReadRecord(blocks, master, stream, EventKind, n).value == RecordAt(log, n)
  {
    hide StateAfter, SoundLog, SnapshotAt;
  }

  /** Whatever was done to the storage, a rebuild raises or returns the replay of
      a real prefix of the stream: the one asked for by number, or one that ends
      no later than the time asked for. */
  lemma TamperedRebuild(env: Env, blocks: Blocks, master: Master, stream: string, log: Log, at: Option<Time>,
                        seqNo: Option<int>)
    requires Authentic(env, blocks, master, stream, log)
    ensures var r := Rebuild(env, blocks, master, stream, at, seqNo);
            r.Ok? ==> RealPrefix(env, log, r.value) && Within(r.value.ts, at)
                      && (seqNo.Some? && at.None? ==> r.value.seqNo == seqNo.value)
  {
    hide StateAfter, FromSnapshot, Replay, LastSeq;
    var last := LastSeq(blocks, stream);
    var base := ReadRecord(blocks, master, stream, BaseKind, 0);
    if last.Ok? && base.Ok? && !(seqNo.Some? && !(0 <= seqNo.value <= last.value)) && Within(base.value.ts, at) {
      var target: nat := if seqNo.Some? then seqNo.value else last.value;
      assert base.value == RecordAt(log, 0);
      var b := View(log.state, 0, log.ts);
      FirstState(env, log);
      assert RealPrefix(env, log, b);
      SnapshotReal(env, blocks, master, stream, log, at, target, b);
      var start := FromSnapshot(blocks, master, stream, at, target, b);
      if start.Ok? { ReplayReal(env, blocks, master, stream, log, at, start.value, target); }
    }
  }

  lemma FirstState(env: Env, log: Log)
    requires SoundLog(env, log)
    ensures StateAfter(env.codecs[log.codec], log, 0) == Some(log.state) && TimeOf(log, 0) == log.ts
  {
  }

  // ------------------------------------------------------ untouched storage

  /** The blocks of one stream are exactly its log: every event in its place,
      nothing beyond, and no snapshot that says anything else. */
  ghost predicate Holds(env: Env, blocks: Blocks, master: Master, stream: string, log: Log) {
    && SoundLog(env, log)
    && (forall n: nat :: Evt(stream, n) in blocks <==> n <= |log.events|)
    && (forall n :: 0 <= n <= |log.events| ==> blocks[Evt(stream, n)] == Seal(master, stream, n, RecordAt(log, n)))
    && (forall n: nat :: Snp(stream, n) in blocks ==>
          n <= |log.events| && blocks[Snp(stream, n)] == Seal(master, stream, n, SnapshotAt(env, log, n)))
  }

  lemma HoldsAuthentic(env: Env, blocks: Blocks, master: Master, stream: string, log: Log)
    requires Holds(env, blocks, master, stream, log)
    ensures Authentic(env, blocks, master, stream, log)
  {
    hide StateAfter, SoundLog;
  }

  lemma HoldsLast(env: Env, blocks: Blocks, master: Master, stream: string, log: Log)
    requires Holds(env, blocks, master, stream, log)
    ensures LastSeq(blocks, stream) == Ok(|log.events|)
  {
    hide SoundLog, StateAfter;
    var ns := EventSeqs(blocks, stream);
    forall n: nat ensures n in ns <==> n <= |log.events| {
      if n <= |log.events| { assert Evt(stream, n) in blocks; }
    }
    assert 0 in ns;
    var gap := FirstGap(ns, 0);
    var end: nat := |log.events| + 1;
    assert gap !in ns && end !in ns;
    assert end < gap ==> end in ns;
  }

  lemma {:induction false} SnapshotNeverFails(env: Env, blocks: Blocks, master: Master, stream: string, log: Log,
                                              at: Option<Time>, n: int, base: View)
    requires Holds(env, blocks, master, stream, log)
    ensures FromSnapshot(blocks, master, stream, at, n, base).Ok?
    decreases n
  {
    hide StateAfter, SoundLog;
    if n >= 0 { SnapshotNeverFails(env, blocks, master, stream, log, at, n - 1, base); }
  }

  /** How far the log reaches by time `at`. */
  ghost predicate LastBy(log: Log, at: Option<Time>, target: nat, n: nat) {
    n <= target <= |log.events| && Within(TimeOf(log, n), at) && (n < target ==> !Within(TimeOf(log, n + 1), at))
  }

  lemma {:induction false} ReplayReaches(env: Env, blocks: Blocks, master: Master, stream: string, log: Log,
                                         at: Option<Time>, v: View, target: nat)
    requires Holds(env, blocks, master, stream, log) && RealPrefix(env, log, v) && v.seqNo <= target <= |log.events|
    requires Within(v.ts, at)
    ensures var r := Replay(env.codecs[log.codec], blocks, master, stream, at, v, target);
            r.Ok? && RealPrefix(env, log, r.value) && LastBy(log, at, target, r.value.seqNo)
    decreases target - v.seqNo
  {
    if v.seqNo < target {
      var n := v.seqNo + 1;
      assert blocks[Evt(stream, n)] == Seal(master, stream, n, RecordAt(log, n));
      assert StateAfter(env.codecs[log.codec], log, n).Some?;
      var event := ReadRecord(blocks, master, stream, EventKind, n).value;
      if Within(event.ts, at) { ReplayReaches(env, blocks, master, stream, log, at, ViewAt(env, log, n), target); }
    }
  }

  /** `state_at`: after event n it is the codec folded over the base and events
      1..n; at time t, over exactly the events recorded no later than t. It
      never fails but for a number beyond the end or a time before the start. */
  lemma StateAtIsFold(env: Env, blocks: Blocks, master: Master, stream: string, log: Log, at: Option<Time>,
                      seqNo: Option<int>)
    requires Holds(env, blocks, master, stream, log)
    ensures var r := Rebuild(env, blocks, master, stream, at, seqNo);
            if seqNo.Some? && !(0 <= seqNo.value <= |log.events|) then r == Err(InvalidEvent)
            else if !Within(log.ts, at) then r == Err(NotYet)
            else
              var target: nat := if seqNo.Some? then seqNo.value else |log.events|;
              && r.Ok? && RealPrefix(env, log, r.value)
              && r.value.seqNo <= target
              && forall n :: 0 <= n <= target ==> (n <= r.value.seqNo <==> Within(TimeOf(log, n), at))
  {
    hide FromSnapshot, Replay, LastSeq, StateAfter;
    HoldsLast(env, blocks, master, stream, log);
    HoldsAuthentic(env, blocks, master, stream, log);
    assert ReadRecord(blocks, master, stream, BaseKind, 0) == Ok(RecordAt(log, 0)) by {
      assert blocks[Evt(stream, 0)] == Seal(master, stream, 0, RecordAt(log, 0));
    }
    if (seqNo.Some? ==> 0 <= seqNo.value <= |log.events|) && Within(log.ts, at) {
      var target: nat := if seqNo.Some? then seqNo.value else |log.events|;
      var base := View(log.state, 0, log.ts);
      FirstState(env, log);
      SnapshotReal(env, blocks, master, stream, log, at, target, base);
      SnapshotNeverFails(env, blocks, master, stream, log, at, target, base);
      var start := FromSnapshot(blocks, master, stream, at, target, base).value;
      ReplayReaches(env, blocks, master, stream, log, at, start, target);
      var r := Replay(env.codecs[log.codec], blocks, master, stream, at, start, target).value;
      forall n | 0 <= n <= target ensures n <= r.seqNo <==> Within(TimeOf(log, n), at) {
        if n > r.seqNo { assert TimeOf(log, r.seqNo + 1) <= TimeOf(log, n); } else { assert TimeOf(log, n) <= TimeOf(log, r.seqNo); }
      }
    }
  }
}
