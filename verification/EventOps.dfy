/** Creating and appending. */
module EventOps {
  // The calls of mdc/src/mdc/events/store.py:181-235 and their helpers (392-446),
  // by any number of stores over one storage, each with its own cache of stream
  // tails; crashes may cut a call off between its writes.

  import opened EventCodec
  import opened EventLog
  import opened MasterKeys
  import opened Outcomes

  const CACHE_SIZE := 256
  const MAX_CLOCK_SKEW: Time := 300_000_000  // five minutes, in microseconds

  /** What a store remembers of a stream: codec, last event, its time, state. */
  datatype Tail = Tail(codec: string, last: nat, ts: Time, state: Fields)

  datatype Cached = Cached(stream: string, tail: Tail)

  /** One `EventStore`: its key, its snapshot interval, whether the key was
      checked, and the tails, least recently written first. */
  datatype Instance = Instance(master: Master, every: nat, verified: bool, tails: seq<Cached>)

  function Fresh(master: Master, every: nat): Instance {
    Instance(master, every, false, [])
  }

  // -------------------------------------------------------------------- cache

  function Lookup(tails: seq<Cached>, stream: string): (t: Option<Tail>)
    ensures t.Some? ==> Cached(stream, t.value) in tails
    ensures t.None? ==> forall c :: c in tails ==> c.stream != stream
  {
    if |tails| == 0 then None
    else if tails[|tails| - 1].stream == stream then Some(tails[|tails| - 1].tail)
    else Lookup(tails[..|tails| - 1], stream)
  }

  function Without(tails: seq<Cached>, stream: string): (r: seq<Cached>)
    ensures forall c :: c in r <==> c in tails && c.stream != stream
    ensures |r| <= |tails|
  {
    if |tails| == 0 then []
    else
      var r := Without(tails[..|tails| - 1], stream);
      if tails[|tails| - 1].stream == stream then r else r + [tails[|tails| - 1]]
  }

  /** `_remember`: newest last, and only the newest 256. */
  function Remember(tails: seq<Cached>, stream: string, t: Tail): (r: seq<Cached>)
    ensures forall c :: c in r ==> c == Cached(stream, t) || (c in tails && c.stream != stream)
    ensures |r| <= CACHE_SIZE
  {
    var all := Without(tails, stream) + [Cached(stream, t)];
    if |all| > CACHE_SIZE then all[|all| - CACHE_SIZE..] else all
  }

  lemma RememberedFound(tails: seq<Cached>, stream: string, t: Tail)
    ensures Lookup(Remember(tails, stream, t), stream) == Some(t)
  {
  }

  // ------------------------------------------------------------------ writing

  datatype Write = Write(id: BlockId, blob: Blob)

  function Perform(blocks: Blocks, ws: seq<Write>): Blocks
  {
    if |ws| == 0 then blocks else Perform(blocks, ws[..|ws| - 1])[ws[|ws| - 1].id := ws[|ws| - 1].blob]
  }

  /** What a call returns, the store after it, and its writes in order. */
  datatype Outcome<+T> = Outcome(result: Result<T, Error>, store: Instance, writes: seq<Write>)

  function Refuse<T>(e: Error, store: Instance, writes: seq<Write>): Outcome<T> {
    Outcome(Err(e), store, writes)
  }

  function HasStreams(blocks: Blocks): bool {
    exists id :: id in blocks && id.Evt?
  }

  function CheckBlob(master: Master): Blob {
    Seal(master, CHECK_STREAM, 0, CheckRecord)
  }

  /** `_check_key`. */
  function CheckKey(blocks: Blocks, store: Instance, firstStream: bool): Outcome<()> {
    if store.verified then Outcome(Ok(()), store, [])
    else if CheckId in blocks then
      if Open(store.master, CHECK_STREAM, CheckKind, 0, blocks[CheckId]).None? then Refuse(WrongKey, store, [])
      else Outcome(Ok(()), store.(verified := true), [])
    else if firstStream && !HasStreams(blocks) then
      Outcome(Ok(()), store.(verified := true), [Write(CheckId, CheckBlob(store.master))])
    else Outcome(Ok(()), store, [])
  }

  /** `_when`: refuses a requested time in the future or before the floor, and keeps any
      other; with none requested it takes the clock's, put off to the floor. */
  function When(requested: Option<Time>, now: Time, floor: Option<Time>): (r: Result<Time, Error>)
    ensures r.Err? <==> requested.Some? && (requested.value > now + MAX_CLOCK_SKEW
                                            || (floor.Some? && requested.value < floor.value))
    ensures r.Err? ==> r.error == InvalidEvent
    ensures r.Ok? && requested.Some? ==> r.value == requested.value
    ensures r.Ok? && requested.None? ==> r.value >= now && (r.value == now || floor == Some(r.value))
    ensures r.Ok? && floor.Some? ==> r.value >= floor.value
  {
    var when := if requested.Some? then requested.value else now;
    if requested.Some? && when > now + MAX_CLOCK_SKEW then Err(InvalidEvent)
    else if floor.Some? && requested.Some? && when < floor.value then Err(InvalidEvent)
    else if floor.Some? && when < floor.value then Ok(floor.value)
    else Ok(when)
  }

  datatype CreateArgs = CreateArgs(stream: string, state: Json, codec: string, note: Note, ts: Option<Time>, now: Time)

  /** `create_stream`. */
  function Create(env: Env, blocks: Blocks, store: Instance, a: CreateArgs): Outcome<View> {
    if !ValidId(a.stream) then Refuse(BadId, store, [])
    else if a.codec !in env.codecs || !env.fits(a.state) || !a.state.Obj? then Refuse(InvalidEvent, store, [])
    else
      var key := CheckKey(blocks, store, true);
      if key.result.Err? then Refuse(key.result.error, key.store, key.writes)
      else if EventSeqs(blocks, a.stream) != {} then Refuse(AlreadyExists, key.store, key.writes)
      else
        var when := When(a.ts, a.now, None);
        if when.Err? then Refuse(when.error, key.store, key.writes)
        else
          var state := a.state.fields;
          var blob := Seal(store.master, a.stream, 0, BaseRecord(when.value, a.codec, a.note, state));
          var tails := Remember(key.store.tails, a.stream, Tail(a.codec, 0, when.value, state));
          Outcome(Ok(View(state, 0, when.value)), key.store.(tails := tails), key.writes
            + [Write(Evt(a.stream, 0), blob)])
  }

  /** `_tail`: the cached tail, or a rebuilt one, which is then cached. */
  function FindTail(env: Env, blocks: Blocks, store: Instance, stream: string): (r: (Result<Tail, Error>, Instance))
    ensures r.1.master == store.master && r.1.every == store.every && r.1.verified == store.verified
    ensures r.0.Ok? ==> Lookup(r.1.tails, stream) == Some(r.0.value)
    ensures r.0.Err? ==> r.1 == store
  {
    var cached := Lookup(store.tails, stream);
    if cached.Some? then (Ok(cached.value), store)
    else
      var view := Rebuild(env, blocks, store.master, stream, None, None);
      if view.Err? then (Err(view.error), store)
      else
        var base := ReadRecord(blocks, store.master, stream, BaseKind, 0);
        if base.Err? then (Err(base.error), store)
        else
          var t := Tail(base.value.codec, view.value.seqNo, view.value.ts, view.value.state);
          RememberedFound(store.tails, stream, t);
          (Ok(t), store.(tails := Remember(store.tails, stream, t)))
  }

  datatype AppendArgs = AppendArgs(stream: string, state: Option<Json>, payload: Option<Json>, note: Note,
                                   ts: Option<Time>, expected: Option<int>, now: Time)

  /** A JSON null is Python's None, which means "not given". */
  predicate Given(j: Option<Json>) {
    j.Some? && j.value != Null
  }

  predicate ZeroDigits(text: string) {
    |text| == 0 || text[0] == 'e' || text[0] == 'E' || (!('1' <= text[0] <= '9') && ZeroDigits(text[1..]))
  }

  /** What Python takes for false. */
  predicate Falsy(j: Json) {
    match j
    case Null => true
    case Bool(b) => !b
    case Number(text) => ZeroDigits(text)
    case String(s) => |s| == 0
    case List(items) => |items| == 0
    case Obj(fields) => |fields| == 0
  }

  /** The payload to record: the one given, or the difference to the new state. */
  function PayloadFor(env: Env, codec: Codec, current: Fields, a: AppendArgs): Result<Json, Error> {
    if Given(a.state) then
      if !env.fits(a.state.value) || !a.state.value.Obj? then Err(InvalidEvent)
      else
        var p := codec.diff(current, a.state.value.fields);
        if Falsy(p) then Err(InvalidEvent) else Ok(p)
    else if a.payload.Some? then Ok(a.payload.value)
    else Err(InvalidEvent)
  }

  datatype Appended = Appended(seqNo: nat, ts: Time, note: Note, payload: Json)

  /** The last part of `append`: the event block, the snapshot when one is due,
      the new tail. An occupied block drops the tail. */
  function Put(blocks: Blocks, store: Instance, stream: string, t: Tail, e: Entry, next: Fields): Outcome<Appended> {
    var n := t.last + 1;
    var event := Write(Evt(stream, n), Seal(store.master, stream, n, EventRecord(e.ts, e.note, e.payload)));
    var snap := Write(Snp(stream, n), Seal(store.master, stream, n, SnapshotRecord(e.ts, next)));
    var due := store.every > 0 && n % store.every == 0;
    var dropped := store.(tails := Without(store.tails, stream));
    if event.id in blocks then Refuse(Concurrency, dropped, [])
    else if due && snap.id in blocks then Refuse(Concurrency, dropped, [event])
    else
      Outcome(Ok(Appended(n, e.ts, e.note, e.payload)),
              store.(tails := Remember(store.tails, stream, Tail(t.codec, n, e.ts, next))),
              if due then [event, snap] else [event])
  }

  /** `append`. */
  function Append(env: Env, blocks: Blocks, store: Instance, a: AppendArgs): Outcome<Appended> {
    if !ValidId(a.stream) then Refuse(BadId, store, [])
    else if Given(a.state) == Given(a.payload) then Refuse(InvalidEvent, store, [])
    else
      var key := CheckKey(blocks, store, false);
      if key.result.Err? then Refuse(key.result.error, key.store, [])
      else
        var (tail, s) := FindTail(env, blocks, key.store, a.stream);
        if tail.Err? then Refuse(tail.error, s, [])
        else if a.expected.Some? && a.expected.value != tail.value.last then Refuse(Concurrency, s, [])
        else if tail.value.codec !in env.codecs then Refuse(Corrupt, s, [])
        else
          var t, codec := tail.value, env.codecs[tail.value.codec];
          var p := PayloadFor(env, codec, t.state, a);
          if p.Err? then Refuse(p.error, s, [])
          else if !env.fits(p.value) || !codec.valid(p.value) then Refuse(InvalidEvent, s, [])
          else
            var next := codec.apply(t.state, p.value);
            if next.None? then Refuse(InvalidEvent, s, [])
            else
              var when := When(a.ts, a.now, Some(t.ts));
              if when.Err? then Refuse(when.error, s, [])
              else Put(blocks, s, a.stream, t, Entry(when.value, a.note, p.value), next.value)
  }

  // --------------------------------------------------------------- invariants

  type Logs = map<string, Log>

  /** The storage holds exactly these streams, all under one key, and the key
      check is there as soon as there is anything. */
  ghost predicate Represents(env: Env, blocks: Blocks, master: Master, logs: Logs) {
    && (forall s :: s in logs ==> Holds(env, blocks, master, s, logs[s]))
    && (forall s, n: nat :: Evt(s, n) in blocks ==> s in logs)
    && (forall s, n: nat :: Snp(s, n) in blocks ==> s in logs)
    && (if CheckId in blocks then blocks[CheckId] == CheckBlob(master) else blocks == map[])
  }

  /** A remembered tail may be old, but it was true: it is the end of an earlier
      prefix of the stream. */
  ghost predicate TrueTail(env: Env, logs: Logs, stream: string, t: Tail) {
    && stream in logs && SoundLog(env, logs[stream]) && t.last <= |logs[stream].events|
    && t.codec == logs[stream].codec
    && View(t.state, t.last, t.ts) == ViewAt(env, logs[stream], t.last)
  }

  ghost predicate Honest(env: Env, logs: Logs, blocks: Blocks, master: Master, store: Instance) {
    && (store.verified || store.tails != [] ==> store.master == master && CheckId in blocks)
    && forall c :: c in store.tails ==> TrueTail(env, logs, c.stream, c.tail)
  }

  lemma TrueTailHeld(env: Env, logs: Logs, stream: string, t: Tail)
    requires TrueTail(env, logs, stream, t)
    ensures t.codec in env.codecs
    ensures StateAfter(env.codecs[logs[stream].codec], logs[stream], t.last) == Some(t.state)
            && t.ts == TimeOf(logs[stream], t.last)
  {
  }

  // -------------------------------------------------- a log that grows by one

  function Extended(log: Log, e: Entry): Log {
    log.(events := log.events + [e])
  }

  lemma {:induction false} ExtendedState(codec: Codec, log: Log, e: Entry, n: nat)
    requires n <= |log.events|
    ensures StateAfter(codec, Extended(log, e), n) == StateAfter(codec, log, n)
            && TimeOf(Extended(log, e), n) == TimeOf(log, n)
    decreases n
  {
    if n > 0 { ExtendedState(codec, log, e, n - 1); }
  }

  lemma ExtendedSound(env: Env, log: Log, e: Entry, next: Fields)
    requires SoundLog(env, log) && e.ts >= TimeOf(log, |log.events|)
    requires env.codecs[log.codec].apply(StateAfter(env.codecs[log.codec], log, |log.events|).value,
             e.payload) == Some(next)
    ensures SoundLog(env, Extended(log, e))
    ensures StateAfter(env.codecs[log.codec], Extended(log, e), |log.events| + 1) == Some(next)
  {
    var codec, big, m := env.codecs[log.codec], Extended(log, e), |log.events|;
    forall n | 0 <= n <= m
      ensures StateAfter(codec, big, n) == StateAfter(codec, log, n) && TimeOf(big, n) == TimeOf(log, n)
    {
      ExtendedState(codec, log, e, n);
    }
    assert StateAfter(codec, big, m + 1) == Some(next);
  }

  lemma ExtendedView(env: Env, log: Log, e: Entry, n: nat)
    requires SoundLog(env, log) && SoundLog(env, Extended(log, e)) && n <= |log.events|
    ensures ViewAt(env, Extended(log, e), n) == ViewAt(env, log, n)
    ensures SnapshotAt(env, Extended(log, e), n) == SnapshotAt(env, log, n)
    ensures RecordAt(Extended(log, e), n) == RecordAt(log, n)
  {
    ExtendedState(env.codecs[log.codec], log, e, n);
  }

  lemma TailSurvives(env: Env, logs: Logs, stream: string, t: Tail, s: string, e: Entry)
    requires TrueTail(env, logs, stream, t) && s in logs && SoundLog(env, Extended(logs[s], e))
    ensures TrueTail(env, logs[s := Extended(logs[s], e)], stream, t)
  {
    hide StateAfter, SoundLog;
    if stream == s { ExtendedView(env, logs[s], e, t.last); }
  }

  /** One more event, with or without its snapshot: a crash between the two
      writes leaves a storage that is just as good. */
  lemma EventHolds(env: Env, blocks: Blocks, master: Master, stream: string, log: Log, e: Entry, next: Fields,
                   withSnap: bool)
    requires Holds(env, blocks, master, stream, log) && e.ts >= TimeOf(log, |log.events|)
    requires env.codecs[log.codec].apply(StateAfter(env.codecs[log.codec], log, |log.events|).value,
             e.payload) == Some(next)
    ensures var n := |log.events| + 1;
            var b := blocks[Evt(stream, n) := Seal(master, stream, n, EventRecord(e.ts, e.note, e.payload))];
            Holds(env, if withSnap then b[Snp(stream, n) := Seal(master, stream, n, SnapshotRecord(e.ts, next))] else b,
                  master, stream, Extended(log, e))
  {
    hide StateAfter;
    ExtendedSound(env, log, e, next);
    hide SoundLog;
    var big, n := Extended(log, e), |log.events| + 1;
    forall k: nat | k <= |log.events|
      ensures RecordAt(big, k) == RecordAt(log, k) && SnapshotAt(env, big, k) == SnapshotAt(env, log, k)
    {
      ExtendedView(env, log, e, k);
    }
    assert RecordAt(big, n) == EventRecord(e.ts, e.note, e.payload);
    assert SnapshotAt(env, big, n) == SnapshotRecord(e.ts, next);
  }

  lemma OtherHolds(env: Env, blocks: Blocks, master: Master, stream: string, log: Log, id: BlockId, blob: Blob)
    requires Holds(env, blocks, master, stream, log) && (id == CheckId || id.stream != stream)
    ensures Holds(env, blocks[id := blob], master, stream, log)
  {
    hide StateAfter, SoundLog, RecordAt, SnapshotAt;
  }
}
