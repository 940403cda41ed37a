/** The built-in codec in the store. */
module EventPathOps {
  // Appending a new state makes it the state that is read back.

  import opened EventCodec
  import opened EventLog
  import opened EventOps
  import opened EventRuns
  import opened MasterKeys
  import opened Outcomes

  /** `PathOpsCodec`, whatever order its diffs come in. */
  function PathOps(order: Order): Codec {
    Codec((a, b) => Payload(Diff(a, b, order)), p => Validated(p).Ok?,
          (s, p) => if EventCodec.Apply(s, p).Ok? then Some(EventCodec.Apply(s, p).value) else None)
  }

  /** A recorded difference replays to the new state, or is refused before
      anything is written. */
  lemma PathOpsExact(order: Order, before: Fields, after: Fields)
    ensures var c := PathOps(order);
            c.apply(before, c.diff(before, after)) == Some(after) || c.apply(before, c.diff(before, after)) == None
  {
    hide Diff, EventCodec.Apply, Recordable;
    DiffRoundTrip(before, after, order);
  }

  lemma NextIs(env: Env, logs: Logs, a: AppendArgs, r: Appended, next: Fields, order: Order)
    requires a.stream in logs && logs[a.stream].codec in env.codecs
             && env.codecs[logs[a.stream].codec] == PathOps(order)
    requires Appends(env, logs, a.stream, r, env.codecs[logs[a.stream].codec], next)
             && AsAsked(env, logs[a.stream], a, r)
    requires Given(a.state)
    ensures a.state.value.Obj? && next == a.state.value.fields
  {
    hide StateAfter, When, PathOps, Falsy;
    var log := logs[a.stream];
    PathOpsExact(order, StateAfter(PathOps(order), log, |log.events|).value, a.state.value.fields);
  }

  /** After a successful append of a whole new state by any store of any reachable
      world, the stream reads as that state. */
  lemma AppendedStateReadsBack(env: Env, blocks: Blocks, master: Master, logs: Logs, store: Instance, a: AppendArgs,
                               order: Order)
    requires Represents(env, blocks, master, logs) && Honest(env, logs, blocks, master, store)
    requires a.stream in logs && logs[a.stream].codec in env.codecs
             && env.codecs[logs[a.stream].codec] == PathOps(order)
    requires Given(a.state) && Append(env, blocks, store, a).result.Ok?
    ensures var o := Append(env, blocks, store, a);
            a.state.value.Obj? && Rebuild(env, Perform(blocks, o.writes), master, a.stream, None, None)
                                  == Ok(View(a.state.value.fields, o.result.value.seqNo, o.result.value.ts))
  {
    hide Represents, Honest, Append, StateAfter, Rebuild, Perform, PathOps, Appends, AsAsked, SoundLog, Holds, Given;
    var o := Append(env, blocks, store, a);
    var next := AppendCorrect(env, blocks, master, logs, store, a);
    NextIs(env, logs, a, o.result.value, next, order);
    var log := logs[a.stream];
    assert o.writes[..|o.writes|] == o.writes;
    GrownStream(logs, a.stream, o.result.value);
    OneStream(env, Perform(blocks, o.writes), master, Grown(logs, a.stream, o.result.value), a.stream);
    TailRebuilt(env, Perform(blocks, o.writes), master, a.stream, Extended(log, EntryOf(o.result.value)));
    LastView(env, logs, a.stream, o.result.value, next);
  }

  lemma LastView(env: Env, logs: Logs, stream: string, r: Appended, next: Fields)
    requires stream in logs && logs[stream].codec in env.codecs
    requires Appends(env, logs, stream, r, env.codecs[logs[stream].codec], next)
    requires SoundLog(env, Extended(logs[stream], EntryOf(r)))
    ensures ViewAt(env, Extended(logs[stream], EntryOf(r)), |logs[stream].events| + 1) == View(next, r.seqNo, r.ts)
  {
    ExtendedSound(env, logs[stream], EntryOf(r), next);
  }

  /** Which new states an append with this codec gets to write, when the stream is
      taken to end at `t`: those that differ from the state there in a way that can
      be recorded. */
  lemma PathOpsPasses(env: Env, t: Tail, a: AppendArgs, order: Order)
    requires t.codec in env.codecs && env.codecs[t.codec] == PathOps(order)
    requires Given(a.state) && !Given(a.payload) && a.state.value.Obj?
    ensures Passes(env, t, a)
            <==> ValidId(a.stream) && (a.expected.Some? ==> a.expected.value == t.last)
                 && (a.ts.Some? ==> t.ts <= a.ts.value <= a.now + MAX_CLOCK_SKEW)
                 && env.fits(a.state.value) && env.fits(Payload(Diff(t.state, a.state.value.fields, order)))
                 && a.state.value.fields != t.state && Recordable(t.state, a.state.value.fields, MAX_PATH_DEPTH)
  {
    hide Diff, EventCodec.Apply, Recordable, ValidId;
    var after := a.state.value.fields;
    var p := Payload(Diff(t.state, after, order));
    DiffEmptyIffEqual(t.state, after, order);
    DiffRoundTrip(t.state, after, order);
    AppliedIsValid(t.state, p);
    assert Falsy(p) <==> Diff(t.state, after, order) == [];
  }

  lemma AppliedIsValid(state: Fields, payload: Json)
    ensures EventCodec.Apply(state, payload).Ok? ==> Validated(payload).Ok?
  {
    hide ApplyOps, ReadOps;
  }

  // ------------------------------------------------------------ a stale store

  function OneCodec(order: Order): Env {
    Env(map["path-ops" := PathOps(order)], _ => true)
  }

  const TWO_STORES := World(map[], [Fresh(Master(0), 50), Fresh(Master(0), 50)])

  const BIRTH := CreateArgs("s", Obj(map[]), "path-ops", None, None, 0)

  function Ask(state: Fields, expected: Option<int>): AppendArgs {
    AppendArgs("s", Some(Obj(state)), None, None, None, expected, 0)
  }

  /** Stream "s" made by the first store and changed by the second. */
  function StaleWorld(order: Order): World {
    Run(OneCodec(order), TWO_STORES, [DoCreate(0, BIRTH), DoAppend(1, Ask(map["k" := Null], None))])
  }

  lemma SmallChange(before: Fields, after: Fields)
    requires before.Keys <= {"j", "k"} && after.Keys <= {"j", "k"}
    requires forall k :: (k in before ==> before[k] == Null) && (k in after ==> after[k] == Null)
    ensures Recordable(before, after, MAX_PATH_DEPTH)
  {
  }

  lemma AskPasses(order: Order, t: Tail, state: Fields, expected: Option<int>)
    requires t.codec == "path-ops" && t.state.Keys <= {"j", "k"} && state.Keys <= {"j", "k"}
    requires forall k :: (k in t.state ==> t.state[k] == Null) && (k in state ==> state[k] == Null)
    ensures Passes(OneCodec(order), t, Ask(state, expected)) <==> (expected.Some? ==> expected.value == t.last) && state != t.state
  {
    hide Passes, Recordable, Diff, PathOps;
    SmallChange(t.state, state);
    ShortId();
    PathOpsPasses(OneCodec(order), t, Ask(state, expected), order);
  }

  lemma ShortId()
    ensures ValidId("s")
  {
  }

  lemma StaleWorldReached(order: Order) returns (logs: Logs)
    ensures var env, r := OneCodec(order), StaleWorld(order);
            && |r.stores| == 2 && GoodWorld(env, r, Master(0), logs)
            && "s" in logs && SoundLog(env, logs["s"])
            && (exists ts :: LastTail(env, logs["s"]) == Tail("path-ops", 1, ts, map["k" := Null]))
            && Lookup(r.stores[0].tails, "s") == Some(Tail("path-ops", 0, 0, map[]))
  {
    hide Passes, GoodWorld, Run, Lookup, PathOps, SoundLog, NextFor, EntryFor, LastTail;
    var env, a := OneCodec(order), Ask(map["k" := Null], None);
    var t := FirstTailOf(BIRTH);
    ShortId();
    var changed: Fields := map["k" := Null];
    assert "k" in changed && changed != t.state;
    AskPasses(order, t, changed, None);
    logs := StaleReached(env, TWO_STORES, BIRTH, a);
    NextIsAsked(order, t, map["k" := Null], None);
    OneEvent(env, logs["s"]);
    assert LastTail(env, logs["s"]) == Tail("path-ops", 1, LastTail(env, logs["s"]).ts, map["k" := Null]);
  }

  lemma OneEvent(env: Env, log: Log)
    requires SoundLog(env, log)
    ensures LastTail(env, log).last == |log.events|
  {
    hide SoundLog;
  }

  lemma NextIsAsked(order: Order, t: Tail, state: Fields, expected: Option<int>)
    requires Passes(OneCodec(order), t, Ask(state, expected)) && t.codec == "path-ops"
    ensures NextFor(OneCodec(order), t, Ask(state, expected)) == state
  {
    hide ValidId, PathOps, Falsy;
    PathOpsExact(order, t.state, state);
  }

  /** What the stale store then does. Told the true last number, it refuses and stays
      stale. Asked for the state it remembers, it finds nothing to do and stays stale,
      though a new process would record the change. Asked for another state without
      a number, it refuses, forgets, and succeeds when asked again. */
  lemma StaleWitness(order: Order)
    ensures var env, r := OneCodec(order), StaleWorld(order);
            && |r.stores| == 2
            && var store, newer := r.stores[0], Fresh(Master(0), 50);
               var known, same, other := Ask(map["j" := Null], Some(1)), Ask(map[], None), Ask(map["j" := Null], None);
               && Append(env, r.blocks, store, known).result == Err(Concurrency)
               && Append(env, r.blocks, store, known).store.tails == store.tails
               && Append(env, r.blocks, newer, known).result.Ok?
               && Append(env, r.blocks, store, same).result.Err?
               && Append(env, r.blocks, store, same).store.tails == store.tails
               && Append(env, r.blocks, newer, same).result.Ok?
               && Append(env, r.blocks, store, other).result == Err(Concurrency)
               && Append(env, r.blocks, Append(env, r.blocks, store, other).store, other).result.Ok?
  {
    hide Passes, Represents, Honest, Append, Lookup, StaleWorld, PathOps, LastTail, SoundLog, CheckKey;
    var env, r := OneCodec(order), StaleWorld(order);
    var logs := StaleWorldReached(order);
    var ts :| LastTail(env, logs["s"]) == Tail("path-ops", 1, ts, map["k" := Null]);
    var last, t := LastTail(env, logs["s"]), Tail("path-ops", 0, 0, map[]);
    OneEvent(env, logs["s"]);
    var known, same, other := Ask(map["j" := Null], Some(1)), Ask(map[], None), Ask(map["j" := Null], None);
    assert "j" !in last.state && "k" in last.state;
    AskPasses(order, t, map["j" := Null], Some(1));
    AskPasses(order, t, map[], None);
    AskPasses(order, t, map["j" := Null], None);
    AskPasses(order, last, map["j" := Null], Some(1));
    AskPasses(order, last, map[], None);
    AskPasses(order, last, map["j" := Null], None);
    ShortId();
    StaleExpectationSticks(env, r.blocks, Master(0), logs, r.stores[0], known, t);
    StaleAppendRefused(env, r.blocks, Master(0), logs, r.stores[0], known, t);
    StaleAppendRefused(env, r.blocks, Master(0), logs, r.stores[0], same, t);
    StaleAppendRefused(env, r.blocks, Master(0), logs, r.stores[0], other, t);
    StaleRetry(env, r.blocks, Master(0), logs, r.stores[0], other, t);
    FreshSucceeds(env, r.blocks, Master(0), logs, known);
    FreshSucceeds(env, r.blocks, Master(0), logs, same);
  }

  lemma FreshSucceeds(env: Env, blocks: Blocks, master: Master, logs: Logs, a: AppendArgs)
    requires Represents(env, blocks, master, logs) && a.stream in logs && SoundLog(env, logs[a.stream])
    requires Passes(env, LastTail(env, logs[a.stream]), a)
    ensures Append(env, blocks, Fresh(master, 50), a).result.Ok?
  {
    hide Passes, Represents, Honest, Append, SoundLog, CheckKey, ViewAt;
    FreshHonest(env, logs, blocks, master, master, 50);
    FreshKey(env, blocks, master, logs, Fresh(master, 50));
    AppendSucceedsIff(env, blocks, master, logs, Fresh(master, 50), a);
  }
}
