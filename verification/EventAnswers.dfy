/** What the two writing calls answer. */
module EventAnswers {
  // On a storage that represents logs, the answer of every call and every refusal,
  // told from the logs, the arguments and what the store remembers.

  import opened EventCodec
  import opened EventLog
  import opened EventOps
  import opened EventRuns
  import opened MasterKeys
  import opened Outcomes

  /** `_check_key` refuses exactly a store whose key is not the storage's. */
  lemma KeyAnswer(env: Env, blocks: Blocks, master: Master, logs: Logs, store: Instance, first: bool)
    requires Represents(env, blocks, master, logs) && Honest(env, logs, blocks, master, store)
    ensures CheckKey(blocks, store, first).result
            == if blocks != map[] && store.master != master then Err(WrongKey) else Ok(())
  {
    hide Holds, TrueTail;
  }

  // ----------------------------------------------------------------- appending

  /** What `append` answers: bad arguments first, then the key, the stream, the
      expected number, the change, and last a tail that is not the end. */
  ghost function AppendAnswer(env: Env, blocks: Blocks, master: Master, logs: Logs, store: Instance, a: AppendArgs):
    Result<Appended, Error>
    requires forall s :: s in logs ==> SoundLog(env, logs[s])
  {
    if !ValidId(a.stream) then Err(BadId)
    else if Given(a.state) == Given(a.payload) then Err(InvalidEvent)
    else if blocks != map[] && store.master != master then Err(WrongKey)
    else if a.stream !in logs then Err(NotFound)
    else
      var log := logs[a.stream];
      var t := TailUsed(env, store, a.stream, log);
      if a.expected.Some? && a.expected.value != t.last then Err(Concurrency)
      else if !Passes(env, t, a) then Err(InvalidEvent)
      else if t.last < |log.events| then Err(Concurrency)
      else
        var e := EntryFor(env, t, a);
        Ok(Appended(|log.events| + 1, e.ts, e.note, e.payload))
  }

  lemma AppendAnswers(env: Env, blocks: Blocks, master: Master, logs: Logs, store: Instance, a: AppendArgs)
    requires Represents(env, blocks, master, logs) && Honest(env, logs, blocks, master, store)
    ensures forall s :: s in logs ==> SoundLog(env, logs[s])
    ensures Append(env, blocks, store, a).result == AppendAnswer(env, blocks, master, logs, store, a)
  {
    hide StateAfter, SoundLog, Represents, Rebuild, Holds, Honest, FindTail, Put, Passes, Lookup, TailUsed, EntryFor,
         NextFor, CheckKey, ValidId, Given, PayloadFor, When;
    AllSound(env, blocks, master, logs);
    KeyAnswer(env, blocks, master, logs, store, false);
    if ValidId(a.stream) && Given(a.state) != Given(a.payload) && CheckKey(blocks, store, false).result.Ok? {
      if a.stream in logs {
        TailFound(env, blocks, master, logs, store, a.stream);
        AnswerFrom(env, blocks, master, logs, store, a);
      } else {
        CheckedKeyMaster(env, blocks, master, logs, store);
        TailIsTrue(env, blocks, master, logs, CheckKey(blocks, store, false).store, a.stream);
      }
    }
  }

  lemma AnswerFrom(env: Env, blocks: Blocks, master: Master, logs: Logs, store: Instance, a: AppendArgs)
    requires Represents(env, blocks, master, logs) && Honest(env, logs, blocks, master, store)
    requires ValidId(a.stream) && Given(a.state) != Given(a.payload)
    requires a.stream in logs && SoundLog(env, logs[a.stream])
    requires CheckKey(blocks, store, false).result.Ok?
    ensures var log := logs[a.stream];
            var t, r := TailUsed(env, store, a.stream, log), Append(env, blocks, store, a).result;
            && (a.expected.Some? && a.expected.value != t.last ==> r == Err(Concurrency) && !Passes(env, t, a))
            && (!(a.expected.Some? && a.expected.value != t.last) && !Passes(env, t, a) ==> r == Err(InvalidEvent))
            && (Passes(env, t, a) ==>
                  var e := EntryFor(env, t, a);
                  && t.last <= |log.events|
                  && r == if t.last < |log.events| then Err(Concurrency)
                          else Ok(Appended(t.last + 1, e.ts, e.note, e.payload)))
  {
    hide StateAfter, SoundLog, Represents, Rebuild, Holds, Honest, FindTail, Lookup, TailUsed, NextFor, CheckKey,
         ValidId, Given;
    TailFound(env, blocks, master, logs, store, a.stream);
    var t := TailUsed(env, store, a.stream, logs[a.stream]);
    PassesOrRefuses(env, blocks, store, a, t);
    if Passes(env, t, a) {
      EntryGood(env, t, a);
      var s := FindTail(env, blocks, CheckKey(blocks, store, false).store, a.stream).1;
      PutCorrect(env, blocks, master, logs, s, a.stream, t, EntryFor(env, t, a), NextFor(env, t, a));
    } else {
      TrueTailHeld(env, logs, a.stream, t);
      RefusedAs(env, blocks, store, a, t);
    }
  }

  /** A call that does not pass at its tail: why it is refused. */
  lemma RefusedAs(env: Env, blocks: Blocks, store: Instance, a: AppendArgs, t: Tail)
    requires CheckKey(blocks, store, false).result.Ok? && ValidId(a.stream) && Given(a.state) != Given(a.payload)
    requires FindTail(env, blocks, CheckKey(blocks, store, false).store, a.stream).0 == Ok(t)
    requires t.codec in env.codecs && !Passes(env, t, a)
    ensures Append(env, blocks, store, a).result
            == Err(if a.expected.Some? && a.expected.value != t.last then Concurrency else InvalidEvent)
  {
    hide ValidId, CheckKey, FindTail, Put, Falsy;
  }

  /** What a successful append writes and remembers: its event, and a snapshot after
      every `every`-th; the end of the longer log. */
  lemma AppendWrites(env: Env, blocks: Blocks, master: Master, logs: Logs, store: Instance, a: AppendArgs)
    requires Represents(env, blocks, master, logs) && Honest(env, logs, blocks, master, store)
    requires Append(env, blocks, store, a).result.Ok?
    ensures var o := Append(env, blocks, store, a);
            var n := o.result.value.seqNo;
            && |o.writes| == (if store.every > 0 && n % store.every == 0 then 2 else 1)
            && o.writes[0].id == Evt(a.stream, n) && (|o.writes| == 2 ==> o.writes[1].id == Snp(a.stream, n))
            && a.stream in logs && var log := Extended(logs[a.stream], EntryOf(o.result.value));
               SoundLog(env, log) && Lookup(o.store.tails, a.stream) == Some(LastTail(env, log))
  {
    hide StateAfter, SoundLog, Represents, Rebuild, Holds, Honest, FindTail, Put, Passes, Lookup, TailUsed, EntryFor,
         NextFor, CheckKey, ValidId, Given, PayloadFor, When, AppendWritten, Remember;
    AppendAnswers(env, blocks, master, logs, store, a);
    hide Append, LastTail;
    TailFound(env, blocks, master, logs, store, a.stream);
    var t := TailUsed(env, store, a.stream, logs[a.stream]);
    var s := FindTail(env, blocks, CheckKey(blocks, store, false).store, a.stream).1;
    PassesOrRefuses(env, blocks, store, a, t);
    EntryGood(env, t, a);
    TrueTailHeld(env, logs, a.stream, t);
    SlotFree(env, blocks, master, logs, a.stream, t.last + 1);
    PutWrites(blocks, s, a.stream, t, EntryFor(env, t, a), NextFor(env, t, a));
    ExtendedTail(env, logs, a.stream, t, EntryFor(env, t, a), NextFor(env, t, a));
    SameEvery(env, blocks, store, a.stream);
  }

  lemma SameEvery(env: Env, blocks: Blocks, store: Instance, stream: string)
    ensures FindTail(env, blocks, CheckKey(blocks, store, false).store, stream).1.every == store.every
  {
    hide FindTail;
  }

  lemma PutWrites(blocks: Blocks, s: Instance, stream: string, t: Tail, e: Entry, next: Fields)
    requires Evt(stream, t.last + 1) !in blocks && Snp(stream, t.last + 1) !in blocks
    ensures var o := Put(blocks, s, stream, t, e, next);
            && o.result.Ok? && EntryOf(o.result.value) == e
            && |o.writes| == (if s.every > 0 && (t.last + 1) % s.every == 0 then 2 else 1)
            && o.writes[0].id == Evt(stream, t.last + 1)
            && (|o.writes| == 2 ==> o.writes[1].id == Snp(stream, t.last + 1))
            && Lookup(o.store.tails, stream) == Some(Tail(t.codec, t.last + 1, e.ts, next))
  {
    hide Remember, Lookup;
    RememberedFound(s.tails, stream, Tail(t.codec, t.last + 1, e.ts, next));
  }

  lemma ExtendedTail(env: Env, logs: Logs, stream: string, t: Tail, e: Entry, next: Fields)
    requires TrueTail(env, logs, stream, t) && t.last == |logs[stream].events| && e.ts >= t.ts
    requires env.codecs[t.codec].apply(t.state, e.payload) == Some(next)
    ensures SoundLog(env, Extended(logs[stream], e))
    ensures LastTail(env, Extended(logs[stream], e)) == Tail(t.codec, t.last + 1, e.ts, next)
  {
    TrueTailHeld(env, logs, stream, t);
    ExtendedSound(env, logs[stream], e, next);
  }

  // ------------------------------------------------------------------ creating

  /** What `create_stream` answers. */
  ghost function CreateAnswer(env: Env, blocks: Blocks, master: Master, logs: Logs, store: Instance, a: CreateArgs):
    Result<View, Error>
  {
    if !ValidId(a.stream) then Err(BadId)
    else if a.codec !in env.codecs || !env.fits(a.state) || !a.state.Obj? then Err(InvalidEvent)
    else if blocks != map[] && store.master != master then Err(WrongKey)
    else if a.stream in logs then Err(AlreadyExists)
    else if a.ts.Some? && a.ts.value > a.now + MAX_CLOCK_SKEW then Err(InvalidEvent)
    else Ok(View(a.state.fields, 0, if a.ts.Some? then a.ts.value else a.now))
  }

  /** A stream that exists, another key or a bad argument refuses a create, and nothing
      else does; the time recorded is the one asked for. */
  lemma CreateAnswers(env: Env, blocks: Blocks, master: Master, logs: Logs, store: Instance, a: CreateArgs)
    requires Represents(env, blocks, master, logs) && Honest(env, logs, blocks, master, store)
    ensures var o := Create(env, blocks, store, a);
            && o.result == CreateAnswer(env, blocks, master, logs, store, a)
            && (o.result.Ok? ==>
                  && |o.writes| == (if blocks == map[] then 2 else 1)
                  && o.writes[|o.writes| - 1].id == Evt(a.stream, 0) && (|o.writes| == 2 ==> o.writes[0].id == CheckId)
                  && Lookup(o.store.tails, a.stream)
                     == Some(Tail(a.codec, 0, o.result.value.ts, a.state.fields)))
  {
    hide StateAfter, SoundLog, Holds, Honest, ValidId, Remember, EventSeqs, Lookup;
    KeyAnswer(env, blocks, master, logs, store, true);
    if a.stream in logs {
      KnownStream(env, blocks, master, logs, a.stream);
    } else {
      UnknownStream(env, blocks, master, logs, a.stream);
    }
    var o := Create(env, blocks, store, a);
    var key := CheckKey(blocks, store, true);
    if key.result.Ok? { FirstWrites(env, blocks, master, logs, store); }
    if o.result.Ok? {
      RememberedFound(key.store.tails, a.stream, Tail(a.codec, 0, o.result.value.ts, a.state.fields));
    }
  }

  lemma FirstWrites(env: Env, blocks: Blocks, master: Master, logs: Logs, store: Instance)
    requires Represents(env, blocks, master, logs) && Honest(env, logs, blocks, master, store)
    requires CheckKey(blocks, store, true).result.Ok?
    ensures var ws := CheckKey(blocks, store, true).writes;
            if blocks == map[] then |ws| == 1 && ws[0].id == CheckId else ws == []
  {
    hide Holds, TrueTail;
  }
}
