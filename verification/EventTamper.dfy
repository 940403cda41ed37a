/** Storage tampered with after any run, without the key. */
module EventTamper {
  // Such a storage never yields a state that the stream did not have.

  import opened EventLog
  import opened EventOps
  import opened EventRuns
  import opened MasterKeys
  import opened Outcomes

  /** Anything may have been removed, moved, copied or replaced, but nothing new
      can be sealed under the key. */
  ghost predicate Tampered(blocks: Blocks, after: Blocks, master: Master) {
    forall id :: id in after && after[id].Sealed? && after[id].key.master == master
                 ==> exists origin :: origin in blocks && blocks[origin] == after[id]
  }

  /** The one record sealed for a place. */
  lemma SealedFor(env: Env, blocks: Blocks, master: Master, logs: Logs, stream: string, kind: Kind, n: nat,
                  origin: BlockId)
    requires Represents(env, blocks, master, logs) && stream in logs && origin in blocks && kind != CheckKind
    requires Open(master, stream, kind, n, blocks[origin]).Some?
    ensures n <= |logs[stream].events| && SoundLog(env, logs[stream])
    ensures Open(master, stream, kind, n, blocks[origin]).value
            == if kind == SnapshotKind then SnapshotAt(env, logs[stream], n) else RecordAt(logs[stream], n)
  {
    hide StateAfter;
    match origin
    case Evt(s, m) => assert s in logs && Holds(env, blocks, master, s, logs[s]) && Evt(s, m) in blocks;
    case Snp(s, m) => assert s in logs && Holds(env, blocks, master, s, logs[s]) && Snp(s, m) in blocks;
    case CheckId =>
  }

  lemma OpensOrigin(blocks: Blocks, after: Blocks, master: Master, stream: string, kind: Kind, n: nat, id: BlockId)
                    returns (origin: BlockId)
    requires Tampered(blocks, after, master) && id in after && Open(master, stream, kind, n, after[id]).Some?
    ensures origin in blocks && blocks[origin] == after[id]
  {
    origin :| origin in blocks && blocks[origin] == after[id];
  }

  lemma TamperedAuthentic(env: Env, blocks: Blocks, after: Blocks, master: Master, logs: Logs, stream: string)
    requires Represents(env, blocks, master, logs) && stream in logs && Tampered(blocks, after, master)
    ensures Authentic(env, after, master, stream, logs[stream])
  {
    hide StateAfter, Represents, SoundLog, Tampered;
    var log := logs[stream];
    AllSound(env, blocks, master, logs);
    LogFacts(env, log);
    forall n: nat, kind: Kind, id: BlockId | id in after && kind != CheckKind && Open(master, stream, kind, n, after[id]).Some?
      ensures n <= |log.events| && SoundLog(env, log)
              && Open(master, stream, kind, n, after[id]).value == if kind == SnapshotKind then SnapshotAt(env, log, n) else RecordAt(log, n)
    {
      var origin := OpensOrigin(blocks, after, master, stream, kind, n, id);
      SealedFor(env, blocks, master, logs, stream, kind, n, origin);
    }
  }

  lemma LogFacts(env: Env, log: Log)
    requires SoundLog(env, log)
    ensures log.codec in env.codecs && forall n :: 0 <= n <= |log.events| ==> StateAfter(env.codecs[log.codec], log, n).Some?
  {
  }

  /** After any run, and any tampering with what it stored, reading a stream
      raises or returns the state the stream had after one of its events: the
      one asked for, or one not later than the time asked for. */
  lemma TamperedReads(env: Env, w: World, acts: seq<Action>, after: Blocks, stream: string, at: Option<Time>,
                      seqNo: Option<int>)
    returns (m: Master, log: Log)
    requires Initial(w) && Evt(stream, 0) in Run(env, w, acts).blocks
    requires forall master :: Tampered(Run(env, w, acts).blocks, after, master)
    ensures Holds(env, Run(env, w, acts).blocks, m, stream, log)
    ensures var r := Rebuild(env, after, m, stream, at, seqNo);
            r.Ok? ==> RealPrefix(env, log, r.value) && Within(r.value.ts, at)
                      && (seqNo.Some? && at.None? ==> r.value.seqNo == seqNo.value)
  {
    hide GoodWorld, Run, Rebuild, StateAfter, SoundLog, Holds, Authentic;
    var early, late;
    m, early, late := RunsAreGood(env, w, acts, 0);
    GoodRepresents(env, Run(env, w, acts), m, late);
    log := late[stream];
    TamperedAuthentic(env, Run(env, w, acts).blocks, after, m, late, stream);
    TamperedRebuild(env, after, m, stream, log, at, seqNo);
  }
}
