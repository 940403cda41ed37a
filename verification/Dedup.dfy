/** Deduplication by content hash (src/dedup.cpp). */
module Dedup {
  // For any assignment of hashes.

  import opened Bytes

  datatype Hash128 = Hash128(low: nat, high: nat)
  datatype Chunk = Chunk(data: seq<byte>, hash: Hash128)

  datatype Result = Result(unique: seq<Chunk>, refs: seq<nat>, totalSize: nat, uniqueSize: nat, duplicates: nat)

  /** Index of the unique chunk with hash `h`, or -1. */
  function Find(unique: seq<Chunk>, h: Hash128): (u: int)
    ensures -1 <= u < |unique|
    ensures u >= 0 ==> unique[u].hash == h
    ensures u < 0 ==> forall i :: 0 <= i < |unique| ==> unique[i].hash != h
  {
    if |unique| == 0 then -1
    else if unique[|unique| - 1].hash == h then |unique| - 1
    else Find(unique[..|unique| - 1], h)
  }

  /** `deduplicate`. */
  function Deduplicated(chunks: seq<Chunk>): Result
  {
    if |chunks| == 0 then Result([], [], 0, 0, 0)
    else
      Add(Deduplicated(chunks[..|chunks| - 1]), chunks[|chunks| - 1])
  }

  function TotalSize(chunks: seq<Chunk>): nat
  {
    if |chunks| == 0 then 0 else TotalSize(chunks[..|chunks| - 1]) + |chunks[|chunks| - 1].data|
  }

  /** References are in range and lead to a chunk with the same hash; hashes of
      unique chunks differ. */
  ghost predicate Linked(chunks: seq<Chunk>, r: Result) {
    |r.refs| == |chunks|
    && (forall i :: 0 <= i < |chunks| ==> r.refs[i] < |r.unique| && r.unique[r.refs[i]].hash == chunks[i].hash)
    && (forall u, v :: 0 <= u < v < |r.unique| ==> r.unique[u].hash != r.unique[v].hash)
  }

  /** A unique chunk is the first with its hash. */
  ghost predicate CameFrom(chunks: seq<Chunk>, r: Result, u: nat)
    requires |r.refs| == |chunks| && u < |r.unique|
  {
    exists i :: 0 <= i < |chunks| && chunks[i] == r.unique[u] && r.refs[i] == u
                && forall j :: 0 <= j < i ==> chunks[j].hash != chunks[i].hash
  }

  function Add(r: Result, c: Chunk): Result {
    var u := Find(r.unique, c.hash);
    if u >= 0 then Result(r.unique, r.refs + [u], r.totalSize + |c.data|, r.uniqueSize, r.duplicates + 1)
    else Result(r.unique + [c], r.refs + [|r.unique|], r.totalSize + |c.data|, r.uniqueSize + |c.data|, r.duplicates)
  }

  lemma AddLinked(chunks: seq<Chunk>, r: Result, c: Chunk)
    requires Linked(chunks, r)
    ensures Linked(chunks + [c], Add(r, c))
  {
  }

  lemma AddCameFrom(chunks: seq<Chunk>, r: Result, c: Chunk)
    requires Linked(chunks, r) && forall u :: 0 <= u < |r.unique| ==> CameFrom(chunks, r, u)
    ensures var s := Add(r, c);
            |s.refs| == |chunks| + 1 && forall u :: 0 <= u < |s.unique| ==> CameFrom(chunks + [c], s, u)
  {
    var all, s := chunks + [c], Add(r, c);
    forall u | 0 <= u < |s.unique| ensures CameFrom(all, s, u) {
      if u < |r.unique| {
        assert CameFrom(chunks, r, u);
        var i :| 0 <= i < |chunks| && chunks[i] == r.unique[u] && r.refs[i] == u
                 && forall j :: 0 <= j < i ==> chunks[j].hash != chunks[i].hash;
        assert all[i] == s.unique[u] && s.refs[i] == u && forall j :: 0 <= j < i ==> all[j] == chunks[j];
      } else {
        forall j | 0 <= j < |chunks| ensures all[j].hash != c.hash { assert r.unique[r.refs[j]].hash == chunks[j].hash; }
        assert all[|chunks|] == s.unique[u] && s.refs[|chunks|] == u;
      }
    }
  }

  /** Every reference leads to a chunk with the same hash, and every unique chunk
      is the first of the originals with its hash and referenced at its place. */
  lemma {:induction false} DedupLinks(chunks: seq<Chunk>)
    ensures Linked(chunks, Deduplicated(chunks))
    ensures forall u :: 0 <= u < |Deduplicated(chunks).unique| ==> CameFrom(chunks, Deduplicated(chunks), u)
  {
    hide Linked, CameFrom;
    if |chunks| == 0 {
      LinkedNothing();
    } else {
      var n := |chunks| - 1;
      DedupLinks(chunks[..n]);
      LinkedLength(chunks[..n], Deduplicated(chunks[..n]));
      AddLinked(chunks[..n], Deduplicated(chunks[..n]), chunks[n]);
      AddCameFrom(chunks[..n], Deduplicated(chunks[..n]), chunks[n]);
      assert chunks == chunks[..n] + [chunks[n]];
    }
  }

  lemma LinkedLength(chunks: seq<Chunk>, r: Result)
    requires Linked(chunks, r)
    ensures |r.refs| == |chunks|
  {
  }

  lemma LinkedNothing()
    ensures Linked([], Result([], [], 0, 0, 0))
  {
  }

  /** `restore`: the data of each referenced chunk, in the original order. */
  function Restored(r: Result): (out: seq<seq<byte>>)
    requires forall i :: 0 <= i < |r.refs| ==> r.refs[i] < |r.unique|
    ensures |out| == |r.refs|
  {
    seq(|r.refs|, i requires 0 <= i < |r.refs| => r.unique[r.refs[i]].data)
  }

  /** No two of these chunks share a hash without sharing their data. */
  ghost predicate CollisionFree(chunks: seq<Chunk>) {
    forall i, j :: 0 <= i < |chunks| && 0 <= j < |chunks| && chunks[i].hash == chunks[j].hash
                   ==> chunks[i].data == chunks[j].data
  }

  function Datas(chunks: seq<Chunk>): (out: seq<seq<byte>>)
    ensures |out| == |chunks|
  {
    seq(|chunks|, i requires 0 <= i < |chunks| => chunks[i].data)
  }

  lemma RefsInRange(chunks: seq<Chunk>)
    ensures var r := Deduplicated(chunks);
            |r.refs| == |chunks| && forall i :: 0 <= i < |r.refs| ==> r.refs[i] < |r.unique|
  {
    DedupLinks(chunks);
  }

  /** Restoring gives back every chunk exactly when no hash collides. */
  lemma RestoreIffCollisionFree(chunks: seq<Chunk>)
    requires forall i :: 0 <= i < |Deduplicated(chunks).refs| ==> Deduplicated(chunks).refs[i] < |Deduplicated(chunks).unique|
    ensures Restored(Deduplicated(chunks)) == Datas(chunks) <==> CollisionFree(chunks)
  {
    hide Deduplicated;
    DedupLinks(chunks);
    var r := Deduplicated(chunks);
    if CollisionFree(chunks) {
      forall i | 0 <= i < |chunks| ensures Restored(r)[i] == Datas(chunks)[i] {
        assert CameFrom(chunks, r, r.refs[i]);
        var k :| 0 <= k < |chunks| && chunks[k] == r.unique[r.refs[i]] && r.refs[k] == r.refs[i]
                 && forall j :: 0 <= j < k ==> chunks[j].hash != chunks[k].hash;
      }
    } else {
      var i, j :| 0 <= i < |chunks| && 0 <= j < |chunks| && chunks[i].hash == chunks[j].hash
                  && chunks[i].data != chunks[j].data;
      assert r.refs[i] == r.refs[j] by {
        assert r.unique[r.refs[i]].hash == r.unique[r.refs[j]].hash;
      }
      assert Restored(r)[i] == Restored(r)[j];
      assert Datas(chunks)[i] != Datas(chunks)[j];
    }
  }

  /** Nothing is lost in the bookkeeping: unique and duplicate chunks add up, and
      so do their sizes. */
  lemma {:induction false} DedupConserves(chunks: seq<Chunk>)
    ensures var r := Deduplicated(chunks);
            && |r.unique| + r.duplicates == |chunks|
            && r.totalSize == TotalSize(chunks) && r.uniqueSize == TotalSize(r.unique) <= r.totalSize
  {
    if |chunks| > 0 {
      var n := |chunks| - 1;
      DedupConserves(chunks[..n]);
      var r := Deduplicated(chunks[..n]);
      assert (r.unique + [chunks[n]])[..|r.unique|] == r.unique;
    }
  }

  /** `deduplicate`, with its hash map from content hash to unique index. */
  method Deduplicate(chunks: seq<Chunk>) returns (r: Result)
    ensures r == Deduplicated(chunks)
  {
    hide Find;
    r := Result([], [], 0, 0, 0);
    var hashMap: map<Hash128, nat> := map[];
    for i := 0 to |chunks|
      invariant r == Deduplicated(chunks[..i])
      invariant forall h :: Find(r.unique, h) == if h in hashMap then hashMap[h] else -1
    {
      assert chunks[..i + 1][..i] == chunks[..i];
      var c := chunks[i];
      if c.hash in hashMap {
        r := Result(r.unique, r.refs + [hashMap[c.hash]], r.totalSize + |c.data|, r.uniqueSize, r.duplicates + 1);
      } else {
        var uid := |r.unique|;
        FindGrows(r.unique, c);
        hashMap := hashMap[c.hash := uid];
        r := Result(r.unique + [c], r.refs + [uid], r.totalSize + |c.data|, r.uniqueSize + |c.data|, r.duplicates);
      }
    }
    assert chunks[..|chunks|] == chunks;
  }

  lemma FindGrows(unique: seq<Chunk>, c: Chunk)
    ensures forall h :: Find(unique + [c], h) == if h == c.hash then |unique| else Find(unique, h)
  {
    assert (unique + [c])[..|unique|] == unique;
  }
}
