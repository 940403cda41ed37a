/** How good the matches are that src/lz_compress.cpp finds. */
module LzSearch {
  // What the hash chains hold, which earlier positions a search therefore meets, and
  // that it takes the longest repetition among them.

  import opened Bytes
  import opened Lz

  /** Positions from here on do not fit the chains. */
  const MAX_POSITION := 0x8000_0000

  // ----------------------------------------------------- the longest candidate

  /** The positions met by following the chain from `idx`: at most `left`, none
      further back than the window. */
  ghost function Candidates(pos: nat, chain: seq<int>, idx: int, left: nat): (cs: seq<nat>)
    requires |chain| == WINDOW && idx < pos && forall w :: 0 <= w < WINDOW ==> chain[w] < pos
    ensures forall j :: 0 <= j < |cs| ==> cs[j] < pos <= cs[j] + WINDOW
    decreases left
  {
    if idx < 0 || left == 0 || pos - idx > WINDOW then []
    else [idx] + Candidates(pos, chain, chain[idx % WINDOW], left - 1)
  }

  /** The candidates of `find_match` at `pos`. */
  ghost function CandidatesAt(data: seq<byte>, pos: nat, ix: Index): (cs: seq<nat>)
    requires pos + 2 < |data| && ix.Below(pos)
    ensures forall j :: 0 <= j < |cs| ==> cs[j] < pos <= cs[j] + WINDOW
  {
    Candidates(pos, ix.chain, ix.head[HashAt(data, pos)], MAX_CHAIN)
  }

  /** How many bytes repeat at `pos` those from `c` on, up to the longest match. */
  ghost function Agree(data: seq<byte>, c: nat, pos: nat): (n: nat)
    requires c <= pos <= |data|
    ensures n <= MAX_MATCH
  {
    Common(data, c, pos, Min(MAX_MATCH, |data| - pos))
  }

  /** The first of the longest among the candidates, once something of length `floor`
      is known already. */
  ghost predicate FirstLongest(data: seq<byte>, pos: nat, cs: seq<nat>, floor: nat, f: Found, k: nat)
    requires pos <= |data| && k < |cs| && forall j :: 0 <= j < |cs| ==> cs[j] < pos
  {
    && f == Found(pos - cs[k], Agree(data, cs[k], pos)) && f.length >= MIN_MATCH && f.length > floor
    && (forall j :: 0 <= j < |cs| ==> Agree(data, cs[j], pos) <= f.length)
    && (forall j :: 0 <= j < k ==> Agree(data, cs[j], pos) < f.length)
  }

  /** No candidate is a match longer than `floor`. */
  ghost predicate NoneLonger(data: seq<byte>, pos: nat, cs: seq<nat>, floor: nat)
    requires pos <= |data| && forall j :: 0 <= j < |cs| ==> cs[j] < pos
  {
    forall j :: 0 <= j < |cs| ==> Agree(data, cs[j], pos) < MIN_MATCH || Agree(data, cs[j], pos) <= floor
  }

  ghost predicate HasFirstLongest(data: seq<byte>, pos: nat, cs: seq<nat>, floor: nat, f: Found)
    requires pos <= |data| && forall j :: 0 <= j < |cs| ==> cs[j] < pos
  {
    exists k :: 0 <= k < |cs| && FirstLongest(data, pos, cs, floor, f, k)
  }

  lemma OneMoreCandidate(data: seq<byte>, pos: nat, c: nat, more: seq<nat>, best: Found, f: Found)
    requires c < pos <= |data| && forall j :: 0 <= j < |more| ==> more[j] < pos
    requires var n := Agree(data, c, pos);
             var next := if n >= MIN_MATCH && n > best.length then Found(pos - c, n) else best;
             (f == next && NoneLonger(data, pos, more, next.length)) || HasFirstLongest(data, pos, more, next.length, f)
    ensures (f == best && NoneLonger(data, pos, [c] + more, best.length))
            || HasFirstLongest(data, pos, [c] + more, best.length, f)
  {
    hide Agree;
    var n, cs := Agree(data, c, pos), [c] + more;
    var better := n >= MIN_MATCH && n > best.length;
    var next := if better then Found(pos - c, n) else best;
    if HasFirstLongest(data, pos, more, next.length, f) {
      var k :| 0 <= k < |more| && FirstLongest(data, pos, more, next.length, f, k);
      assert FirstLongest(data, pos, cs, best.length, f, k + 1);
    } else if better {
      assert FirstLongest(data, pos, cs, best.length, f, 0);
    }
  }

  lemma {:induction false} WalkIsLongest(data: seq<byte>, pos: nat, chain: seq<int>, idx: int, left: nat, best: Found)
    requires pos <= |data| && |chain| == WINDOW && idx < pos
    requires forall w :: 0 <= w < WINDOW ==> chain[w] < pos
    ensures var f, cs := Walk(data, pos, chain, idx, left, best), Candidates(pos, chain, idx, left);
            (f == best && NoneLonger(data, pos, cs, best.length)) || HasFirstLongest(data, pos, cs, best.length, f)
    decreases left
  {
    hide Common, FirstLongest, HasFirstLongest;
    if !(idx < 0 || left == 0 || pos - idx > WINDOW) {
      var n := Agree(data, idx, pos);
      var more := Candidates(pos, chain, chain[idx % WINDOW], left - 1);
      var next := if n >= MIN_MATCH && n > best.length then Found(pos - idx, n) else best;
      if next != best && n == MAX_MATCH {
        assert NoneLonger(data, pos, more, n);
      } else {
        WalkIsLongest(data, pos, chain, chain[idx % WINDOW], left - 1, next);
      }
      OneMoreCandidate(data, pos, idx, more, best, Walk(data, pos, chain, idx, left, best));
    }
  }

  /** `find_match` finds nothing exactly when no candidate agrees on three bytes, and
      otherwise the first of the candidates that agree longest. */
  lemma FindIsLongest(data: seq<byte>, pos: nat, ix: Index)
    requires pos + MIN_MATCH <= |data| && ix.Below(pos)
    ensures var f, cs := Find(data, pos, ix), CandidatesAt(data, pos, ix);
            if forall j :: 0 <= j < |cs| ==> Agree(data, cs[j], pos) < MIN_MATCH then f == None
            else exists k :: 0 <= k < |cs| && FirstLongest(data, pos, cs, 0, f, k)
  {
    hide Walk, Candidates, Agree, HashAt;
    WalkIsLongest(data, pos, ix.chain, ix.head[HashAt(data, pos)], MAX_CHAIN, None);
    var f, cs := Find(data, pos, ix), CandidatesAt(data, pos, ix);
    assert cs == Candidates(pos, ix.chain, ix.head[HashAt(data, pos)], MAX_CHAIN);
    if HasFirstLongest(data, pos, cs, 0, f) {
      var k :| 0 <= k < |cs| && FirstLongest(data, pos, cs, 0, f, k);
      assert Agree(data, cs[k], pos) >= MIN_MATCH;
    } else {
      assert NoneLonger(data, pos, cs, 0);
    }
  }

  // ------------------------------------------------------ what the chains hold

  /** A position of the hash `h`, that is, one whose next three bytes have it. */
  predicate HasHash(data: seq<byte>, h: nat, p: nat) {
    p + 2 < |data| && HashAt(data, p) == h
  }

  /** The last position of the hash before `pos`, or -1. */
  ghost function Latest(data: seq<byte>, h: nat, pos: nat): (p: int)
    ensures -1 <= p < pos && (p >= 0 ==> HasHash(data, h, p))
    ensures forall q :: p < q < pos ==> !HasHash(data, h, q)
  {
    if pos == 0 then -1
    else if HasHash(data, h, pos - 1) then pos - 1
    else Latest(data, h, pos - 1)
  }

  /** Every position before `pos` is in its chain, and links to the one before it with
      its hash; the `loops`, which were inserted twice, link to themselves. */
  ghost predicate Indexed(data: seq<byte>, pos: nat, ix: Index, loops: set<nat>) {
    && |ix.head| == HASH_SIZE && |ix.chain| == WINDOW
    && (forall p :: p in loops ==> p < pos)
    && (forall h :: 0 <= h < HASH_SIZE ==> ix.head[h] == Latest(data, h, pos))
    && (forall p :: 0 <= p < pos && p + 2 < |data| && pos <= p + WINDOW ==> Linked(data, ix, p, loops))
  }

  ghost predicate Linked(data: seq<byte>, ix: Index, p: nat, loops: set<nat>)
    requires p + 2 < |data| && |ix.chain| == WINDOW
  {
    ix.chain[p % WINDOW] == if p in loops then p else Latest(data, HashAt(data, p), p)
  }

  lemma EmptyIndexed(data: seq<byte>)
    ensures Indexed(data, 0, Empty(), {})
  {
  }

  lemma InsertIndexed(data: seq<byte>, pos: nat, ix: Index, loops: set<nat>)
    requires pos + 2 < |data| && pos < MAX_POSITION && Indexed(data, pos, ix, loops)
    ensures Indexed(data, pos + 1, Insert(data, ix, pos), loops)
  {
    hide HashAt;
    var r := Insert(data, ix, pos);
    forall p | 0 <= p <= pos && p + 2 < |data| && pos + 1 <= p + WINDOW ensures Linked(data, r, p, loops) {
      if p < pos {
        assert Linked(data, ix, p, loops);
        assert p % WINDOW != pos % WINDOW;
      }
    }
  }

  /** The first position of a match goes in twice, and then links to itself. */
  lemma InsertAgain(data: seq<byte>, pos: nat, ix: Index, loops: set<nat>)
    requires pos + 2 < |data| && pos < MAX_POSITION && Indexed(data, pos + 1, ix, loops)
    ensures Indexed(data, pos + 1, Insert(data, ix, pos), loops + {pos})
  {
    hide HashAt;
    var r := Insert(data, ix, pos);
    forall p | 0 <= p <= pos && p + 2 < |data| && pos + 1 <= p + WINDOW ensures Linked(data, r, p, loops + {pos}) {
      if p < pos {
        assert Linked(data, ix, p, loops);
        assert p % WINDOW != pos % WINDOW;
      }
    }
  }

  lemma SkipIndexed(data: seq<byte>, pos: nat, ix: Index, loops: set<nat>)
    requires pos + 2 >= |data| && Indexed(data, pos, ix, loops)
    ensures Indexed(data, pos + 1, ix, loops)
  {
    hide HashAt;
    forall h | 0 <= h < HASH_SIZE ensures Latest(data, h, pos + 1) == Latest(data, h, pos) { }
    forall p | 0 <= p < pos && p + 2 < |data| && pos + 1 <= p + WINDOW ensures Linked(data, ix, p, loops) { }
  }

  lemma IndexedShape(data: seq<byte>, pos: nat, ix: Index, loops: set<nat>)
    requires Indexed(data, pos, ix, loops)
    ensures |ix.head| == HASH_SIZE && |ix.chain| == WINDOW
  {
  }

  /** Every position passed is inserted once more; those without three bytes are not. */
  lemma {:induction false} RunIndexed(data: seq<byte>, ix: Index, pos: nat, n: nat, loops: set<nat>)
    requires pos + n <= |data| && pos + n <= MAX_POSITION && Indexed(data, pos, ix, loops)
    ensures |ix.head| == HASH_SIZE && |ix.chain| == WINDOW
    ensures Indexed(data, pos + n, InsertRun(data, ix, pos, n), loops)
  {
    IndexedShape(data, pos, ix, loops);
    hide Indexed, Insert, HashAt;
    if n > 0 {
      RunIndexed(data, ix, pos, n - 1, loops);
      var r := InsertRun(data, ix, pos, n - 1);
      if pos + n + 2 <= |data| {
        InsertIndexed(data, pos + n - 1, r, loops);
      } else {
        SkipIndexed(data, pos + n - 1, r, loops);
      }
    }
  }

  /** The same when the first position of the run is in already. */
  lemma {:induction false} RunAgainIndexed(data: seq<byte>, seen: Index, pos: nat, n: nat, loops: set<nat>)
    requires 1 <= n && pos + n <= |data| && pos + n <= MAX_POSITION && pos + 2 < |data|
    requires Indexed(data, pos + 1, seen, loops)
    ensures |seen.head| == HASH_SIZE && |seen.chain| == WINDOW
    ensures Indexed(data, pos + n, InsertRun(data, seen, pos, n), loops + {pos})
  {
    IndexedShape(data, pos + 1, seen, loops);
    hide Indexed, Insert, HashAt;
    var more := loops + {pos};
    if n == 1 {
      InsertAgain(data, pos, seen, loops);
      assert InsertRun(data, seen, pos, 0) == seen;
    } else {
      RunAgainIndexed(data, seen, pos, n - 1, loops);
      var r := InsertRun(data, seen, pos, n - 1);
      if pos + n + 2 <= |data| {
        InsertIndexed(data, pos + n - 1, r, more);
      } else {
        SkipIndexed(data, pos + n - 1, r, more);
      }
    }
  }

  /** The looping positions once `t` has been emitted at `pos`. */
  ghost function Loops(data: seq<byte>, pos: nat, t: Token, loops: set<nat>): set<nat> {
    if t.Match? && pos + 1 + MIN_MATCH <= |data| then loops + {pos} else loops
  }

  lemma NextIndexed(data: seq<byte>, pos: nat, ix: Index, loops: set<nat>)
    requires pos < |data| <= MAX_POSITION && ix.Below(pos) && Indexed(data, pos, ix, loops)
    ensures var s := Next(data, pos, ix); Indexed(data, s.pos, s.ix, Loops(data, pos, s.token, loops))
  {
    hide Indexed, Insert, InsertRun, Find, HashAt;
    var m, s := Find(data, pos, ix), Next(data, pos, ix);
    FindRepeats(data, pos, ix);
    if pos + 2 < |data| { InsertIndexed(data, pos, ix, loops); } else { SkipIndexed(data, pos, ix, loops); }
    if s.token.Match? {
      if pos + 1 + MIN_MATCH <= |data| {
        RunAgainIndexed(data, Insert(data, ix, pos), pos, m.length, loops);
      } else {
        RunIndexed(data, ix, pos, m.length, loops);
      }
    }
  }

  // ------------------------------------------------------------ nothing is missed

  /** How many positions from `from` up to `to` have the hash. */
  ghost function Crowd(data: seq<byte>, h: nat, from: nat, top: nat): (n: nat)
    decreases top
  {
    if top <= from then 0 else Crowd(data, h, from, top - 1) + if HasHash(data, h, top - 1) then 1 else 0
  }

  /** An earlier position that a search at `pos` meets: inside the window, with the
      same hash, behind fewer than 128 others and no looping one. */
  ghost predicate Near(data: seq<byte>, pos: nat, p: nat, loops: set<nat>) {
    && p < pos <= p + WINDOW && pos + 2 < |data| && HasHash(data, HashAt(data, pos), p)
    && (forall q :: p < q < pos && q in loops ==> !HasHash(data, HashAt(data, pos), q))
    && Crowd(data, HashAt(data, pos), p + 1, pos) < MAX_CHAIN
  }

  lemma {:induction false} CrowdUpToLatest(data: seq<byte>, h: nat, from: nat, top: nat)
    requires from <= Latest(data, h, top)
    ensures Crowd(data, h, from, top) == Crowd(data, h, from, Latest(data, h, top)) + 1
    decreases top
  {
    hide HasHash;
    if !HasHash(data, h, top - 1) { CrowdUpToLatest(data, h, from, top - 1); }
  }

  lemma {:induction false} ReachesFrom(data: seq<byte>, pos: nat, ix: Index, loops: set<nat>, top: nat, left: nat,
                                       p: nat)
    requires pos + 2 < |data| && ix.Below(pos) && Indexed(data, pos, ix, loops)
    requires p < top <= pos <= p + WINDOW && HasHash(data, HashAt(data, pos), p)
    requires forall q :: p < q < pos && q in loops ==> !HasHash(data, HashAt(data, pos), q)
    requires Crowd(data, HashAt(data, pos), p + 1, top) < left
    ensures p in Candidates(pos, ix.chain, Latest(data, HashAt(data, pos), top), left)
    decreases left
  {
    hide HashAt;
    var h := HashAt(data, pos);
    var c := Latest(data, h, top);
    if p < c {
      CrowdUpToLatest(data, h, p + 1, top);
      assert Linked(data, ix, c, loops) && c !in loops;
      ReachesFrom(data, pos, ix, loops, c, left - 1, p);
    }
  }

  /** A walk that comes to a looping position never leaves it. */
  lemma {:induction false} LoopStays(data: seq<byte>, pos: nat, ix: Index, loops: set<nat>, q: nat, left: nat, p: nat)
    requires pos + 2 < |data| && ix.Below(pos) && Indexed(data, pos, ix, loops)
    requires q in loops && q + 2 < |data| && q < pos <= q + WINDOW
    requires p in Candidates(pos, ix.chain, q, left)
    ensures p == q
    decreases left
  {
    hide HashAt;
    assert Linked(data, ix, q, loops);
    if p != q { LoopStays(data, pos, ix, loops, q, left - 1, p); }
  }

  lemma {:induction false} ReachedIsNear(data: seq<byte>, pos: nat, ix: Index, loops: set<nat>, top: nat, left: nat,
                                         p: nat)
    requires pos + 2 < |data| && ix.Below(pos) && Indexed(data, pos, ix, loops) && top <= pos
    requires p in Candidates(pos, ix.chain, Latest(data, HashAt(data, pos), top), left)
    ensures p < top && pos <= p + WINDOW && HasHash(data, HashAt(data, pos), p)
    ensures forall q :: p < q < top && q in loops ==> !HasHash(data, HashAt(data, pos), q)
    ensures Crowd(data, HashAt(data, pos), p + 1, top) < left
    decreases left
  {
    hide HashAt;
    var h := HashAt(data, pos);
    var c := Latest(data, h, top);
    if p == c {
      NoneAfterLatest(data, h, top, top);
    } else {
      assert Linked(data, ix, c, loops);
      if c in loops {
        LoopStays(data, pos, ix, loops, c, left, p);
      } else {
        ReachedIsNear(data, pos, ix, loops, c, left - 1, p);
        CrowdUpToLatest(data, h, p + 1, top);
      }
    }
  }

  lemma {:induction false} NoneAfterLatest(data: seq<byte>, h: nat, top: nat, end: nat)
    requires Latest(data, h, top) + 1 <= end <= top
    ensures Crowd(data, h, Latest(data, h, top) + 1, end) == 0
    decreases end
  {
    hide HasHash;
    if Latest(data, h, top) + 1 < end { NoneAfterLatest(data, h, top, end - 1); }
  }

  /** A search meets exactly the positions near enough. */
  lemma CandidateIffNear(data: seq<byte>, pos: nat, ix: Index, loops: set<nat>, p: nat)
    requires pos + 2 < |data| && ix.Below(pos) && Indexed(data, pos, ix, loops)
    ensures p in CandidatesAt(data, pos, ix) <==> Near(data, pos, p, loops)
  {
    hide HashAt;
    if p in CandidatesAt(data, pos, ix) { ReachedIsNear(data, pos, ix, loops, pos, MAX_CHAIN, p); }
    if Near(data, pos, p, loops) { ReachesFrom(data, pos, ix, loops, pos, MAX_CHAIN, p); }
  }

  /** So no near position repeats more than the match that is found. */
  lemma FindMissesNothing(data: seq<byte>, pos: nat, ix: Index, loops: set<nat>, p: nat)
    requires ix.Below(pos) && Indexed(data, pos, ix, loops) && Near(data, pos, p, loops)
    ensures Agree(data, p, pos) < MIN_MATCH || Agree(data, p, pos) <= Find(data, pos, ix).length
  {
    hide Find, HashAt, Agree, CandidatesAt, Indexed;
    CandidateIffNear(data, pos, ix, loops, p);
    FindIsLongest(data, pos, ix);
  }

  // ---------------------------------------------------------------- whole streams

  ghost predicate NoneRepeatsMore(data: seq<byte>, pos: nat, n: nat, loops: set<nat>) {
    forall p: nat :: Near(data, pos, p, loops) ==> Agree(data, p, pos) <= n
  }

  /** From `q` on more bytes repeat at the next position, by more than one, than from
      any near position at this one. */
  ghost predicate Promises(data: seq<byte>, pos: nat, q: nat, loops: set<nat>) {
    && q <= pos < |data| && pos < q + WINDOW && Agree(data, q, pos + 1) > MIN_MATCH + 1
    && NoneRepeatsMore(data, pos, Agree(data, q, pos + 1) - 2, loops)
  }

  /** What makes `t` the token to emit at `pos`, told from the data and the looping
      positions alone. A match is as long as any near position allows, unless the next
      position allows one longer by more than a byte; a literal is emitted when there
      is no match, or for the sake of such a longer one. */
  ghost predicate Greedy(data: seq<byte>, pos: nat, t: Token, loops: set<nat>)
    requires pos < |data|
  {
    match t
    case Match(offset, length) =>
      && Repeats(data, pos, Found(offset, length))
      && NoneRepeatsMore(data, pos, length, loops) && NoneRepeatsMore(data, pos + 1, length + 1, loops)
    case Literal(b) =>
      && b == data[pos]
      && (NoneRepeatsMore(data, pos, MIN_MATCH - 1, loops) || exists q: nat :: Promises(data, pos, q, loops))
  }

  ghost predicate AllGreedy(data: seq<byte>, pos: nat, ts: seq<Token>, loops: set<nat>)
    decreases |ts|
  {
    if |ts| == 0 then pos == |data|
    else
      && pos < |data| && Greedy(data, pos, ts[0], loops)
      && AllGreedy(data, pos + (if ts[0].Match? then ts[0].length else 1), ts[1..], Loops(data, pos, ts[0], loops))
  }

  lemma BestHere(data: seq<byte>, pos: nat, ix: Index, loops: set<nat>)
    requires pos < |data| && ix.Below(pos) && Indexed(data, pos, ix, loops)
    ensures var f := Find(data, pos, ix);
            NoneRepeatsMore(data, pos, if f == None then MIN_MATCH - 1 else f.length, loops)
  {
    hide Find, Agree, Indexed, HashAt, Crowd;
    FindRepeats(data, pos, ix);
    forall p: nat | Near(data, pos, p, loops)
      ensures Agree(data, p, pos) < MIN_MATCH || Agree(data, p, pos) <= Find(data, pos, ix).length
    {
      FindMissesNothing(data, pos, ix, loops, p);
    }
  }

  lemma MatchIsGreedy(data: seq<byte>, pos: nat, ix: Index, loops: set<nat>)
    requires pos < |data| <= MAX_POSITION && ix.Below(pos) && Indexed(data, pos, ix, loops)
    requires Next(data, pos, ix).token.Match?
    ensures Greedy(data, pos, Next(data, pos, ix).token, loops)
  {
    hide Find, Near, Agree, Indexed, Insert, InsertRun, HashAt, NoneRepeatsMore;
    var m := Find(data, pos, ix);
    FindRepeats(data, pos, ix);
    BestHere(data, pos, ix, loops);
    if pos + 1 + MIN_MATCH <= |data| {
      InsertIndexed(data, pos, ix, loops);
      BestHere(data, pos + 1, Insert(data, ix, pos), loops);
      NoneMoreWeaker(data, pos + 1, loops, m.length + 1);
    } else {
      NoneAtEnd(data, pos + 1, loops, m.length + 1);
    }
  }

  lemma NoneMoreWeaker(data: seq<byte>, pos: nat, loops: set<nat>, n: nat)
    ensures forall k: nat :: k <= n && NoneRepeatsMore(data, pos, k, loops) ==> NoneRepeatsMore(data, pos, n, loops)
  {
  }

  lemma NoneAtEnd(data: seq<byte>, pos: nat, loops: set<nat>, n: nat)
    requires pos + MIN_MATCH > |data|
    ensures NoneRepeatsMore(data, pos, n, loops)
  {
  }

  lemma LiteralIsGreedy(data: seq<byte>, pos: nat, ix: Index, loops: set<nat>)
    requires pos < |data| <= MAX_POSITION && ix.Below(pos) && Indexed(data, pos, ix, loops)
    requires Next(data, pos, ix).token.Literal?
    ensures Greedy(data, pos, Next(data, pos, ix).token, loops)
  {
    hide Find, Near, Agree, Indexed, Insert, InsertRun, HashAt, NoneRepeatsMore, CandidatesAt;
    var m := Find(data, pos, ix);
    FindRepeats(data, pos, ix);
    BestHere(data, pos, ix, loops);
    if m.length >= MIN_MATCH {
      var seen := Insert(data, ix, pos);
      InsertIndexed(data, pos, ix, loops);
      FindIsLongest(data, pos + 1, seen);
      var f, cs := Find(data, pos + 1, seen), CandidatesAt(data, pos + 1, seen);
      var k :| 0 <= k < |cs| && FirstLongest(data, pos + 1, cs, 0, f, k);
      NoneMoreWeaker(data, pos, loops, f.length - 2);
      assert Promises(data, pos, cs[k], loops);
    }
  }

  lemma {:induction false} TokensFromGreedy(data: seq<byte>, pos: nat, ix: Index, loops: set<nat>)
    requires pos <= |data| <= MAX_POSITION && ix.Below(pos) && Indexed(data, pos, ix, loops)
    ensures AllGreedy(data, pos, TokensFrom(data, pos, ix), loops)
    decreases |data| - pos
  {
    hide Next, Greedy, Indexed, Loops;
    if pos < |data| {
      var s := Next(data, pos, ix);
      NextIndexed(data, pos, ix, loops);
      if s.token.Match? { MatchIsGreedy(data, pos, ix, loops); } else { LiteralIsGreedy(data, pos, ix, loops); }
      NextAdvance(data, pos, ix);
      TokensFromGreedy(data, s.pos, s.ix, Loops(data, pos, s.token, loops));
      assert TokensFrom(data, pos, ix)[1..] == TokensFrom(data, s.pos, s.ix);
    }
  }

  lemma NextAdvance(data: seq<byte>, pos: nat, ix: Index)
    requires pos < |data| && ix.Below(pos)
    ensures var s := Next(data, pos, ix); s.pos == pos + if s.token.Match? then s.token.length else 1
  {
    hide Find, Insert, InsertRun;
  }

  /** Up to 2^31 bytes the compressor misses no repetition near enough: every token it
      emits is the greedy one, with lazy matching, for its place. */
  lemma TokensGreedy(data: seq<byte>)
    requires |data| <= MAX_POSITION
    ensures AllGreedy(data, 0, Tokens(data), {})
  {
    hide AllGreedy, TokensFrom, Indexed;
    EmptyIndexed(data);
    TokensFromGreedy(data, 0, Empty(), {});
  }
}
