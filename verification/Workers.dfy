/** The worker threads of decompression. */
module Workers {
  // The ranges they are given in 32-bit arithmetic (src/memalgo.cpp:347-377), and
  // what any interleaving of them computes.

  import opened Bytes

  datatype Range = Range(lo: nat, hi: nat)

  /** (n + threads - 1) / threads, in 32 bits. */
  function PerThread(n: nat, threads: nat): nat
    requires 0 < threads
  {
    (n + threads - 1) % U32 / threads
  }

  function RangeOf(n: nat, threads: nat, t: nat): Range
    requires 0 < threads
  {
    var lo := Times(t, PerThread(n, threads)) % U32;
    var hi := (lo + PerThread(n, threads)) % U32;
    Range(lo, if hi < n then hi else n)
  }

  /** The ranges handed out from thread `t` on; the first empty one ends it. */
  function RangesFrom(n: nat, threads: nat, t: nat): seq<Range>
    requires 0 < threads && t <= threads
    decreases threads - t
  {
    if t == threads then []
    else
      var r := RangeOf(n, threads, t);
      if r.lo >= r.hi then [] else [r] + RangesFrom(n, threads, t + 1)
  }

  function Ranges(n: nat, threads: nat): seq<Range>
    requires 0 < threads
  {
    RangesFrom(n, threads, 0)
  }

  /** The ranges follow one another without gap or overlap, from `a` to `n`. */
  ghost predicate Tiles(rs: seq<Range>, a: nat, n: nat)
  {
    if |rs| == 0 then a == n
    else rs[0].lo == a && a < rs[0].hi <= n && Tiles(rs[1..], rs[0].hi, n)
  }

  lemma CeilingCovers(n: nat, threads: nat)
    requires 0 < threads
    ensures var p := (n + threads - 1) / threads;
            n <= Times(threads, p) <= n + threads - 1
  {
    var x := n + threads - 1;
    assert x == threads * (x / threads) + x % threads;
  }

  lemma TimesStep(t: nat, p: nat)
    ensures Times(t + 1, p) == Times(t, p) + p
  {
  }

  lemma TimesMono(s: nat, t: nat, p: nat)
    requires s <= t
    ensures Times(s, p) <= Times(t, p)
  {
    MulLe(p, s, t);
  }

  /** Without wrapping, the range of thread `t` is the plain one. */
  lemma PlainRange(n: nat, threads: nat, t: nat)
    requires t < threads && n + threads - 1 < U32
    ensures var p := PerThread(n, threads);
            RangeOf(n, threads, t) == Range(Times(t, p), if Times(t + 1, p) < n then Times(t + 1, p) else n)
  {
    var p := PerThread(n, threads);
    PlainShare(n, threads);
    hide PerThread, Times;
    TimesStep(t, p);
    TimesMono(t + 1, threads, p);
    assert Times(t, p) % U32 == Times(t, p) && (Times(t, p) + p) % U32 == Times(t, p) + p;
  }

  lemma PlainShare(n: nat, threads: nat)
    requires 0 < threads && n + threads - 1 < U32
    ensures Times(threads, PerThread(n, threads)) < U32
  {
    hide Times;
    CeilingCovers(n, threads);
    assert (n + threads - 1) % U32 == n + threads - 1;
  }

  lemma {:induction false} RangesTileFrom(n: nat, threads: nat, t: nat)
    requires 0 < threads && t <= threads && n + threads - 1 < U32
    requires Times(t, PerThread(n, threads)) <= n
    ensures Tiles(RangesFrom(n, threads, t), Times(t, PerThread(n, threads)), n)
    decreases threads - t
  {
    hide Times, Tiles, PerThread, RangeOf;
    var p := PerThread(n, threads);
    TilesNothing(n);
    EndCovers(n, threads);
    if t < threads {
      PlainRange(n, threads, t);
      TimesStep(t, p);
      var r, rest := RangeOf(n, threads, t), RangesFrom(n, threads, t + 1);
      if r.lo < r.hi {
        if Times(t + 1, p) <= n { RangesTileFrom(n, threads, t + 1); } else { LastRange(n, threads, t + 1); }
        TilesCons(r, rest, n);
      }
    }
  }

  lemma EndCovers(n: nat, threads: nat)
    requires 0 < threads && n + threads - 1 < U32
    ensures n <= Times(threads, PerThread(n, threads)) && (n > 0 ==> PerThread(n, threads) > 0)
  {
    CeilingCovers(n, threads);
  }

  lemma TilesNothing(n: nat)
    ensures Tiles([], n, n)
  {
  }

  lemma TilesCons(r: Range, rs: seq<Range>, n: nat)
    requires r.lo < r.hi <= n && Tiles(rs, r.hi, n)
    ensures Tiles([r] + rs, r.lo, n)
  {
    assert ([r] + rs)[1..] == rs;
  }

  /** Once a range reaches n, the next one is empty. */
  lemma LastRange(n: nat, threads: nat, t: nat)
    requires 0 < threads && t <= threads && n + threads - 1 < U32
    requires Times(t, PerThread(n, threads)) > n
    ensures RangesFrom(n, threads, t) == []
  {
    hide Times, PerThread, RangeOf;
    if t < threads { PlainRange(n, threads, t); }
  }

  /** The ranges cover every chunk exactly once precisely when the ceiling
      division does not wrap. Otherwise no thread is started at all. */
  lemma RangesTileIff(n: nat, threads: nat)
    requires 0 < threads <= n < U32
    ensures Tiles(Ranges(n, threads), 0, n) <==> n + threads - 1 < U32
    ensures n + threads - 1 >= U32 ==> Ranges(n, threads) == []
  {
    if n + threads - 1 < U32 {
      assert Times(0, PerThread(n, threads)) == 0;
      RangesTileFrom(n, threads, 0);
    } else {
      Wrapped(n, threads);
    }
  }

  lemma Wrapped(n: nat, threads: nat)
    requires 0 < threads <= n < U32 <= n + threads - 1
    ensures PerThread(n, threads) == 0 && Ranges(n, threads) == []
  {
    assert (n + threads - 1) % U32 == n + threads - 1 - U32 < threads;
    assert PerThread(n, threads) == 0;
    assert Times(0, 0) == 0;
  }

  // -------------------------------------------------------------- interleaving

  /** Each worker's next index, and the shared vector of results. */
  datatype State = State(next: seq<nat>, out: seq<seq<byte>>)

  function InitialState(rs: seq<Range>, n: nat): State {
    State(seq(|rs|, w requires 0 <= w < |rs| => rs[w].lo), seq(n, _ => []))
  }

  /** Worker `w` does its next chunk, if it has one left. */
  function Step(rs: seq<Range>, input: seq<seq<byte>>, f: seq<byte> -> seq<byte>, s: State, w: nat): State {
    if w < |rs| && w < |s.next| && s.next[w] < rs[w].hi && s.next[w] < |s.out| && s.next[w] < |input|
    then State(s.next[w := s.next[w] + 1], s.out[s.next[w] := f(input[s.next[w]])])
    else s
  }

  function Run(rs: seq<Range>, input: seq<seq<byte>>, f: seq<byte> -> seq<byte>, s: State, schedule: seq<nat>): State
  {
    if |schedule| == 0 then s
    else Step(rs, input, f, Run(rs, input, f, s, schedule[..|schedule| - 1]), schedule[|schedule| - 1])
  }

  /** Inside the ranges, what lies before `next` is computed; every entry is
      either untouched or right. */
  ghost predicate Sound(rs: seq<Range>, input: seq<seq<byte>>, f: seq<byte> -> seq<byte>, s: State) {
    && |s.next| == |rs| && |s.out| == |input|
    && (forall w :: 0 <= w < |rs| ==> rs[w].lo <= s.next[w])
    && (forall i :: 0 <= i < |input| ==> s.out[i] == [] || s.out[i] == f(input[i]))
    && (forall w, i :: 0 <= w < |rs| && rs[w].lo <= i < s.next[w] && i < |input| ==> s.out[i] == f(input[i]))
  }

  ghost predicate Done(rs: seq<Range>, s: State) {
    |s.next| == |rs| && forall w :: 0 <= w < |rs| ==> s.next[w] >= rs[w].hi
  }

  lemma StepSound(rs: seq<Range>, input: seq<seq<byte>>, f: seq<byte> -> seq<byte>, s: State, w: nat)
    requires Sound(rs, input, f, s)
    ensures Sound(rs, input, f, Step(rs, input, f, s, w))
  {
  }

  lemma {:induction false} RunSound(rs: seq<Range>, input: seq<seq<byte>>, f: seq<byte> -> seq<byte>,
                                    schedule: seq<nat>)
    ensures Sound(rs, input, f, Run(rs, input, f, InitialState(rs, |input|), schedule))
  {
    hide Step;
    if |schedule| > 0 {
      hide Sound;
      var before := schedule[..|schedule| - 1];
      RunSound(rs, input, f, before);
      StepSound(rs, input, f, Run(rs, input, f, InitialState(rs, |input|), before), schedule[|schedule| - 1]);
    }
  }

  /** The range that holds index `i`. */
  lemma {:induction false} TileOf(rs: seq<Range>, a: nat, n: nat, i: nat) returns (w: nat)
    requires Tiles(rs, a, n) && a <= i < n
    ensures w < |rs| && rs[w].lo <= i < rs[w].hi
  {
    if i < rs[0].hi { return 0; }
    var v := TileOf(rs[1..], rs[0].hi, n, i);
    w := v + 1;
  }

  /** Tiles lie apart: no two workers ever touch the same result. */
  lemma {:induction false} TilesDisjoint(rs: seq<Range>, a: nat, n: nat, v: nat, w: nat)
    requires Tiles(rs, a, n) && v < w < |rs|
    ensures a <= rs[v].lo && rs[v].hi <= rs[w].lo
    decreases |rs|
  {
    if v > 0 {
      TilesDisjoint(rs[1..], rs[0].hi, n, v - 1, w - 1);
    } else if w > 1 {
      TilesDisjoint(rs[1..], rs[0].hi, n, 0, w - 1);
    }
  }

  function All(input: seq<seq<byte>>, f: seq<byte> -> seq<byte>): (out: seq<seq<byte>>)
    ensures |out| == |input|
  {
    seq(|input|, i requires 0 <= i < |input| => f(input[i]))
  }

  /** However the workers interleave, once all have finished the results are
      those of doing every chunk in turn. */
  lemma AnyScheduleDoesAll(input: seq<seq<byte>>, f: seq<byte> -> seq<byte>, threads: nat, schedule: seq<nat>)
    requires 0 < threads && |input| + threads - 1 < U32
    requires Done(Ranges(|input|, threads), Run(Ranges(|input|, threads), input, f,
             InitialState(Ranges(|input|, threads), |input|), schedule))
    ensures Run(Ranges(|input|, threads), input, f, InitialState(Ranges(|input|, threads), |input|),
            schedule).out == All(input, f)
  {
    hide Run, Ranges, Tiles, PerThread, InitialState;
    var n, rs := |input|, Ranges(|input|, threads);
    var s := Run(rs, input, f, InitialState(rs, n), schedule);
    RunSound(rs, input, f, schedule);
    RangesTile(n, threads);
    forall i | 0 <= i < n ensures s.out[i] == All(input, f)[i] {
      var w := TileOf(rs, 0, n, i);
    }
  }

  lemma RangesTile(n: nat, threads: nat)
    requires 0 < threads && n + threads - 1 < U32
    ensures Tiles(Ranges(n, threads), 0, n)
  {
    assert Times(0, PerThread(n, threads)) == 0;
    RangesTileFrom(n, threads, 0);
  }

  // ------------------------------------------------------------------- method

  function ThreadCount(hardware: nat, n: nat): nat {
    var hw := if hardware == 0 then 1 else hardware;
    if hw < n then hw else n
  }

  /** All results: in turn for small work, otherwise by as many workers as the
      hardware offers, and none when the split wraps. */
  function Results(input: seq<seq<byte>>, f: seq<byte> -> seq<byte>, hardware: nat): (out: seq<seq<byte>>)
    ensures |out| == |input|
  {
    var threads := ThreadCount(hardware, |input|);
    if threads <= 1 || |input| <= 2 || |input| + threads - 1 < U32 then All(input, f)
    else seq(|input|, _ => [])
  }

  /** One worker's loop. */
  method RunRange(input: seq<seq<byte>>, f: seq<byte> -> seq<byte>, r: Range, out: array<seq<byte>>)
    requires out.Length == |input| && r.lo <= r.hi <= |input|
    requires forall k :: 0 <= k < r.lo ==> out[k] == f(input[k])
    requires forall k :: r.lo <= k < |input| ==> out[k] == []
    modifies out
    ensures forall k :: 0 <= k < r.hi ==> out[k] == f(input[k])
    ensures forall k :: r.hi <= k < |input| ==> out[k] == []
  {
    for i := r.lo to r.hi
      invariant forall k :: 0 <= k < i ==> out[k] == f(input[k])
      invariant forall k :: i <= k < |input| ==> out[k] == []
    {
      out[i] := f(input[i]);
    }
  }

  lemma NextTile(n: nat, threads: nat, t: nat, at: nat)
    requires t < threads && Tiles(RangesFrom(n, threads, t), at, n)
    requires RangeOf(n, threads, t).lo < RangeOf(n, threads, t).hi
    ensures var r := RangeOf(n, threads, t);
            r.lo == at && r.hi <= n && Tiles(RangesFrom(n, threads, t + 1), r.hi, n)
  {
    hide RangeOf;
    assert RangesFrom(n, threads, t)[1..] == RangesFrom(n, threads, t + 1);
  }

  /** How much of the work the threads do: all of it, unless the split wraps. */
  function Reached(n: nat, threads: nat): nat {
    if n + threads - 1 < U32 then n else 0
  }

  /** One worker after the other, which is one of the schedules. */
  method RunRanges(input: seq<seq<byte>>, f: seq<byte> -> seq<byte>, threads: nat, out: array<seq<byte>>)
    requires 0 < threads <= |input| < U32 && out.Length == |input|
    requires forall k :: 0 <= k < |input| ==> out[k] == []
    modifies out
    ensures forall k :: 0 <= k < Reached(|input|, threads) ==> out[k] == f(input[k])
    ensures forall k :: Reached(|input|, threads) <= k < |input| ==> out[k] == []
  {
    hide RangeOf, Tiles, RangesFrom, PerThread, Times;
    var n := |input|;
    RangesTileIff(n, threads);
    var t, at := 0, 0;
    ghost var tiled := n + threads - 1 < U32;
    while t < threads
      invariant 0 <= t <= threads && 0 <= at <= n
      invariant tiled ==> Tiles(RangesFrom(n, threads, t), at, n)
      invariant !tiled ==> RangesFrom(n, threads, t) == [] && at == 0
      invariant forall k :: 0 <= k < at ==> out[k] == f(input[k])
      invariant forall k :: at <= k < n ==> out[k] == []
      decreases threads - t
    {
      var r := RangeOf(n, threads, t);
      FirstRange(n, threads, t);
      if r.lo >= r.hi { break; }
      NextTile(n, threads, t, at);
      RunRange(input, f, r, out);
      at := r.hi;
      t := t + 1;
    }
    if tiled { NoMoreTiles(n, threads, t, at); }
  }

  method RunWorkers(input: seq<seq<byte>>, f: seq<byte> -> seq<byte>, hardware: nat) returns (results: seq<seq<byte>>)
    requires |input| < U32
    ensures results == Results(input, f, hardware)
  {
    var n, threads := |input|, ThreadCount(hardware, |input|);
    var out := new seq<byte>[n](_ => []);
    if threads <= 1 || n <= 2 {
      RunRange(input, f, Range(0, n), out);
    } else {
      RunRanges(input, f, threads, out);
    }
    results := out[..];
  }

  lemma FirstRange(n: nat, threads: nat, t: nat)
    requires t < threads
    ensures RangesFrom(n, threads, t) == [] <==> RangeOf(n, threads, t).lo >= RangeOf(n, threads, t).hi
  {
    hide RangeOf;
  }

  lemma NoMoreTiles(n: nat, threads: nat, t: nat, at: nat)
    requires 0 < threads && t <= threads && Tiles(RangesFrom(n, threads, t), at, n)
    requires t == threads || RangesFrom(n, threads, t) == []
    ensures at == n
  {
  }
}
