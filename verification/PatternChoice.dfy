/** Which patterns the genome takes, and which one replaces the bytes at a place
    (src/pattern_codec.cpp). */
module PatternChoice {
  // Whatever order the hash map lists the counted patterns in, and equal savings sort
  // to, the genome has the patterns that save most; and the longest one that matches
  // is used.

  import opened Bytes
  import opened FrequencyTable
  import opened PatternCodec

  // ------------------------------------------------------------------- selection

  const SAMPLE := 256 * 1024
  const LEAST_COUNT := 4

  /** At how many places of `data` the pattern stands, overlaps included. */
  ghost function Occurrences(data: seq<byte>, p: seq<byte>): nat
  {
    if |data| < |p| || |data| == 0 then 0
    else Occurrences(data[1..], p) + if data[..|p|] == p then 1 else 0
  }

  /** What replacing every occurrence by two bytes would save. */
  ghost function Savings(c: Candidate): int {
    c.freq * (|c.pattern| - 2)
  }

  ghost function Sampled(data: seq<byte>): seq<byte> {
    data[..Min(|data|, SAMPLE)]
  }

  /** A pattern that is counted: two to eight bytes, four times or more in the sample. */
  ghost predicate Frequent(data: seq<byte>, p: seq<byte>) {
    2 <= |p| <= MAX_PATTERN && Occurrences(Sampled(data), p) >= LEAST_COUNT
  }

  ghost function CandidateOf(data: seq<byte>, p: seq<byte>): Candidate {
    Candidate(p, Occurrences(Sampled(data), p))
  }

  /** The candidates as they come out of counting and sorting. */
  ghost predicate Counted(data: seq<byte>, cs: seq<Candidate>) {
    && (forall i :: 0 <= i < |cs| ==> Frequent(data, cs[i].pattern) && cs[i] == CandidateOf(data, cs[i].pattern))
    && (forall p :: Frequent(data, p) ==> CandidateOf(data, p) in cs)
    && (forall i, j :: 0 <= i < j < |cs| ==> cs[i].pattern != cs[j].pattern)
    && forall i, j :: 0 <= i < j < |cs| ==> Savings(cs[i]) >= Savings(cs[j])
  }

  ghost predicate Holds(es: seq<Entry>, p: seq<byte>) {
    exists e :: 0 <= e < |es| && es[e].pattern == p
  }

  /** The entries are the worthwhile candidates, in order. */
  ghost predicate Selected(cs: seq<Candidate>, es: seq<Entry>, at: seq<nat>) {
    && |at| == |es|
    && (forall e :: 0 <= e < |es| ==> at[e] < |cs| && Worthwhile(cs[at[e]]) && es[e].pattern == cs[at[e]].pattern)
    && (forall d, e :: 0 <= d < e < |es| ==> at[d] < at[e])
    && forall i :: 0 <= i < |cs| && Worthwhile(cs[i]) ==> Picked(at, i)
  }

  ghost predicate Picked(at: seq<nat>, i: nat) {
    exists e :: 0 <= e < |at| && at[e] == i
  }

  lemma PickedMore(at: seq<nat>, n: nat, i: nat)
    ensures Picked(at, i) || i == n ==> Picked(at + [n], i)
  {
    if Picked(at, i) {
      var e :| 0 <= e < |at| && at[e] == i;
      assert (at + [n])[e] == i;
    } else {
      assert (at + [n])[|at|] == n;
    }
  }

  lemma {:induction false} SelectKeeps(cs: seq<Candidate>) returns (at: seq<nat>)
    requires |cs| <= MAX_ENTRIES
    ensures Selected(cs, Select(cs), at)
  {
    if |cs| == 0 {
      at := [];
    } else {
      var n := |cs| - 1;
      at := SelectKeeps(cs[..n]);
      OneMoreSelected(cs, Select(cs[..n]), at);
      if Worthwhile(cs[n]) { at := at + [n]; }
    }
  }

  lemma OneMoreSelected(cs: seq<Candidate>, es: seq<Entry>, at: seq<nat>)
    requires |cs| > 0 && |es| < MAX_ENTRIES && Selected(cs[..|cs| - 1], es, at)
    ensures var n := |cs| - 1;
            if Worthwhile(cs[n]) then Selected(cs, es + [Entry(cs[n].pattern, |es|)], at + [n])
            else Selected(cs, es, at)
  {
    hide Worthwhile, Picked;
    var n := |cs| - 1;
    assert forall i :: 0 <= i < n ==> cs[..n][i] == cs[i];
    forall i: nat ensures Picked(at, i) || i == n ==> Picked(at + [n], i) { PickedMore(at, n, i); }
  }

  lemma WorthwhileHeld(cs: seq<Candidate>, es: seq<Entry>, at: seq<nat>, i: nat)
    requires Selected(cs, es, at) && i < |cs| && Worthwhile(cs[i])
    ensures Holds(es, cs[i].pattern)
  {
    assert Picked(at, i);
    var e :| 0 <= e < |at| && at[e] == i;
    assert es[e].pattern == cs[i].pattern;
  }

  /** When every candidate is worthwhile all are taken. */
  lemma {:induction false} SelectAll(cs: seq<Candidate>)
    requires |cs| <= MAX_ENTRIES && forall i :: 0 <= i < |cs| ==> Worthwhile(cs[i])
    ensures |Select(cs)| == |cs|
  {
    if |cs| > 0 { SelectAll(cs[..|cs| - 1]); }
  }

  lemma SavesSomething(c: Candidate)
    requires c.freq >= LEAST_COUNT && 2 <= |c.pattern| <= MAX_PATTERN
    ensures Savings(c) > 0 <==> Worthwhile(c)
  {
    if |c.pattern| > 2 { MulLe(c.freq, 1, |c.pattern| - 2); }
  }

  lemma Placed(data: seq<byte>, cs: seq<Candidate>, p: seq<byte>) returns (i: nat)
    requires Counted(data, cs) && Frequent(data, p)
    ensures i < |cs| && cs[i] == CandidateOf(data, p)
  {
    assert CandidateOf(data, p) in cs;
    i :| 0 <= i < |cs| && cs[i] == CandidateOf(data, p);
  }

  /** A frequent pattern of more than two bytes that the genome does not have: then the
      genome is full, of patterns that save at least as much. */
  lemma LeftOut(data: seq<byte>, cs: seq<Candidate>, p: seq<byte>)
    requires 4 <= |data| && Counted(data, cs) && Frequent(data, p) && |p| > 2
    requires !Holds(BuildGenome(data, cs).entries, p)
    ensures var es := BuildGenome(data, cs).entries;
            && |es| == MAX_ENTRIES
            && forall e :: 0 <= e < |es| ==> Savings(CandidateOf(data, es[e].pattern)) >= Savings(CandidateOf(data, p))
  {
    hide Frequent, Occurrences, Savings, Select;
    var limit := if |cs| < MAX_ENTRIES then |cs| else MAX_ENTRIES;
    var best, es := cs[..limit], BuildGenome(data, cs).entries;
    assert es == Select(best);
    var i := Placed(data, cs, p);
    CountedWorthwhile(data, cs, i);
    var at := SelectKeeps(best);
    if i < limit { WorthwhileHeld(best, es, at, i); }
    forall j | 0 <= j < limit ensures Worthwhile(best[j]) && Savings(best[j]) >= Savings(cs[i]) {
      CountedWorthwhile(data, cs, j);
    }
    SelectAll(best);
    forall e | 0 <= e < |es| ensures Savings(CandidateOf(data, es[e].pattern)) >= Savings(CandidateOf(data, p)) {
      assert best[at[e]] == cs[at[e]] == CandidateOf(data, es[e].pattern);
    }
  }

  lemma CountedWorthwhile(data: seq<byte>, cs: seq<Candidate>, i: nat)
    requires Counted(data, cs) && i < |cs|
    ensures Savings(cs[i]) > 0 <==> Worthwhile(cs[i])
    ensures |cs[i].pattern| > 2 ==> Worthwhile(cs[i])
  {
    hide Occurrences, Savings, CandidateOf;
    assert Frequent(data, cs[i].pattern) && cs[i].freq >= LEAST_COUNT by { CandidateCount(data, cs[i].pattern); }
    SavesSomething(cs[i]);
  }

  lemma CandidateCount(data: seq<byte>, p: seq<byte>)
    requires Frequent(data, p)
    ensures CandidateOf(data, p).freq >= LEAST_COUNT
  {
  }

  /** The genome has different patterns of three to eight bytes that stand four times or
      more in the sample, coded by how much they save; and no pattern outside saves
      more than one inside, unless there is room for all. */
  lemma GenomeTakesBest(data: seq<byte>, cs: seq<Candidate>)
    requires 4 <= |data| && Counted(data, cs)
    ensures var es := BuildGenome(data, cs).entries;
            && (forall e :: 0 <= e < |es| ==> es[e].code == e && Frequent(data, es[e].pattern) && |es[e].pattern| > 2)
            && (forall d, e :: 0 <= d < e < |es| ==>
                  && es[d].pattern != es[e].pattern
                  && Savings(CandidateOf(data, es[d].pattern)) >= Savings(CandidateOf(data, es[e].pattern)))
            && forall p :: Frequent(data, p) && |p| > 2 && !Holds(es, p) ==>
                 && |es| == MAX_ENTRIES
                 && forall e :: 0 <= e < |es| ==>
                      Savings(CandidateOf(data, es[e].pattern)) >= Savings(CandidateOf(data, p))
  {
    hide Frequent, Occurrences, Savings, Select, CandidateOf;
    var limit := if |cs| < MAX_ENTRIES then |cs| else MAX_ENTRIES;
    var best, es := cs[..limit], BuildGenome(data, cs).entries;
    assert es == Select(best);
    var at := SelectKeeps(best);
    SelectCodes(best);
    forall e | 0 <= e < |es| ensures cs[at[e]] == CandidateOf(data, es[e].pattern) { assert best[at[e]] == cs[at[e]]; }
    forall p | Frequent(data, p) && |p| > 2 && !Holds(es, p)
      ensures |es| == MAX_ENTRIES
              && forall e :: 0 <= e < |es| ==>
                   Savings(CandidateOf(data, es[e].pattern)) >= Savings(CandidateOf(data, p))
    {
      LeftOut(data, cs, p);
    }
  }

  lemma {:induction false} SelectCodes(cs: seq<Candidate>)
    requires |cs| <= MAX_ENTRIES
    ensures forall e :: 0 <= e < |Select(cs)| ==> Select(cs)[e].code == e
  {
    if |cs| > 0 { SelectCodes(cs[..|cs| - 1]); }
  }

  // -------------------------------------------------------------------- matching

  ghost predicate MatchesAt(data: seq<byte>, i: nat, p: seq<byte>) {
    2 <= |p| && i + |p| <= |data| && data[i..i + |p|] == p
  }

  /** No two different patterns of one length share a hash. */
  ghost predicate Apart(g: Genome, hash: seq<byte> -> nat) {
    forall d, e :: 0 <= d < |g.entries| && 0 <= e < |g.entries|
      && |g.entries[d].pattern| == |g.entries[e].pattern| && hash(g.entries[d].pattern) == hash(g.entries[e].pattern)
      ==> g.entries[d].pattern == g.entries[e].pattern
  }

  lemma {:induction false} SlotFound(g: Genome, hash: seq<byte> -> nat, k: nat, n: nat)
    requires k < n <= |g.entries|
    ensures var p := g.entries[k].pattern;
            var e := Slot(g, hash, |p|, hash(p), n);
            e >= k && hash(g.entries[e].pattern) == hash(p)
  {
    if k < n - 1 { SlotFound(g, hash, k, n - 1); }
  }

  lemma {:induction false} LongestIsLongest(g: Genome, k: nat, n: nat)
    requires k < n <= |g.entries|
    ensures |g.entries[k].pattern| <= LongestPattern(g, n)
  {
    if k < n - 1 { LongestIsLongest(g, k, n - 1); }
  }

  lemma {:induction false} MatchIsLongest(g: Genome, hash: seq<byte> -> nat, data: seq<byte>, i: nat, len: nat, k: nat)
    requires i <= |data| && Apart(g, hash) && k < |g.entries| && |g.entries[k].pattern| <= len
    requires MatchesAt(data, i, g.entries[k].pattern)
    ensures var e := MatchAt(g, hash, data, i, len);
            e >= 0 && |g.entries[e].pattern| >= |g.entries[k].pattern|
    decreases len
  {
    hide Slot;
    var p := g.entries[k].pattern;
    if i + len <= |data| {
      var e := Slot(g, hash, len, hash(data[i..i + len]), |g.entries|);
      if len == |p| {
        SlotFound(g, hash, k, |g.entries|);
      } else if !(e >= 0 && data[i..i + len] == g.entries[e].pattern) {
        MatchIsLongest(g, hash, data, i, len - 1, k);
      }
    } else {
      MatchIsLongest(g, hash, data, i, len - 1, k);
    }
  }

  /** At every place the longest pattern of the genome that matches there is replaced,
      if any does, as long as the lookup hash tells the patterns apart. */
  lemma EntryIsLongest(g: Genome, hash: seq<byte> -> nat, data: seq<byte>, i: nat, k: nat)
    requires i < |data| && Apart(g, hash) && k < |g.entries| && MatchesAt(data, i, g.entries[k].pattern)
    ensures var e := EntryFor(g, hash, data, i);
            && e >= 0 && MatchesAt(data, i, g.entries[e].pattern)
            && |g.entries[e].pattern| >= |g.entries[k].pattern|
  {
    LongestIsLongest(g, k, |g.entries|);
    MatchIsLongest(g, hash, data, i, LongestPattern(g, |g.entries|), k);
  }
}
