/** What a payload of path operations does to an object, whoever wrote it. */
module EventPaths {
  // Told by looking values up along paths: when `apply` of
  // mdc/src/mdc/events/codec.py refuses, what it changes, and what it leaves alone.

  import opened EventCodec
  import opened Outcomes

  /** The value at the end of `path`, if every key on the way leads on. */
  ghost function At(o: Fields, path: Path): Option<Json>
    requires |path| > 0
    decreases |path|, 0
  {
    if path[0] in o then Inside(o[path[0]], path[1..]) else None
  }

  /** The value `rest` further down from `j`. */
  ghost function Inside(j: Json, rest: Path): Option<Json>
    decreases |rest|, 1
  {
    if |rest| == 0 then Some(j) else if j.Obj? then At(j.fields, rest) else None
  }

  /** A proper prefix of the path, `k` keys long, ends in a value that has no keys, and
      is not null either. */
  ghost predicate StopsAt(o: Fields, path: Path, k: nat) {
    0 < k < |path| && At(o, path[..k]).Some? && At(o, path[..k]).value != Null && !At(o, path[..k]).value.Obj?
  }

  ghost predicate Blocked(o: Fields, path: Path) {
    exists k: nat :: StopsAt(o, path, k)
  }

  ghost predicate Apart(p: Path, q: Path) {
    !(p <= q) && !(q <= p)
  }

  // ------------------------------------------------------------ one step down

  lemma TailPrefix(path: Path, k: nat)
    requires 0 < k < |path|
    ensures path[..k + 1][0] == path[0] && path[..k + 1][1..] == path[1..][..k]
  {
  }

  lemma StopsDeeper(o: Fields, path: Path, k: nat)
    requires |path| > 1 && k > 1
    ensures StopsAt(o, path, k)
            <==> path[0] in o && o[path[0]].Obj? && StopsAt(o[path[0]].fields, path[1..], k - 1)
  {
    if k < |path| {
      TailPrefix(path, k - 1);
      assert At(o, path[..k]) == if path[0] in o then Inside(o[path[0]], path[1..][..k - 1]) else None;
    }
  }

  /** Where a path stops below its first key. */
  lemma StopsBelow(o: Fields, path: Path)
    requires |path| > 1
    ensures StopsAt(o, path, 1) <==> !Vacant(o, path[0]) && !o[path[0]].Obj?
    ensures Blocked(o, path)
            <==> !Vacant(o, path[0]) && (o[path[0]].Obj? ==> Blocked(o[path[0]].fields, path[1..]))
  {
    assert path[..1] == [path[0]] && path[..1][1..] == [];
    AtFirst(o, path[..1]);
    if StopsAt(o, path, 1) { BlockedAt(o, path, 1); }
    if path[0] in o && o[path[0]].Obj? && Blocked(o[path[0]].fields, path[1..]) {
      var k: nat :| StopsAt(o[path[0]].fields, path[1..], k);
      StopsDeeper(o, path, k + 1);
      assert StopsAt(o, path, k + 1);
    }
    if Blocked(o, path) {
      var k: nat :| StopsAt(o, path, k);
      if k > 1 {
        StopsDeeper(o, path, k);
        BlockedAt(o[path[0]].fields, path[1..], k - 1);
      }
    }
  }

  lemma BlockedAt(o: Fields, path: Path, k: nat)
    requires StopsAt(o, path, k)
    ensures Blocked(o, path)
  {
  }

  lemma HeadAndTail(p: Path, q: Path)
    requires |p| > 0 && |q| > 0
    ensures p <= q <==> p[0] == q[0] && p[1..] <= q[1..]
  {
    if p[0] == q[0] && p[1..] <= q[1..] {
      assert p == [p[0]] + p[1..];
      assert q == [q[0]] + q[1..];
    }
  }

  // ----------------------------------------------------------------- one set

  /** A set is refused exactly when a proper prefix of its path ends in a value that is
      neither an object nor null, and the refusal names the key that leads to it. */
  lemma {:induction false} SetRefusedIff(o: Fields, path: Path, value: Json)
    requires |path| > 0
    ensures SetAt(o, path, value).Err? <==> Blocked(o, path)
    ensures forall k: nat :: StopsAt(o, path, k) ==> SetAt(o, path, value) == Err(ThroughNonObject(path[k - 1]))
    decreases |path|
  {
    hide Blocked;
    if |path| == 1 {
      ShortPath(o, path);
    } else {
      StopsBelow(o, path);
      var child := if path[0] in o && o[path[0]].Obj? then o[path[0]].fields else map[];
      SetRefusedIff(child, path[1..], value);
      if Vacant(o, path[0]) { NothingBlocks(path[1..]); }
      forall k: nat | StopsAt(o, path, k) ensures SetAt(o, path, value) == Err(ThroughNonObject(path[k - 1])) {
        if k > 1 { StopsDeeper(o, path, k); }
      }
    }
  }

  lemma ShortPath(o: Fields, path: Path)
    requires |path| == 1
    ensures !Blocked(o, path)
  {
  }

  lemma NothingBlocks(path: Path)
    requires |path| > 0
    ensures !Blocked(map[], path)
  {
  }

  /** What an accepted set leaves at `q`: along the way an object, at and below the
      end the value, and anywhere else what was there. */
  ghost predicate SetLeaves(o: Fields, path: Path, value: Json, r: Fields, q: Path)
    requires |q| > 0
  {
    if path <= q then At(r, q) == Inside(value, q[|path|..])
    else if q <= path then At(r, q).Some? && At(r, q).value.Obj?
    else At(r, q) == At(o, q)
  }

  lemma {:induction false} SetEdits(o: Fields, path: Path, value: Json, q: Path)
    requires |path| > 0 && |q| > 0 && SetAt(o, path, value).Ok?
    ensures SetLeaves(o, path, value, SetAt(o, path, value).value, q)
    decreases |path|
  {
    hide At;
    var r := SetAt(o, path, value).value;
    AtFirst(o, q);
    AtFirst(r, q);
    HeadAndTail(path, q);
    HeadAndTail(q, path);
    if path[0] == q[0] && |path| == 1 {
      assert path[1..] == [] && q[1..] == q[|path|..];
    } else if path[0] == q[0] && |q| == 1 {
      assert q[1..] == [];
    } else if path[0] == q[0] {
      var child := if Vacant(o, path[0]) then map[] else o[path[0]].fields;
      SetEdits(child, path[1..], value, q[1..]);
      if path <= q { assert q[1..][|path[1..]|..] == q[|path|..]; }
      if Vacant(o, path[0]) { NothingThere(q[1..]); }
    }
  }

  lemma AtFirst(o: Fields, path: Path)
    requires |path| > 0
    ensures At(o, path) == if path[0] in o then Inside(o[path[0]], path[1..]) else None
  {
  }

  lemma NothingThere(path: Path)
    requires |path| > 0
    ensures At(map[], path) == None && Inside(Null, path) == None
  {
  }

  // --------------------------------------------------------------- one unset

  /** An unset is refused for the same reason. */
  lemma {:induction false} UnsetRefusedIff(o: Fields, path: Path)
    requires |path| > 0
    ensures UnsetAt(o, path).Err? <==> Blocked(o, path)
    ensures forall k: nat :: StopsAt(o, path, k) ==> UnsetAt(o, path) == Err(ThroughNonObject(path[k - 1]))
    decreases |path|
  {
    hide Blocked;
    if |path| == 1 {
      ShortPath(o, path);
    } else {
      StopsBelow(o, path);
      if path[0] in o && o[path[0]].Obj? { UnsetRefusedIff(o[path[0]].fields, path[1..]); }
      forall k: nat | StopsAt(o, path, k) ensures UnsetAt(o, path) == Err(ThroughNonObject(path[k - 1])) {
        if k > 1 { StopsDeeper(o, path, k); }
      }
    }
  }

  /** What an accepted unset leaves at `q`: nothing at and below the end, objects where
      objects were on the way, and anywhere else what was there. */
  ghost predicate UnsetLeaves(o: Fields, path: Path, r: Fields, q: Path)
    requires |q| > 0
  {
    if path <= q then At(r, q) == None
    else if q <= path && At(o, q).Some? && At(o, q).value.Obj? then At(r, q).Some? && At(r, q).value.Obj?
    else At(r, q) == At(o, q)
  }

  lemma {:induction false} UnsetEdits(o: Fields, path: Path, q: Path)
    requires |path| > 0 && |q| > 0 && UnsetAt(o, path).Ok?
    ensures UnsetLeaves(o, path, UnsetAt(o, path).value, q)
    ensures At(o, path) == None ==> UnsetAt(o, path).value == o
    decreases |path|
  {
    hide At;
    var r := UnsetAt(o, path).value;
    AtFirst(o, q);
    AtFirst(r, q);
    AtFirst(o, path);
    HeadAndTail(path, q);
    HeadAndTail(q, path);
    if |path| == 1 {
      assert path[1..] == [];
    } else if path[0] in o && o[path[0]].Obj? {
      var deeper := path[0] == q[0] && |q| > 1;
      UnsetEdits(o[path[0]].fields, path[1..], if deeper then q[1..] else path[1..]);
      if |q| == 1 { assert q[1..] == []; }
    } else if path <= q && path[0] in o {
      NothingThere(q[1..]);
    }
  }

  // ---------------------------------------------------------- whole payloads

  lemma OpRefusedIff(o: Fields, op: Op)
    requires |op.path| > 0
    ensures ApplyOp(o, op).Err? <==> Blocked(o, op.path)
  {
    hide SetAt, UnsetAt, Blocked;
    match op
    case Set(path, value) => SetRefusedIff(o, path, value);
    case Unset(path) => UnsetRefusedIff(o, path);
  }

  /** The operation that is refused: all before it are carried out, and its path is
      blocked then. */
  ghost predicate FailsAt(o: Fields, ops: seq<Op>, i: nat)
    requires Rooted(ops)
  {
    i < |ops| && ApplyOps(o, ops[..i]).Ok? && Blocked(ApplyOps(o, ops[..i]).value, ops[i].path)
  }

  lemma FailsLater(o: Fields, ops: seq<Op>, i: nat)
    requires Rooted(ops) && 0 < i < |ops| && ApplyOp(o, ops[0]).Ok?
    ensures FailsAt(o, ops, i) <==> FailsAt(ApplyOp(o, ops[0]).value, ops[1..], i - 1)
  {
    hide ApplyOp, Blocked;
    assert ops[..i][0] == ops[0] && ops[..i][1..] == ops[1..][..i - 1];
  }

  /** A list of operations is refused exactly when some operation is blocked once those
      before it are carried out. */
  lemma {:induction false} OpsRefusedIff(o: Fields, ops: seq<Op>)
    requires Rooted(ops)
    ensures ApplyOps(o, ops).Err? <==> exists i: nat :: FailsAt(o, ops, i)
    decreases |ops|
  {
    hide ApplyOp, Blocked, FailsAt;
    if |ops| > 0 {
      OpRefusedIff(o, ops[0]);
      assert FailsAt(o, ops, 0) <==> Blocked(o, ops[0].path) by { NoneBefore(o, ops); }
      if ApplyOp(o, ops[0]).Ok? {
        var next := ApplyOp(o, ops[0]).value;
        OpsRefusedIff(next, ops[1..]);
        if i: nat :| FailsAt(next, ops[1..], i) {
          FailsInside(next, ops[1..], i);
          FailsLater(o, ops, i + 1);
          assert FailsAt(o, ops, i + 1);
        }
        if i: nat :| FailsAt(o, ops, i) {
          FailsInside(o, ops, i);
          FailsLater(o, ops, i);
          assert FailsAt(next, ops[1..], i - 1);
        }
      }
    } else if i: nat :| FailsAt(o, ops, i) {
      FailsInside(o, ops, i);
    }
  }

  lemma FailsInside(o: Fields, ops: seq<Op>, i: nat)
    requires Rooted(ops) && FailsAt(o, ops, i)
    ensures i < |ops|
  {
  }

  lemma NoneBefore(o: Fields, ops: seq<Op>)
    requires Rooted(ops) && |ops| > 0
    ensures FailsAt(o, ops, 0) <==> Blocked(o, ops[0].path)
  {
    assert ops[..0] == [];
  }

  /** What one operation leaves at `q`. */
  ghost predicate Leaves(o: Fields, op: Op, r: Fields, q: Path)
    requires |q| > 0
  {
    match op
    case Set(path, value) => SetLeaves(o, path, value, r, q)
    case Unset(path) => UnsetLeaves(o, path, r, q)
  }

  lemma OpEdits(o: Fields, op: Op, q: Path)
    requires |op.path| > 0 && |q| > 0 && ApplyOp(o, op).Ok?
    ensures Leaves(o, op, ApplyOp(o, op).value, q)
  {
    hide SetAt, UnsetAt, At;
    match op
    case Set(path, value) => SetEdits(o, path, value, q);
    case Unset(path) => UnsetEdits(o, path, q);
  }

  /** Operations apart from a path leave what it leads to. */
  lemma {:induction false} OpsApart(o: Fields, ops: seq<Op>, q: Path)
    requires Rooted(ops) && |q| > 0 && ApplyOps(o, ops).Ok?
    requires AllApart(ops, q)
    ensures At(ApplyOps(o, ops).value, q) == At(o, q)
    decreases |ops|
  {
    hide ApplyOp, At;
    if |ops| > 0 {
      OpEdits(o, ops[0], q);
      OpsApart(ApplyOp(o, ops[0]).value, ops[1..], q);
    }
  }

  /** Operation `i` is the last one whose path is related to `q`, and is on `q` or a
      prefix of it. */
  ghost predicate LastAbove(ops: seq<Op>, i: nat, q: Path) {
    i < |ops| && ops[i].path <= q && forall j :: i < j < |ops| ==> Apart(ops[j].path, q)
  }

  ghost predicate AllApart(ops: seq<Op>, q: Path) {
    forall j :: 0 <= j < |ops| ==> Apart(ops[j].path, q)
  }

  /** What an operation on a prefix of `q` makes of `q`. */
  ghost function Outcome(op: Op, q: Path): Option<Json>
    requires op.path <= q
  {
    if op.Set? then Inside(op.value, q[|op.path|..]) else None
  }

  /** After an accepted payload the last operation on a path, or on a prefix of it, has
      decided what the path leads to: a value it set, or nothing. */
  lemma LastOpDecides(o: Fields, ops: seq<Op>, i: nat, q: Path)
    requires Rooted(ops) && |q| > 0 && ApplyOps(o, ops).Ok? && LastAbove(ops, i, q)
    ensures At(ApplyOps(o, ops).value, q) == Outcome(ops[i], q)
  {
    hide ApplyOp, At, ApplyOps, Inside;
    var before, from := ops[..i], ops[i..];
    assert ops == before + from;
    ApplyAppend(o, before, from);
    var mid := ApplyOps(o, before).value;
    FirstOf(mid, from);
    var next := ApplyOp(mid, ops[i]).value;
    OpEdits(mid, ops[i], q);
    forall j | 0 <= j < |from[1..]| ensures Apart(from[1..][j].path, q) { assert from[1..][j] == ops[i + 1 + j]; }
    OpsApart(next, from[1..], q);
  }

  lemma FirstOf(o: Fields, ops: seq<Op>)
    requires Rooted(ops) && |ops| > 0 && ApplyOps(o, ops).Ok?
    ensures ApplyOp(o, ops[0]).Ok? && ApplyOps(o, ops) == ApplyOps(ApplyOp(o, ops[0]).value, ops[1..])
  {
    hide ApplyOp;
  }

  // --------------------------------------------------------------- validation

  /** The JSON object `j` is the operation; other members of it do not matter. */
  ghost predicate Spells(j: Json, op: Op) {
    && j.Obj? && {"op", "path"} <= j.fields.Keys
    && j.fields["op"] == String(if op.Set? then "set" else "unset") && j.fields["path"] == PathJson(op.path)
    && (op.Set? ==> "value" in j.fields && j.fields["value"] == op.value)
  }

  /** A path of one to 32 non-empty keys. */
  ghost predicate Proper(path: Path) {
    0 < |path| <= MAX_PATH_DEPTH && forall i :: 0 <= i < |path| ==> path[i] != ""
  }

  lemma PathReads(p: Json, path: Path)
    ensures GoodPath(p) && ReadPath(p) == path
            <==> |path| > 0 && p == PathJson(path) && forall i :: 0 <= i < |path| ==> path[i] != ""
  {
    if GoodPath(p) && ReadPath(p) == path {
      assert p.items == PathJson(path).items;
    }
    if |path| > 0 && p == PathJson(path) && forall i :: 0 <= i < |path| ==> path[i] != "" {
      assert forall i :: 0 <= i < |path| ==> p.items[i] == String(path[i]);
      assert ReadPath(p) == path;
    }
  }

  lemma OpRead(j: Json, n: nat, op: Op)
    ensures ReadOp(j, n) == Ok(op) <==> Spells(j, op) && Proper(op.path)
  {
    hide GoodPath, PathJson;
    if j.Obj? && "path" in j.fields {
      PathReads(j.fields["path"], op.path);
    }
  }

  /** The items from `n` on spell the operations. */
  ghost predicate AllSpell(items: seq<Json>, n: nat, ops: seq<Op>) {
    |ops| + n == |items| && forall i :: 0 <= i < |ops| ==> Spells(items[n + i], ops[i])
  }

  ghost predicate AllProper(ops: seq<Op>) {
    forall i :: 0 <= i < |ops| ==> Proper(ops[i].path)
  }

  lemma {:induction false} ItemsRead(items: seq<Json>, n: nat, ops: seq<Op>)
    requires n <= |items|
    ensures ReadOps(items, n) == Ok(ops) <==> AllSpell(items, n, ops) && AllProper(ops)
    decreases |items| - n
  {
    hide ReadOp, Spells, Proper;
    if n < |items| {
      if |ops| > 0 {
        OpRead(items[n], n + 1, ops[0]);
        ItemsRead(items, n + 1, ops[1..]);
        assert ops == [ops[0]] + ops[1..];
        assert forall i :: 1 <= i < |ops| ==> ops[i] == ops[1..][i - 1];
      }
    }
  }

  /** Validation accepts exactly the lists whose every entry spells an operation with a
      proper path. */
  lemma ValidatedIff(payload: Json, ops: seq<Op>)
    ensures Validated(payload) == Ok(ops)
            <==> payload.List? && AllSpell(payload.items, 0, ops) && AllProper(ops)
  {
    hide AllSpell, AllProper, ReadOps;
    if payload.List? { ItemsRead(payload.items, 0, ops); }
  }

  lemma SpellsOnce(items: seq<Json>, xs: seq<Op>, ys: seq<Op>)
    requires AllSpell(items, 0, xs) && AllSpell(items, 0, ys)
    ensures xs == ys
  {
    hide Spells;
    forall i | 0 <= i < |xs| ensures xs[i] == ys[i] { OpOnce(items[0 + i], xs[i], ys[i]); }
  }

  lemma OpOnce(j: Json, x: Op, y: Op)
    requires Spells(j, x) && Spells(j, y)
    ensures x == y
  {
    PathOnce(x.path, y.path);
  }

  lemma PathOnce(p: Path, q: Path)
    requires PathJson(p) == PathJson(q)
    ensures p == q
  {
    forall i | 0 <= i < |p| ensures p[i] == q[i] {
      assert PathJson(p).items[i] == String(p[i]) && PathJson(q).items[i] == String(q[i]);
    }
  }

  lemma ProperRooted(ops: seq<Op>)
    requires AllProper(ops)
    ensures Rooted(ops)
  {
  }

  lemma ApplyIsOps(state: Fields, payload: Json, ops: seq<Op>)
    requires payload.List? && AllSpell(payload.items, 0, ops)
    ensures AllProper(ops) ==> Rooted(ops) && Apply(state, payload) == ApplyOps(state, ops)
    ensures !AllProper(ops) ==> Apply(state, payload).Err?
  {
    hide ApplyOps, Validated, AllSpell, AllProper;
    ValidatedIff(payload, ops);
    if AllProper(ops) { ProperRooted(ops); }
    var read := Validated(payload);
    if read.Ok? {
      ValidatedIff(payload, read.value);
      SpellsOnce(payload.items, ops, read.value);
    }
  }

  /** `apply` on any JSON value, told by look-ups: the payload has to spell proper
      operations, none of them blocked in its turn; then each path leads where the
      last operation above it says, or where it led before. */
  lemma ApplyExact(state: Fields, payload: Json, ops: seq<Op>)
    requires payload.List? && AllSpell(payload.items, 0, ops)
    ensures Apply(state, payload).Ok? <==> AllProper(ops) && Rooted(ops) && !exists i: nat :: FailsAt(state, ops, i)
    ensures Apply(state, payload).Ok?
            ==> forall q: Path, i: nat :: |q| > 0 && LastAbove(ops, i, q)
                  ==> At(Apply(state, payload).value, q) == Outcome(ops[i], q)
    ensures Apply(state, payload).Ok?
            ==> forall q: Path :: |q| > 0 && AllApart(ops, q) ==> At(Apply(state, payload).value, q) == At(state, q)
  {
    hide At, Inside, ApplyOps, FailsAt, Apply, AllSpell, AllProper, Outcome;
    ApplyIsOps(state, payload, ops);
    if Rooted(ops) { OpsRefusedIff(state, ops); }
    if Apply(state, payload).Ok? {
      forall q: Path, i: nat | |q| > 0 && LastAbove(ops, i, q)
        ensures At(Apply(state, payload).value, q) == Outcome(ops[i], q)
      {
        LastOpDecides(state, ops, i, q);
      }
      forall q: Path | |q| > 0 && AllApart(ops, q) ensures At(Apply(state, payload).value, q) == At(state, q) {
        OpsApart(state, ops, q);
      }
    }
  }

  /** Anything else is refused. */
  lemma UnspelledRefused(state: Fields, payload: Json)
    requires Apply(state, payload).Ok?
    ensures payload.List? && exists ops :: AllSpell(payload.items, 0, ops)
  {
    hide ApplyOps, AllSpell, AllProper, Validated;
    ValidatedIff(payload, Validated(payload).value);
  }
}
