/** How a change of state is written down and replayed. */
module EventCodec {
  // The path-ops codec (mdc/src/mdc/events/codec.py): objects are edited key by
  // key, anything else is replaced whole.

  import opened Listings
  import opened Outcomes
  import Bytes

  /** JSON values. A number is kept as its text, so 1, 1.0 and true differ, as
      `same_json` wants; equality here is that comparison. */
  datatype Json =
    | Null
    | Bool(b: bool)
    | Number(text: string)
    | String(s: string)
    | List(items: seq<Json>)
    | Obj(fields: Fields)

  type Fields = map<string, Json>

  type Path = seq<string>

  const MAX_PATH_DEPTH := 32

  datatype Op = Set(path: Path, value: Json) | Unset(path: Path)

  datatype PayloadError =
    | NotAList
    | BadOperation(n: nat)
    | BadPath(n: nat)
    | TooDeep(n: nat)
    | MissingValue(n: nat)
    | ThroughNonObject(key: string)

  // ----------------------------------------------------------------- payloads

  function PathJson(p: Path): Json {
    List(seq(|p|, i requires 0 <= i < |p| => String(p[i])))
  }

  function OpJson(op: Op): Json {
    match op
    case Set(path, value) => Obj(map["op" := String("set"), "path" := PathJson(path), "value" := value])
    case Unset(path) => Obj(map["op" := String("unset"), "path" := PathJson(path)])
  }

  /** The payload as it is recorded. */
  function Payload(ops: seq<Op>): Json {
    List(seq(|ops|, i requires 0 <= i < |ops| => OpJson(ops[i])))
  }

  predicate GoodPath(p: Json) {
    p.List? && |p.items| > 0 && forall i :: 0 <= i < |p.items| ==> p.items[i].String? && p.items[i].s != ""
  }

  function ReadPath(p: Json): (path: Path)
    requires GoodPath(p)
    ensures |path| == |p.items| && forall i :: 0 <= i < |path| ==> path[i] == p.items[i].s
  {
    seq(|p.items|, i requires 0 <= i < |p.items| => p.items[i].s)
  }

  /** `validate` on operation number `n`. */
  function ReadOp(j: Json, n: nat): Result<Op, PayloadError> {
    if !j.Obj? || "op" !in j.fields || (j.fields["op"] != String("set") && j.fields["op"] != String("unset"))
    then Err(BadOperation(n))
    else if "path" !in j.fields || !GoodPath(j.fields["path"]) then Err(BadPath(n))
    else if |j.fields["path"].items| > MAX_PATH_DEPTH then Err(TooDeep(n))
    else if j.fields["op"] == String("unset") then Ok(Unset(ReadPath(j.fields["path"])))
    else if "value" !in j.fields then Err(MissingValue(n))
    else Ok(Set(ReadPath(j.fields["path"]), j.fields["value"]))
  }

  function ReadOps(items: seq<Json>, n: nat): Result<seq<Op>, PayloadError>
    requires n <= |items|
    decreases |items| - n
  {
    if n == |items| then Ok([])
    else
      var op :- ReadOp(items[n], n + 1);
      var rest :- ReadOps(items, n + 1);
      Ok([op] + rest)
  }

  /** `validate`. */
  function Validated(payload: Json): Result<seq<Op>, PayloadError> {
    if !payload.List? then Err(NotAList) else ReadOps(payload.items, 0)
  }

  // ----------------------------------------------------------------- applying

  /** A missing child and a null child are both nothing. */
  predicate Vacant(o: Fields, key: string) {
    key !in o || o[key] == Null
  }

  function SetAt(o: Fields, path: Path, value: Json): Result<Fields, PayloadError>
    requires |path| > 0
    decreases |path|
  {
    if |path| == 1 then Ok(o[path[0] := value])
    else if !Vacant(o, path[0]) && !o[path[0]].Obj? then Err(ThroughNonObject(path[0]))
    else
      var child := if Vacant(o, path[0]) then map[] else o[path[0]].fields;
      var r :- SetAt(child, path[1..], value);
      Ok(o[path[0] := Obj(r)])
  }

  function UnsetAt(o: Fields, path: Path): Result<Fields, PayloadError>
    requires |path| > 0
    decreases |path|
  {
    if |path| == 1 then Ok(o - {path[0]})
    else if Vacant(o, path[0]) then Ok(o)
    else if !o[path[0]].Obj? then Err(ThroughNonObject(path[0]))
    else
      var r :- UnsetAt(o[path[0]].fields, path[1..]);
      Ok(o[path[0] := Obj(r)])
  }

  function ApplyOp(o: Fields, op: Op): Result<Fields, PayloadError>
    requires |op.path| > 0
  {
    match op
    case Set(path, value) => SetAt(o, path, value)
    case Unset(path) => UnsetAt(o, path)
  }

  ghost predicate Rooted(ops: seq<Op>) {
    forall i :: 0 <= i < |ops| ==> |ops[i].path| > 0
  }

  function ApplyOps(o: Fields, ops: seq<Op>): Result<Fields, PayloadError>
    requires Rooted(ops)
    decreases |ops|
  {
    if |ops| == 0 then Ok(o)
    else
      var r :- ApplyOp(o, ops[0]);
      ApplyOps(r, ops[1..])
  }

  lemma {:induction false} ReadOpsRooted(items: seq<Json>, n: nat)
    requires n <= |items|
    ensures ReadOps(items, n).Ok? ==> Rooted(ReadOps(items, n).value)
    decreases |items| - n
  {
    hide ReadOp;
    if n < |items| {
      ReadOpRooted(items[n], n + 1);
      ReadOpsRooted(items, n + 1);
    }
  }

  lemma ReadOpRooted(j: Json, n: nat)
    ensures ReadOp(j, n).Ok? ==> |ReadOp(j, n).value.path| > 0
  {
  }

  /** `apply`. */
  function Apply(state: Fields, payload: Json): Result<Fields, PayloadError> {
    var ops :- Validated(payload);
    ReadOpsRooted(payload.items, 0);
    ApplyOps(state, ops)
  }

  // ------------------------------------------------------------------- diffing

  /** The order in which the keys of each object come up: any order, and its own
      for each place (path, and old or new side). */
  type Order = f: (Path, bool, set<string>) -> seq<string> | forall p, side, s :: Lists(f(p, side, s), s)
    ghost witness (p, side, s) => Listing(s)

  function Under(key: string, op: Op): Op {
    match op
    case Set(path, value) => Set([key] + path, value)
    case Unset(path) => Unset([key] + path)
  }

  function AllUnder(key: string, ops: seq<Op>): (r: seq<Op>)
    ensures |r| == |ops|
  {
    seq(|ops|, i requires 0 <= i < |ops| => Under(key, ops[i]))
  }

  /** The changes below one key of the new object, relative to the object. */
  function KeyOps(before: Fields, after: Fields, path: Path, order: Order, key: string): seq<Op>
    requires key in after
    decreases Obj(after), 0
  {
    if key !in before then [Set([key], after[key])]
    else if before[key].Obj? && after[key].Obj? then AllUnder(key, DiffOps(before[key].fields, after[key].fields, path + [key], order))
    else if before[key] != after[key] then [Set([key], after[key])]
    else []
  }

  function ChangedOps(before: Fields, after: Fields, path: Path, order: Order, keys: seq<string>): seq<Op>
    requires forall k :: k in keys ==> k in after
    decreases Obj(after), 1, |keys|
  {
    if |keys| == 0 then []
    else KeyOps(before, after, path, order, keys[0]) + ChangedOps(before, after, path, order, keys[1..])
  }

  function RemovedOps(after: Fields, keys: seq<string>): seq<Op>
    decreases |keys|
  {
    if |keys| == 0 then []
    else (if keys[0] in after then [] else [Unset([keys[0]])]) + RemovedOps(after, keys[1..])
  }

  /** `diff`, with paths relative to the place `path`. */
  function DiffOps(before: Fields, after: Fields, path: Path, order: Order): seq<Op>
    decreases Obj(after), 2
  {
    ChangedOps(before, after, path, order, order(path, true, after.Keys))
      + RemovedOps(after, order(path, false, before.Keys))
  }

  /** `diff`. */
  function Diff(before: Fields, after: Fields, order: Order): seq<Op> {
    DiffOps(before, after, [], order)
  }

  // ------------------------------------------------------ applying what differs

  lemma {:induction false} ApplyAppend(o: Fields, xs: seq<Op>, ys: seq<Op>)
    requires Rooted(xs) && Rooted(ys)
    ensures Rooted(xs + ys)
    ensures ApplyOps(o, xs + ys) == if ApplyOps(o, xs).Err? then ApplyOps(o, xs) else ApplyOps(ApplyOps(o, xs).value, ys)
    decreases |xs|
  {
    hide ApplyOp;
    if |xs| == 0 {
      assert xs + ys == ys;
    } else {
      assert (xs + ys)[1..] == xs[1..] + ys;
      if ApplyOp(o, xs[0]).Ok? { ApplyAppend(ApplyOp(o, xs[0]).value, xs[1..], ys); }
    }
  }

  /** Operations below one key edit the object there and nothing else. */
  lemma {:induction false} ApplyUnder(o: Fields, key: string, ops: seq<Op>)
    requires Rooted(ops) && key in o && o[key].Obj? && ApplyOps(o[key].fields, ops).Ok?
    ensures Rooted(AllUnder(key, ops))
    ensures ApplyOps(o, AllUnder(key, ops)) == Ok(o[key := Obj(ApplyOps(o[key].fields, ops).value)])
    decreases |ops|
  {
    if |ops| == 0 {
      assert o[key := o[key]] == o;
    } else {
      var c := ApplyOp(o[key].fields, ops[0]).value;
      UnderOne(o, key, ops[0]);
      var o1 := o[key := Obj(c)];
      ApplyUnder(o1, key, ops[1..]);
      assert AllUnder(key, ops)[1..] == AllUnder(key, ops[1..]);
      var r := ApplyOps(c, ops[1..]).value;
      assert o1[key := Obj(r)] == o[key := Obj(r)];
    }
  }

  lemma UnderOne(o: Fields, key: string, op: Op)
    requires |op.path| > 0 && key in o && o[key].Obj? && ApplyOp(o[key].fields, op).Ok?
    ensures ApplyOp(o, Under(key, op)) == Ok(o[key := Obj(ApplyOp(o[key].fields, op).value)])
  {
    assert ([key] + op.path)[1..] == op.path;
  }

  lemma {:induction false} KeyApplies(o: Fields, before: Fields, after: Fields, path: Path, order: Order, key: string)
    requires key in after && (key in o <==> key in before) && (key in o ==> o[key] == before[key])
    ensures Rooted(KeyOps(before, after, path, order, key))
    ensures ApplyOps(o, KeyOps(before, after, path, order, key)) == Ok(o[key := after[key]])
    decreases Obj(after), 0
  {
    if key !in before || !(before[key].Obj? && after[key].Obj?) {
      hide DiffOps;
      if key in before && before[key] == after[key] { assert o[key := after[key]] == o; }
    } else {
      DiffApplies(before[key].fields, after[key].fields, path + [key], order);
      ApplyUnder(o, key, DiffOps(before[key].fields, after[key].fields, path + [key], order));
    }
  }

  /** `before` with the keys already dealt with as they are in `after`. */
  ghost function Merged(before: Fields, after: Fields, dealt: set<string>): Fields
    requires dealt <= after.Keys
  {
    map k | k in before.Keys + dealt :: if k in dealt then after[k] else before[k]
  }

  lemma {:induction false} ChangesApply(before: Fields, after: Fields, path: Path, order: Order, keys: seq<string>,
                                        dealt: set<string>)
    requires (forall k :: k in keys ==> k in after && k !in dealt) && dealt <= after.Keys
    requires forall i, j :: 0 <= i < j < |keys| ==> keys[i] != keys[j]
    ensures Rooted(ChangedOps(before, after, path, order, keys))
    ensures ApplyOps(Merged(before, after, dealt), ChangedOps(before, after, path, order, keys))
            == Ok(Merged(before, after, dealt + (set k | k in keys)))
    decreases Obj(after), 1, |keys|
  {
    hide KeyOps, ApplyOp;
    if |keys| == 0 {
      assert dealt + (set k | k in keys) == dealt;
    } else {
      var o, key, rest := Merged(before, after, dealt), keys[0], keys[1..];
      assert key in keys && forall k :: k in rest ==> k in keys;
      KeyApplies(o, before, after, path, order, key);
      var o1 := Merged(before, after, dealt + {key});
      assert o[key := after[key]] == o1;
      ChangesApply(before, after, path, order, rest, dealt + {key});
      ApplyAppend(o, KeyOps(before, after, path, order, key), ChangedOps(before, after, path, order, rest));
      assert dealt + {key} + (set k | k in rest) == dealt + (set k | k in keys) by {
        assert keys == [key] + rest;
      }
    }
  }

  ghost function Gone(after: Fields, keys: seq<string>): set<string> {
    set k | k in keys && k !in after
  }

  lemma GoneStep(after: Fields, key: string, rest: seq<string>)
    ensures Gone(after, [key] + rest) == if key in after then Gone(after, rest) else {key} + Gone(after, rest)
  {
  }

  lemma RemoveTwice(o: Fields, key: string, gone: set<string>)
    ensures o - {key} - gone == o - ({key} + gone)
  {
  }

  lemma {:induction false} RemovalsApply(o: Fields, after: Fields, keys: seq<string>)
    ensures Rooted(RemovedOps(after, keys))
    ensures ApplyOps(o, RemovedOps(after, keys)) == Ok(o - Gone(after, keys))
    decreases |keys|
  {
    hide Gone;
    if |keys| == 0 {
      assert Gone(after, []) == {} && o - {} == o by { NoneGone(after); }
    } else {
      var key, rest := keys[0], keys[1..];
      assert keys == [key] + rest;
      GoneStep(after, key, rest);
      if key in after {
        RemovalsApply(o, after, rest);
        assert RemovedOps(after, keys) == RemovedOps(after, rest);
      } else {
        RemovalsApply(o - {key}, after, rest);
        RemoveTwice(o, key, Gone(after, rest));
        assert RemovedOps(after, keys)[1..] == RemovedOps(after, rest);
      }
    }
  }

  lemma NoneGone(after: Fields)
    ensures Gone(after, []) == {}
  {
  }

  lemma {:induction false} DiffApplies(before: Fields, after: Fields, path: Path, order: Order)
    ensures Rooted(DiffOps(before, after, path, order))
    ensures ApplyOps(before, DiffOps(before, after, path, order)) == Ok(after)
    decreases Obj(after), 2
  {
    hide ChangedOps, RemovedOps, ApplyOps;
    var news, olds := order(path, true, after.Keys), order(path, false, before.Keys);
    assert Lists(news, after.Keys) && Lists(olds, before.Keys);
    ChangesApply(before, after, path, order, news, {});
    assert Merged(before, after, {}) == before;
    assert {} + (set k | k in news) == after.Keys;
    var o := Merged(before, after, after.Keys);
    RemovalsApply(o, after, olds);
    ApplyAppend(before, ChangedOps(before, after, path, order, news), RemovedOps(after, olds));
    assert o - Gone(after, olds) == after;
  }

  // ---------------------------------------------------------------- round trip

  /** A path of at most `depth` keys, none of them empty. */
  predicate Fits(op: Op, depth: nat) {
    0 < |op.path| <= depth && forall i :: 0 <= i < |op.path| ==> op.path[i] != ""
  }

  /** What `validate` asks of the paths of a payload. */
  predicate Acceptable(op: Op) {
    Fits(op, MAX_PATH_DEPTH)
  }

  lemma OpReadsBack(op: Op, n: nat)
    ensures ReadOp(OpJson(op), n) == Ok(op) <==> Acceptable(op)
    ensures ReadOp(OpJson(op), n).Ok? ==> ReadOp(OpJson(op), n) == Ok(op)
  {
    var p := PathJson(op.path);
    if Acceptable(op) {
      assert GoodPath(p) && ReadPath(p) == op.path;
    } else if GoodPath(p) {
      forall i | 0 <= i < |op.path| ensures op.path[i] != "" { assert p.items[i].s != ""; }
    }
  }

  lemma {:induction false} OpsReadBack(ops: seq<Op>, n: nat)
    requires n <= |ops|
    ensures ReadOps(Payload(ops).items, n).Ok? <==> forall i :: n <= i < |ops| ==> Acceptable(ops[i])
    ensures ReadOps(Payload(ops).items, n).Ok? ==> ReadOps(Payload(ops).items, n) == Ok(ops[n..])
    decreases |ops| - n
  {
    hide ReadOp, OpJson, Acceptable;
    if n < |ops| {
      var items := Payload(ops).items;
      assert items[n] == OpJson(ops[n]);
      OpReadsBack(ops[n], n + 1);
      OpsReadBack(ops, n + 1);
      assert ops[n..] == [ops[n]] + ops[n + 1..];
    } else {
      assert ops[n..] == [];
    }
  }

  lemma {:induction false} KeyUnchanged(before: Fields, after: Fields, path: Path, order: Order, key: string)
    requires key in after
    ensures KeyOps(before, after, path, order, key) == [] <==> key in before && before[key] == after[key]
    decreases Obj(after), 0
  {
    if key in before && before[key].Obj? && after[key].Obj? {
      hide DiffOps;
      DiffEmptyAt(before[key].fields, after[key].fields, path + [key], order);
    }
  }

  lemma {:induction false} KeysUnchanged(before: Fields, after: Fields, path: Path, order: Order, keys: seq<string>)
    requires forall k :: k in keys ==> k in after
    ensures ChangedOps(before, after, path, order, keys) == [] <==> forall k :: k in keys ==> k in before && before[k] == after[k]
    decreases Obj(after), 1, |keys|
  {
    hide KeyOps;
    if |keys| > 0 {
      KeyUnchanged(before, after, path, order, keys[0]);
      KeysUnchanged(before, after, path, order, keys[1..]);
      assert keys == [keys[0]] + keys[1..];
    }
  }

  lemma {:induction false} NothingRemoved(after: Fields, keys: seq<string>)
    ensures RemovedOps(after, keys) == [] <==> forall k :: k in keys ==> k in after
    decreases |keys|
  {
    if |keys| > 0 {
      NothingRemoved(after, keys[1..]);
      assert keys == [keys[0]] + keys[1..];
    }
  }

  lemma {:induction false} DiffEmptyAt(before: Fields, after: Fields, path: Path, order: Order)
    ensures DiffOps(before, after, path, order) == [] <==> before == after
    decreases Obj(after), 2
  {
    hide ChangedOps, RemovedOps;
    var news, olds := order(path, true, after.Keys), order(path, false, before.Keys);
    assert Lists(news, after.Keys) && Lists(olds, before.Keys);
    KeysUnchanged(before, after, path, order, news);
    NothingRemoved(after, olds);
  }

  /** Nothing is recorded exactly when nothing changed. */
  lemma DiffEmptyIffEqual(before: Fields, after: Fields, order: Order)
    ensures Diff(before, after, order) == [] <==> before == after
  {
    DiffEmptyAt(before, after, [], order);
  }

  /** Which pairs of objects have a difference that can be replayed: every key that
      is new, gone or changed is non-empty and at most `depth` levels down. What
      lies under an unchanged key does not matter. */
  predicate Recordable(before: Fields, after: Fields, depth: nat)
    decreases depth
  {
    && (forall k :: k in before && k !in after ==> k != "" && depth > 0)
    && (forall k :: k in after && !(k in before && before[k] == after[k]) ==>
          && k != "" && depth > 0
          && (k in before && before[k].Obj? && after[k].Obj? ==> Recordable(before[k].fields, after[k].fields, depth - 1)))
  }

  predicate AllFit(ops: seq<Op>, depth: nat) {
    forall op :: op in ops ==> Fits(op, depth)
  }

  lemma UnderFits(key: string, op: Op, depth: nat)
    requires |op.path| > 0
    ensures Fits(Under(key, op), depth) <==> key != "" && depth > 0 && Fits(op, depth - 1)
  {
    var path := [key] + op.path;
    assert Under(key, op).path == path && path[0] == key;
    if Fits(Under(key, op), depth) {
      forall i | 0 <= i < |op.path| ensures op.path[i] != "" { assert path[i + 1] == op.path[i]; }
    }
  }

  lemma AllUnderFit(key: string, ops: seq<Op>, depth: nat)
    requires Rooted(ops)
    ensures AllFit(AllUnder(key, ops), depth) <==> ops == [] || (key != "" && depth > 0 && AllFit(ops, depth - 1))
  {
    hide Fits, Under;
    var under := AllUnder(key, ops);
    forall i | 0 <= i < |ops|
      ensures Fits(under[i], depth) <==> key != "" && depth > 0 && Fits(ops[i], depth - 1)
    {
      UnderFits(key, ops[i], depth);
    }
    FitAt(under, depth);
    if depth > 0 { FitAt(ops, depth - 1); }
    if ops != [] && AllFit(under, depth) { assert Fits(under[0], depth); }
  }

  lemma FitAt(ops: seq<Op>, depth: nat)
    ensures AllFit(ops, depth) <==> forall i :: 0 <= i < |ops| ==> Fits(ops[i], depth)
  {
    hide Fits;
  }

  /** What `Recordable` asks of one key of the new object. */
  predicate KeyRecordable(before: Fields, after: Fields, key: string, depth: nat)
    requires key in after
  {
    (key in before && before[key] == after[key])
    || (key != "" && depth > 0
        && (key in before && before[key].Obj? && after[key].Obj? ==> Recordable(before[key].fields, after[key].fields, depth - 1)))
  }

  lemma {:induction false} KeyFits(before: Fields, after: Fields, path: Path, order: Order, key: string, depth: nat)
    requires key in after
    ensures AllFit(KeyOps(before, after, path, order, key), depth) <==> KeyRecordable(before, after, key, depth)
    decreases Obj(after), 0
  {
    if key in before && before[key].Obj? && after[key].Obj? {
      hide DiffOps, AllFit, Recordable, AllUnder;
      var b, a := before[key].fields, after[key].fields;
      var ops := DiffOps(b, a, path + [key], order);
      DiffApplies(b, a, path + [key], order);
      AllUnderFit(key, ops, depth);
      DiffEmptyAt(b, a, path + [key], order);
      if depth > 0 { DiffFits(b, a, path + [key], order, depth - 1); }
    } else {
      hide DiffOps, Recordable, AllFit;
      OneFits(Set([key], after[key]), key, depth);
    }
  }

  lemma OneFits(op: Op, key: string, depth: nat)
    requires op.path == [key]
    ensures AllFit([], depth)
    ensures AllFit([op], depth) <==> key != "" && depth > 0
  {
    assert op.path[0] == key;
    assert op in [op];
  }

  lemma {:induction false} ChangesFit(before: Fields, after: Fields, path: Path, order: Order, keys: seq<string>,
                                      depth: nat)
    requires forall k :: k in keys ==> k in after
    ensures AllFit(ChangedOps(before, after, path, order, keys), depth)
            <==> forall k :: k in keys ==> KeyRecordable(before, after, k, depth)
    decreases Obj(after), 1, |keys|
  {
    hide KeyOps, Fits, KeyRecordable;
    if |keys| > 0 {
      KeyFits(before, after, path, order, keys[0], depth);
      ChangesFit(before, after, path, order, keys[1..], depth);
      assert keys == [keys[0]] + keys[1..];
    }
  }

  lemma {:induction false} RemovalsFit(after: Fields, keys: seq<string>, depth: nat)
    ensures AllFit(RemovedOps(after, keys), depth) <==> forall k :: k in keys && k !in after ==> k != "" && depth > 0
    decreases |keys|
  {
    if |keys| > 0 {
      RemovalsFit(after, keys[1..], depth);
      assert keys == [keys[0]] + keys[1..];
      hide Fits;
      var op := Unset([keys[0]]);
      OneFits(op, keys[0], depth);
      var here := if keys[0] in after then [] else [op];
      assert AllFit(RemovedOps(after, keys), depth) <==> AllFit(here, depth) && AllFit(RemovedOps(after, keys[1..]), depth);
    }
  }

  lemma {:induction false} DiffFits(before: Fields, after: Fields, path: Path, order: Order, depth: nat)
    ensures AllFit(DiffOps(before, after, path, order), depth) <==> Recordable(before, after, depth)
    decreases Obj(after), 2
  {
    hide ChangedOps, RemovedOps, Fits;
    var news, olds := order(path, true, after.Keys), order(path, false, before.Keys);
    assert Lists(news, after.Keys) && Lists(olds, before.Keys);
    ChangesFit(before, after, path, order, news, depth);
    RemovalsFit(after, olds, depth);
  }

  /** Replaying a recorded difference gives the new state, at every nesting level
      and with nulls and empty objects, exactly when every key that is new, gone or
      changed is non-empty and at most 32 levels down; otherwise the payload is
      refused. */
  lemma DiffRoundTrip(before: Fields, after: Fields, order: Order)
    ensures Apply(before, Payload(Diff(before, after, order))) == Ok(after) <==> Recordable(before, after, MAX_PATH_DEPTH)
    ensures Apply(before, Payload(Diff(before, after, order))).Ok?
            ==> Apply(before, Payload(Diff(before, after, order))) == Ok(after)
  {
    hide DiffOps, ReadOps, Fits, ApplyOps, AllFit, Recordable;
    var ops := Diff(before, after, order);
    DiffApplies(before, after, [], order);
    OpsReadBack(ops, 0);
    assert ops[0..] == ops;
    DiffFits(before, after, [], order, MAX_PATH_DEPTH);
    FitAt(ops, MAX_PATH_DEPTH);
  }

  /** Keys without empty names, nested at most `depth` deep. */
  predicate Tame(o: Fields, depth: nat)
    decreases depth
  {
    forall k :: k in o ==> k != "" && depth > 0 && (o[k].Obj? ==> Tame(o[k].fields, depth - 1))
  }

  lemma {:induction false} TameRecordable(before: Fields, after: Fields, depth: nat)
    requires Tame(before, depth) && Tame(after, depth)
    ensures Recordable(before, after, depth)
    decreases depth
  {
    forall k | k in before && k in after && before[k].Obj? && after[k].Obj?
      ensures depth > 0 && Recordable(before[k].fields, after[k].fields, depth - 1)
    {
      TameRecordable(before[k].fields, after[k].fields, depth - 1);
    }
  }

  /** Objects with non-empty keys and depth at most 32 always round-trip. */
  lemma TameRoundTrip(before: Fields, after: Fields, order: Order)
    requires Tame(before, MAX_PATH_DEPTH) && Tame(after, MAX_PATH_DEPTH)
    ensures Apply(before, Payload(Diff(before, after, order))) == Ok(after)
  {
    hide Tame, Recordable, Diff, Apply;
    TameRecordable(before, after, MAX_PATH_DEPTH);
    DiffRoundTrip(before, after, order);
  }

  /** A new empty key is recorded but never replayed: the payload is refused. */
  lemma EmptyKeyRefused(before: Fields, after: Fields, order: Order)
    requires "" in after && "" !in before
    ensures Apply(before, Payload(Diff(before, after, order))).Err?
  {
    hide Diff, Apply;
    DiffRoundTrip(before, after, order);
  }

  /** The value `x` below `n` objects of one key each. */
  function Nested(n: nat, x: Json): Fields {
    map["k" := if n == 0 then x else Obj(Nested(n - 1, x))]
  }

  lemma {:induction false} NestedRecordable(n: nat, x: Json, y: Json, depth: nat)
    requires x != y && !(x.Obj? && y.Obj?)
    ensures Nested(n, x) != Nested(n, y)
    ensures Recordable(Nested(n, x), Nested(n, y), depth) <==> n < depth
  {
    hide Recordable;
    if n == 0 {
      OneKeyRecordable(x, y, depth);
    } else {
      NestedRecordable(n - 1, x, y, if depth > 0 then depth - 1 else 0);
      OneKeyRecordable(Obj(Nested(n - 1, x)), Obj(Nested(n - 1, y)), depth);
    }
  }

  lemma OneKeyRecordable(x: Json, y: Json, depth: nat)
    requires x != y
    ensures var b, a := map["k" := x], map["k" := y];
            b != a
            && (Recordable(b, a, depth) <==> depth > 0 && (x.Obj? && y.Obj? ==> Recordable(x.fields, y.fields, depth - 1)))
  {
    var b, a := map["k" := x], map["k" := y];
    assert b["k"] == x && a["k"] == y;
  }

  /** One changed value under `n` objects is replayed if and only if n < 32: at 32
      its path has 33 keys, and the payload is refused. */
  lemma DeepChangeRefused(n: nat, x: Json, y: Json, order: Order)
    requires x != y && !(x.Obj? && y.Obj?)
    ensures var r := Apply(Nested(n, x), Payload(Diff(Nested(n, x), Nested(n, y), order)));
            if n < MAX_PATH_DEPTH then r == Ok(Nested(n, y)) else r.Err?
  {
    hide Diff, Apply, Recordable, Nested;
    NestedRecordable(n, x, y, MAX_PATH_DEPTH);
    DiffRoundTrip(Nested(n, x), Nested(n, y), order);
  }

  // ----------------------------------------------------------------- methods

  /** One key of the new object. */
  method DiffKey(before: Fields, after: Fields, path: Path, order: Order, key: string, ops: seq<Op>)
                 returns (r: seq<Op>)
    requires key in after
    ensures r == ops + AtPath(path, KeyOps(before, after, path, order, key))
    decreases Obj(after), 0
  {
    hide DiffOps;
    r := ops;
    if key !in before {
      r := r + [Set(path + [key], after[key])];
    } else if before[key].Obj? && after[key].Obj? {
      AtPathUnder(path, key, DiffOps(before[key].fields, after[key].fields, path + [key], order));
      r := DiffInto(before[key].fields, after[key].fields, path + [key], order, r);
    } else if before[key] != after[key] {
      r := r + [Set(path + [key], after[key])];
    } else {
      Bytes.Unit(ops);
    }
  }

  /** The keys that are gone. */
  method DiffRemoved(after: Fields, path: Path, olds: seq<string>, ops: seq<Op>) returns (r: seq<Op>)
    ensures r == ops + AtPath(path, RemovedOps(after, olds))
  {
    r := ops;
    assert olds[0..] == olds;
    for i := 0 to |olds|
      invariant r + AtPath(path, RemovedOps(after, olds[i..])) == ops + AtPath(path, RemovedOps(after, olds))
    {
      hide AtPath;
      assert olds[i..][1..] == olds[i + 1..];
      ghost var here, more := if olds[i] in after then [] else [Unset([olds[i]])], RemovedOps(after, olds[i + 1..]);
      AtPathAppend(path, here, more);
      AtPathOne(path, here);
      Bytes.Assoc(r, AtPath(path, here), AtPath(path, more));
      if olds[i] in after { Bytes.Unit(r); } else { r := r + [Unset(path + [olds[i]])]; }
    }
    Bytes.Unit(r);
  }

  lemma AtPathOne(path: Path, ops: seq<Op>)
    requires |ops| <= 1
    ensures AtPath(path, ops) == if |ops| == 0 then [] else [At(path, ops[0])]
  {
  }

  /** `_diff`: walks the new object, then the old one, appending to one list. */
  method DiffInto(before: Fields, after: Fields, path: Path, order: Order, ops: seq<Op>) returns (r: seq<Op>)
    ensures r == ops + AtPath(path, DiffOps(before, after, path, order))
    decreases Obj(after), 1
  {
    hide KeyOps, AtPath;
    r := ops;
    var news := order(path, true, after.Keys);
    assert Lists(news, after.Keys);
    assert news[0..] == news;
    for i := 0 to |news|
      invariant r + AtPath(path, ChangedOps(before, after, path, order, news[i..]))
                == ops + AtPath(path, ChangedOps(before, after, path, order, news))
    {
      assert news[i] in news && news[i..][1..] == news[i + 1..];
      ghost var here := KeyOps(before, after, path, order, news[i]);
      ghost var more := ChangedOps(before, after, path, order, news[i + 1..]);
      AtPathAppend(path, here, more);
      Bytes.Assoc(r, AtPath(path, here), AtPath(path, more));
      r := DiffKey(before, after, path, order, news[i], r);
    }
    AtPathOne(path, []);
    Bytes.Unit(r);
    var olds := order(path, false, before.Keys);
    ghost var changed, removed := ChangedOps(before, after, path, order, news), RemovedOps(after, olds);
    AtPathAppend(path, changed, removed);
    Bytes.Assoc(ops, AtPath(path, changed), AtPath(path, removed));
    r := DiffRemoved(after, path, olds, r);
  }

  function At(path: Path, op: Op): Op {
    match op
    case Set(rest, value) => Set(path + rest, value)
    case Unset(rest) => Unset(path + rest)
  }

  /** Relative operations, told from the root. */
  function AtPath(path: Path, ops: seq<Op>): (r: seq<Op>)
    ensures |r| == |ops|
  {
    seq(|ops|, i requires 0 <= i < |ops| => At(path, ops[i]))
  }

  lemma AtPathAppend(path: Path, xs: seq<Op>, ys: seq<Op>)
    ensures AtPath(path, xs + ys) == AtPath(path, xs) + AtPath(path, ys)
  {
  }

  lemma AtPathUnder(path: Path, key: string, ops: seq<Op>)
    ensures AtPath(path, AllUnder(key, ops)) == AtPath(path + [key], ops)
  {
    forall i | 0 <= i < |ops| ensures AtPath(path, AllUnder(key, ops))[i] == AtPath(path + [key], ops)[i] {
      assert path + ([key] + ops[i].path) == path + [key] + ops[i].path;
    }
  }

  method DiffStates(before: Fields, after: Fields, order: Order) returns (ops: seq<Op>)
    ensures ops == Diff(before, after, order)
  {
    ops := DiffInto(before, after, [], order, []);
    var d := DiffOps(before, after, [], order);
    forall i | 0 <= i < |d| ensures AtPath([], d)[i] == d[i] {
      assert [] + d[i].path == d[i].path;
    }
  }

  /** `apply`: validate everything first, then edit operation by operation. */
  method ApplyPayload(state: Fields, payload: Json) returns (r: Result<Fields, PayloadError>)
    ensures r == Apply(state, payload)
  {
    hide ReadOp, ApplyOp;
    var ops := ValidatePayload(payload);
    if ops.Err? { return Err(ops.error); }
    ReadOpsRooted(payload.items, 0);
    var result := state;
    assert ops.value[0..] == ops.value;
    for i := 0 to |ops.value|
      invariant ApplyOps(state, ops.value) == ApplyOps(result, ops.value[i..])
    {
      assert ops.value[i..][1..] == ops.value[i + 1..];
      var next := ApplyOp(result, ops.value[i]);
      if next.Err? { return Err(next.error); }
      result := next.value;
    }
    r := Ok(result);
  }

  method ValidatePayload(payload: Json) returns (r: Result<seq<Op>, PayloadError>)
    ensures r == Validated(payload)
  {
    hide ReadOp;
    if !payload.List? { return Err(NotAList); }
    var ops: seq<Op> := [];
    if ReadOps(payload.items, 0).Ok? { assert [] + ReadOps(payload.items, 0).value == ReadOps(payload.items, 0).value; }
    for n := 0 to |payload.items|
      invariant ReadOps(payload.items, 0) == Before(ops, ReadOps(payload.items, n))
    {
      var op := ReadOp(payload.items[n], n + 1);
      if op.Err? { return Err(op.error); }
      ghost var rest := ReadOps(payload.items, n + 1);
      if rest.Ok? { Bytes.Assoc(ops, [op.value], rest.value); }
      ops := ops + [op.value];
    }
    Bytes.Unit(ops);
    r := Ok(ops);
  }

  ghost function Before(ops: seq<Op>, r: Result<seq<Op>, PayloadError>): Result<seq<Op>, PayloadError> {
    if r.Err? then r else Ok(ops + r.value)
  }
}
