/** Experiment configuration (src/experiment/config.py): nested mappings
    merged recursively, and command-line overrides `a.b.c=value` applied to
    a copy. Configurations are values, so neither operation can change its
    inputs; `copy.deepcopy` has nothing left to do in the model. */
module Config {
  import opened Wrappers
  import opened Strings

  /** A YAML/Python configuration value. */
  datatype Value =
    | VInt(i: int)
    | VFloat(f: real)
    | VBool(b: bool)
    | VNone
    | VStr(s: string)
    | VList(items: seq<Value>)
    | VMap(m: map<string, Value>)

  type Dict = map<string, Value>

  // ---------------------------------------------------------------------
  // _deep_merge

  /** `_deep_merge(base, override)`: every key of either side; the override's
      value wins unless both values are mappings, which are merged in turn. */
  function DeepMerge(base: Dict, over: Dict): (r: Dict)
    ensures r.Keys == base.Keys + over.Keys
    decreases VMap(over)
  {
    map k | k in base.Keys + over.Keys ::
      if k !in over then base[k]
      else if k in base && base[k].VMap? && over[k].VMap? then
        assert over[k] == VMap(over[k].m);
        VMap(DeepMerge(base[k].m, over[k].m))
      else over[k]
  }

  /** The value at a non-empty dotted path, if every step is a mapping. */
  function GetPath(d: Dict, keys: seq<string>): Option<Value>
    requires |keys| >= 1
    decreases |keys|
  {
    if keys[0] !in d then None
    else if |keys| == 1 then Some(d[keys[0]])
    else if d[keys[0]].VMap? then GetPath(d[keys[0]].m, keys[1..])
    else None
  }

  /** Every non-mapping value the override holds at some path is what the
      merge holds there. */
  lemma {:induction false} DeepMergeOverrideLeafWins(base: Dict, over: Dict, keys: seq<string>)
    requires |keys| >= 1
    requires GetPath(over, keys).Some? && !GetPath(over, keys).value.VMap?
    ensures GetPath(DeepMerge(base, over), keys) == GetPath(over, keys)
    decreases |keys|
  {
    var k := keys[0];
    var r := DeepMerge(base, over);
    if |keys| > 1 {
      if k in base && base[k].VMap? {
        assert r[k] == VMap(DeepMerge(base[k].m, over[k].m));
        DeepMergeOverrideLeafWins(base[k].m, over[k].m, keys[1..]);
      }
    }
  }

  /** A path the override does not reach keeps the base's value: if the
      override lacks the first key, or both sides hold mappings there and
      the rest of the path is kept below. */
  lemma {:induction false} DeepMergeKeepsBase(base: Dict, over: Dict, keys: seq<string>)
    requires |keys| >= 1
    requires Untouched(base, over, keys)
    ensures GetPath(DeepMerge(base, over), keys) == GetPath(base, keys)
    decreases |keys|
  {
    var k := keys[0];
    var r := DeepMerge(base, over);
    if k in over {
      assert r[k] == VMap(DeepMerge(base[k].m, over[k].m));
      DeepMergeKeepsBase(base[k].m, over[k].m, keys[1..]);
    }
  }

  /** The override leaves the path alone: it has no entry at the first key,
      or both sides hold mappings there and it leaves the rest alone. */
  predicate Untouched(base: Dict, over: Dict, keys: seq<string>)
    requires |keys| >= 1
    decreases |keys|
  {
    var k := keys[0];
    k !in over
    || (|keys| > 1 && k in base && base[k].VMap? && over[k].VMap? && Untouched(base[k].m, over[k].m, keys[1..]))
  }

  /** Merging a configuration with itself gives it back. */
  lemma {:induction false} DeepMergeIdempotent(d: Dict)
    ensures DeepMerge(d, d) == d
    decreases VMap(d)
  {
    forall k | k in d
      ensures DeepMerge(d, d)[k] == d[k]
    {
      if d[k].VMap? {
        assert d[k] == VMap(d[k].m);
        DeepMergeIdempotent(d[k].m);
      }
    }
  }

  /** An empty override changes nothing, and merging into an empty base
      yields the override. */
  lemma DeepMergeEmpty(d: Dict)
    ensures DeepMerge(d, map[]) == d
    ensures DeepMerge(map[], d) == d
  {
  }

  /** The flat and nested merges pinned by tests/test_experiment.py. */
  lemma DeepMergeFlatExample()
    ensures DeepMerge(map["a" := VInt(1), "b" := VInt(2)], map["b" := VInt(3), "c" := VInt(4)])
         == map["a" := VInt(1), "b" := VInt(3), "c" := VInt(4)]
  {
  }

  lemma DeepMergeNestedExample()
    ensures var base := map["model" := VMap(map["type" := VStr("lgbm"),
                                                 "params" := VMap(map["lr" := VFloat(0.1), "depth" := VInt(6)])])];
      var over := map["model" := VMap(map["params" := VMap(map["lr" := VFloat(0.05)])])];
      var r := DeepMerge(base, over);
      && GetPath(r, ["model", "type"]) == Some(VStr("lgbm"))
      && GetPath(r, ["model", "params", "lr"]) == Some(VFloat(0.05))
      && GetPath(r, ["model", "params", "depth"]) == Some(VInt(6))
  {
    var params := map["lr" := VFloat(0.1), "depth" := VInt(6)];
    var base := map["model" := VMap(map["type" := VStr("lgbm"), "params" := VMap(params)])];
    var over := map["model" := VMap(map["params" := VMap(map["lr" := VFloat(0.05)])])];
    DeepMergeOverrideLeafWins(base, over, ["model", "params", "lr"]);
    DeepMergeKeepsBase(base, over, ["model", "type"]);
    DeepMergeKeepsBase(base, over, ["model", "params", "depth"]);
  }

  // ---------------------------------------------------------------------
  // Value inference: int, then float, then true/false, then null, else the
  // raw string. Python's int() and float() grammars are reduced to ASCII
  // decimal literals with optional surrounding whitespace and sign.

  predicate AllDigits(s: string)
  {
    forall i :: 0 <= i < |s| ==> IsDigit(s[i])
  }

  function Pow10(k: nat): (p: nat)
    ensures p >= 1
  {
    if k == 0 then 1 else 10 * Pow10(k - 1)
  }

  /** An optional sign and the rest of a stripped literal. */
  function SignAndBody(s: string): (int, string)
  {
    var t := Strip(s);
    if t != [] && t[0] == '-' then (-1, t[1..])
    else if t != [] && t[0] == '+' then (1, t[1..])
    else (1, t)
  }

  /** `int(s)` for decimal literals. */
  function ParseInt(s: string): (r: Option<int>)
  {
    var (sign, body) := SignAndBody(s);
    if body != [] && AllDigits(body) then Some(sign * DecimalValue(body)) else None
  }

  /** `float(s)` for decimal literals with an optional fractional part. */
  function ParseFloat(s: string): (r: Option<real>)
  {
    var (sign, body) := SignAndBody(s);
    match IndexOf(body, '.')
    case None =>
      if body != [] && AllDigits(body) then Some(sign as real * DecimalValue(body) as real) else None
    case Some(p) =>
      var whole, frac := body[..p], body[p + 1..];
      if |whole| + |frac| >= 1 && AllDigits(whole) && AllDigits(frac) then
        Some(sign as real * (DecimalValue(whole) as real + DecimalValue(frac) as real / Pow10(|frac|) as real))
      else None
  }

  /** The value an override's right-hand side stands for. */
  function Infer(s: string): (v: Value)
    ensures ParseInt(s).Some? ==> v == VInt(ParseInt(s).value)
    ensures v.VFloat? ==> ParseInt(s).None? && ParseFloat(s) == Some(v.f)
    ensures v.VBool? ==> ParseInt(s).None? && ParseFloat(s).None? && Lower(s) in {"true", "false"} && v.b == (Lower(s) == "true")
    ensures v.VNone? ==> ParseInt(s).None? && ParseFloat(s).None? && Lower(s) == "null"
    ensures v.VStr? ==> v.s == s && ParseInt(s).None? && ParseFloat(s).None? && Lower(s) !in {"true", "false", "null"}
    ensures v.VInt? || v.VFloat? || v.VBool? || v.VNone? || v.VStr?
  {
    var i := ParseInt(s);
    if i.Some? then VInt(i.value)
    else
      var f := ParseFloat(s);
      if f.Some? then VFloat(f.value)
      else if Lower(s) == "true" || Lower(s) == "false" then VBool(Lower(s) == "true")
      else if Lower(s) == "null" then VNone
      else VStr(s)
  }

  /** A literal without surrounding whitespace is its own strip. */
  lemma StripUnspaced(s: string)
    requires s != [] && !IsSpace(s[0]) && !IsSpace(s[|s| - 1])
    ensures Strip(s) == s
  {
    assert StripLeft(s) == s;
    assert StripRight(s) == s;
  }

  /** A stripped literal whose first character is neither a digit, a sign
      nor a point is neither an int nor a float. */
  lemma {:induction false} NotNumeric(s: string)
    requires s != [] && !IsSpace(s[0]) && !IsSpace(s[|s| - 1])
    requires !IsDigit(s[0]) && s[0] != '-' && s[0] != '+' && s[0] != '.'
    ensures ParseInt(s).None? && ParseFloat(s).None?
  {
    StripUnspaced(s);
    assert SignAndBody(s) == (1, s);
    assert !AllDigits(s);
    match IndexOf(s, '.')
    case None =>
    case Some(p) =>
      assert s[..p][0] == s[0];
  }

  /** A stripped unsigned literal `whole.frac` of digits is a float and not an int. */
  lemma {:induction false} DecimalLiteral(s: string, p: nat, whole: string, frac: string)
    requires p < |s| && s[p] == '.' && '.' !in s[..p]
    requires whole == s[..p] && frac == s[p + 1..]
    requires s != [] && IsDigit(s[0]) && IsDigit(s[|s| - 1])
    requires AllDigits(whole) && AllDigits(frac)
    ensures ParseInt(s).None?
    ensures ParseFloat(s) == Some(DecimalValue(whole) as real + DecimalValue(frac) as real / Pow10(|frac|) as real)
  {
    StripUnspaced(s);
    assert SignAndBody(s) == (1, s);
    assert !IsDigit(s[p]);
    assert !AllDigits(s);
    FirstIndexUnique(s, '.', p);
  }

  /** The inferences pinned by tests/test_experiment.py: "21" is an int,
      "0.12" a float, "true" a bool and "xgboost" stays a string. */
  lemma InferIntExample()
    ensures Infer("21") == VInt(21)
  {
    StripUnspaced("21");
    assert SignAndBody("21") == (1, "21");
    assert "21"[..1] == "2" && "2"[..0] == "";
    assert DecimalValue("21") == 21;
  }

  lemma InferFloatExample()
    ensures Infer("0.12") == VFloat(0.12)
  {
    var s, whole, frac := "0.12", "0", "12";
    assert s[..1] == whole && s[2..] == frac;
    assert frac[..1] == "1" && whole[..0] == [] && frac[..1][..0] == [];
    assert DecimalValue(whole) == 0 && DecimalValue(frac) == 12;
    assert Pow10(|frac|) == 100;
    assert DecimalValue(whole) as real + DecimalValue(frac) as real / Pow10(|frac|) as real == 0.12;
    DecimalLiteral(s, 1, whole, frac);
    InferFloat(s, 0.12);
  }

  lemma InferFloat(s: string, v: real)
    requires ParseInt(s).None? && ParseFloat(s) == Some(v)
    ensures Infer(s) == VFloat(v)
  {
  }

  lemma InferBoolExample()
    ensures Infer("true") == VBool(true)
  {
    NotNumeric("true");
    assert Lower("true") == "true";
  }

  lemma InferStringExample()
    ensures Infer("xgboost") == VStr("xgboost")
  {
    NotNumeric("xgboost");
    assert Lower("xgboost")[0] == 'x';
  }

  // ---------------------------------------------------------------------
  // apply_overrides

  /** Setting `keys` to `v`: missing intermediate keys become empty
      mappings; an intermediate value that is not a mapping raises
      TypeError (Python fails on its `in` test or item assignment). */
  function SetPath(d: Dict, keys: seq<string>, v: Value): Result<Dict>
    requires |keys| >= 1
    decreases |keys|
  {
    var k := keys[0];
    if |keys| == 1 then Ok(d[k := v])
    else
      var child := if k in d then d[k] else VMap(map[]);
      if !child.VMap? then Err(TypeError("not a mapping"))
      else
        var sub := SetPath(child.m, keys[1..], v);
        if sub.Err? then sub else Ok(d[k := VMap(sub.value)])
  }

  /** Rebuilds the mappings visited on the way down (`trail[j]` holds the
      mapping at depth j) around a new innermost mapping. */
  function Wrap(trail: seq<Dict>, keys: seq<string>, res: Result<Dict>): Result<Dict>
    requires |trail| <= |keys|
    decreases |trail|
  {
    if res.Err? || trail == [] then res
    else
      var j := |trail| - 1;
      Wrap(trail[..j], keys, Ok(trail[j][keys[j] := VMap(res.value)]))
  }

  /** The in-place walk `d = config; for k in keys[:-1]: ...; d[keys[-1]] =
      value`: descend, creating missing mappings, then put the changed
      mappings back on the way up. */
  method SetAtPath(d: Dict, keys: seq<string>, v: Value) returns (r: Result<Dict>)
    requires |keys| >= 1
    ensures r == SetPath(d, keys, v)
  {
    var trail: seq<Dict> := [];
    var cur := d;
    var j := 0;
    while j < |keys| - 1
      invariant 0 <= j <= |keys| - 1 && |trail| == j
      invariant SetPath(d, keys, v) == Wrap(trail, keys, SetPath(cur, keys[j..], v))
    {
      var k := keys[j];
      assert keys[j..][0] == k && keys[j..][1..] == keys[j + 1..];
      var child := if k in cur then cur[k] else VMap(map[]);
      if !child.VMap? {
        return Err(TypeError("not a mapping"));
      }
      assert (trail + [cur])[..j] == trail;
      trail := trail + [cur];
      cur := child.m;
      j := j + 1;
    }
    assert keys[j..] == [keys[j]];
    var inner := cur[keys[j] := v];
    assert SetPath(cur, keys[j..], v) == Ok(inner);
    assert trail[..j] == trail;
    while j > 0
      invariant 0 <= j <= |trail|
      invariant SetPath(d, keys, v) == Wrap(trail[..j], keys, Ok(inner))
    {
      assert trail[..j][..j - 1] == trail[..j - 1];
      inner := trail[j - 1][keys[j - 1] := VMap(inner)];
      j := j - 1;
    }
    r := Ok(inner);
  }

  /** An item's dotted key path and raw value, split at the first "=";
      None for an item without "=". */
  function ParseItem(item: string): Option<(seq<string>, string)>
  {
    match IndexOf(item, '=')
    case None => None
    case Some(p) => Some((Split(Strip(item[..p]), '.'), item[p + 1..]))
  }

  /** One override applied: items without "=" are skipped. */
  function ApplyOne(config: Dict, item: string): Result<Dict>
  {
    match ParseItem(item)
    case None => Ok(config)
    case Some((keys, raw)) => SetPath(config, keys, Infer(raw))
  }

  /** The configuration after the first |items| overrides, left to right. */
  function OverridesSpec(config: Dict, items: seq<string>): Result<Dict>
  {
    if items == [] then Ok(config)
    else
      var prev := OverridesSpec(config, items[..|items| - 1]);
      if prev.Err? then prev else ApplyOne(prev.value, items[|items| - 1])
  }

  /** `apply_overrides`: a copy of the configuration, updated item by item. */
  method ApplyOverrides(config: Dict, items: seq<string>) returns (r: Result<Dict>)
    ensures r == OverridesSpec(config, items)
  {
    var current := config;
    for i := 0 to |items|
      invariant OverridesSpec(config, items[..i]) == Ok(current)
    {
      OverridesStep(config, items, i);
      var next := ApplyItem(current, items[i]);
      if next.Err? {
        OverridesErrSticks(config, items, i + 1);
        return next;
      }
      current := next.value;
    }
    assert items[..|items|] == items;
    r := Ok(current);
  }

  /** One loop iteration: parse the item, skip it when it has no "=",
      otherwise set its path to the inferred value. */
  method ApplyItem(config: Dict, item: string) returns (r: Result<Dict>)
    ensures r == ApplyOne(config, item)
  {
    var parsed := ParseItem(item);
    if parsed.None? {
      return Ok(config);
    }
    var (keys, raw) := parsed.value;
    r := SetAtPath(config, keys, Infer(raw));
  }

  lemma OverridesStep(config: Dict, items: seq<string>, i: nat)
    requires i < |items|
    ensures OverridesSpec(config, items[..i + 1]) ==
      (var prev := OverridesSpec(config, items[..i]);
       if prev.Err? then prev else ApplyOne(prev.value, items[i]))
  {
    assert items[..i + 1][..i] == items[..i];
  }

  lemma {:induction false} OverridesErrSticks(config: Dict, items: seq<string>, i: nat)
    requires 0 < i <= |items|
    requires OverridesSpec(config, items[..i]).Err?
    ensures OverridesSpec(config, items) == OverridesSpec(config, items[..i])
    decreases |items| - i
  {
    if i < |items| {
      assert items[..i + 1][..i] == items[..i];
      OverridesErrSticks(config, items, i + 1);
    } else {
      assert items[..i] == items;
    }
  }

  /** After a successful set, the path holds the new value. */
  lemma {:induction false} SetPathThenGet(d: Dict, keys: seq<string>, v: Value)
    requires |keys| >= 1
    requires SetPath(d, keys, v).Ok?
    ensures GetPath(SetPath(d, keys, v).value, keys) == Some(v)
    decreases |keys|
  {
    if |keys| > 1 {
      var child := if keys[0] in d then d[keys[0]] else VMap(map[]);
      SetPathThenGet(child.m, keys[1..], v);
    }
  }

  /** A set only touches the first key of its path: every other top-level
      entry is unchanged. */
  lemma SetPathFrame(d: Dict, keys: seq<string>, v: Value)
    requires |keys| >= 1
    requires SetPath(d, keys, v).Ok?
    ensures var r := SetPath(d, keys, v).value;
      && r.Keys == d.Keys + {keys[0]}
      && forall k :: k in d && k != keys[0] ==> r[k] == d[k]
  {
  }

  /** A set fails exactly when some proper prefix of the path leads to a
      value that is not a mapping. */
  lemma {:induction false} SetPathFailsIff(d: Dict, keys: seq<string>, v: Value)
    requires |keys| >= 1
    ensures SetPath(d, keys, v).Err? <==>
      exists j :: 1 <= j < |keys| && BlockedAt(d, keys, j)
    decreases |keys|
  {
    if |keys| > 1 {
      var k := keys[0];
      var child := if k in d then d[k] else VMap(map[]);
      if !child.VMap? {
        assert BlockedAt(d, keys, 1);
      } else {
        SetPathFailsIff(child.m, keys[1..], v);
        forall j | 2 <= j < |keys|
          ensures BlockedAt(d, keys, j) <==> BlockedAt(child.m, keys[1..], j - 1)
        {
          assert keys[..j][1..] == keys[1..][..j - 1];
          if k !in d {
            MissingBelow(keys[1..], j - 1);
          }
        }
        assert !BlockedAt(d, keys, 1);
        if exists j :: 1 <= j < |keys| && BlockedAt(d, keys, j) {
          var j :| 1 <= j < |keys| && BlockedAt(d, keys, j);
          assert BlockedAt(child.m, keys[1..], j - 1);
        }
        if exists j :: 1 <= j < |keys| - 1 && BlockedAt(child.m, keys[1..], j) {
          var j :| 1 <= j < |keys| - 1 && BlockedAt(child.m, keys[1..], j);
          assert BlockedAt(d, keys, j + 1);
        }
      }
    }
  }

  /** The first j keys lead to a value that is not a mapping. */
  predicate BlockedAt(d: Dict, keys: seq<string>, j: nat)
    requires 1 <= j <= |keys|
  {
    var got := GetPath(d, keys[..j]);
    got.Some? && !got.value.VMap?
  }

  lemma MissingBelow(keys: seq<string>, j: nat)
    requires 1 <= j <= |keys|
    ensures !BlockedAt(map[], keys, j)
  {
  }

  /** Setting the same path twice leaves the second value: a later override
      of the same key wins. */
  lemma {:induction false} SetPathTwice(d: Dict, keys: seq<string>, v1: Value, v2: Value)
    requires |keys| >= 1
    requires SetPath(d, keys, v1).Ok?
    ensures SetPath(SetPath(d, keys, v1).value, keys, v2) == SetPath(d, keys, v2)
    decreases |keys|
  {
    if |keys| > 1 {
      var k := keys[0];
      var child := if k in d then d[k] else VMap(map[]);
      SetPathTwice(child.m, keys[1..], v1, v2);
      SetPathOkIff(child.m, keys[1..], v1, v2);
      var s1 := SetPath(child.m, keys[1..], v1).value;
      var d1 := d[k := VMap(s1)];
      assert SetPath(d, keys, v1).value == d1;
      var s2 := SetPath(child.m, keys[1..], v2).value;
      assert SetPath(s1, keys[1..], v2) == Ok(s2);
      assert SetPath(d1, keys, v2) == Ok(d1[k := VMap(s2)]);
      assert d1[k := VMap(s2)] == d[k := VMap(s2)];
      assert SetPath(d, keys, v2) == Ok(d[k := VMap(s2)]);
    } else {
      assert d[keys[0] := v1][keys[0] := v2] == d[keys[0] := v2];
    }
  }

  /** Whether a set succeeds does not depend on the value being set. */
  lemma {:induction false} SetPathOkIff(d: Dict, keys: seq<string>, v1: Value, v2: Value)
    requires |keys| >= 1
    ensures SetPath(d, keys, v1).Ok? <==> SetPath(d, keys, v2).Ok?
    decreases |keys|
  {
    if |keys| > 1 {
      var child := if keys[0] in d then d[keys[0]] else VMap(map[]);
      if child.VMap? {
        SetPathOkIff(child.m, keys[1..], v1, v2);
      }
    }
  }

  /** The value `v` under the nested mappings `keys`. */
  function Nested(keys: seq<string>, v: Value): Value
    decreases |keys|
  {
    if keys == [] then v else VMap(map[keys[0] := Nested(keys[1..], v)])
  }

  /** Setting a path the configuration lacks creates each missing
      intermediate key as a mapping holding only the rest of the path. */
  lemma {:induction false} SetPathCreatesMissing(d: Dict, keys: seq<string>, v: Value)
    requires |keys| >= 1 && keys[0] !in d
    ensures SetPath(d, keys, v) == Ok(d[keys[0] := Nested(keys[1..], v)])
    decreases |keys|
  {
    if |keys| > 1 {
      SetPathCreatesMissing(map[], keys[1..], v);
      assert map[][keys[1] := Nested(keys[2..], v)] == Nested(keys[1..], v).m;
    }
  }

  /** The nested creation pinned by tests/test_experiment.py: setting
      a.b.c to 42 in an empty configuration. */
  lemma CreateNestedExample()
    ensures SetPath(map[], ["a", "b", "c"], VInt(42))
         == Ok(map["a" := VMap(map["b" := VMap(map["c" := VInt(42)])])])
  {
    SetPathCreatesMissing(map[], ["a", "b", "c"], VInt(42));
    assert ["a", "b", "c"][1..] == ["b", "c"] && ["b", "c"][1..] == ["c"] && ["c"][1..] == [];
  }

  /** An item without "=" changes nothing. */
  lemma SkipsItemWithoutEquals(config: Dict, item: string)
    requires '=' !in item
    ensures ApplyOne(config, item) == Ok(config)
  {
  }

  /** The value may itself contain "=": only the first one splits. */
  lemma SplitsAtFirstEquals(item: string, p: nat)
    requires p < |item| && item[p] == '=' && '=' !in item[..p]
    ensures ParseItem(item) == Some((Split(Strip(item[..p]), '.'), item[p + 1..]))
  {
    FirstIndexUnique(item, '=', p);
  }

  lemma FirstIndexUnique(s: string, c: char, p: nat)
    requires p < |s| && s[p] == c && c !in s[..p]
    ensures IndexOf(s, c) == Some(p)
  {
  }
}
