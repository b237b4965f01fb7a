/**
 What loops, assignments and paths come to, said as the text of whole templates
 (internal/liquid/render.go).
 */
module LiquidLoops {
  import opened Options
  import opened LiquidSyntax
  import opened LiquidValues
  import opened LiquidSemantics
  import opened LiquidMeaning
  import Decimals
  import SortedStrings

  /// Paths

  // `{{ x.seg }}` where x is v; `name` is how the path shows in an error.
  ghost function Selected(lib: Library, v: Value, seg: Seg, name: string): Outcome<string> {
    Render(lib, [Out(Output(Var("x", [seg], name), []))], map["x" := v])
  }

  function KeyOf(seg: Seg): Value
    requires !seg.Dyn?
  {
    if seg.Prop? then Str(seg.key) else Number(seg.i)
  }

  lemma SelectedBy(lib: Library, v: Value, seg: Seg, key: Value, name: string)
    requires EvalKey(lib, seg, map["x" := v], [], true) == Got(key, None)
    ensures var next := IndexValue(lib, v, key);
      Selected(lib, v, seg, name) == if next.Some? then Shown(lib, next.value, []) else Err(Missing(name))
  {
    hide IndexValue, ToString, EvalKey;
    var vars := map["x" := v];
    var e, next := Var("x", [seg], name), IndexValue(lib, v, key);
    assert Lookup(vars, [], "x") == Some(v);
    OneStep(lib, v, seg, key, vars);
    hide EvalPath;
    assert EvalStrict(lib, e, vars, []) == if next.Some? then Ok(next.value) else Err(Missing(name));
    hide Eval, EvalStrict;
    assert EvalOutput(lib, Output(e, []), vars, []) == EvalStrict(lib, e, vars, []);
    hide EvalOutput, Shown, Render;
    OutRenders(lib, Output(e, []), vars);
    if next.Some? { ShownIs(lib, next.value); }
  }

  lemma OneStep(lib: Library, v: Value, seg: Seg, key: Value, vars: Vars)
    requires EvalKey(lib, seg, vars, [], true) == Got(key, None)
    ensures var next := IndexValue(lib, v, key);
      EvalPath(lib, [seg], v, vars, [], true)
        == if next.Some? then Found(next.value, None) else LiquidSemantics.Absent(None)
  {
    hide IndexValue, EvalKey;
    assert [seg][1..] == [];
    var next := IndexValue(lib, v, key);
    if next.Some? {
      assert EvalPath(lib, [], next.value, vars, [], true) == Found(next.value, None);
    }
  }

  // A map by key, spelled as a property, as a string or as a number.
  lemma MapsSelect(lib: Library, entries: map<string, Value>, k: string, i: int, name: string)
    ensures var there := if k in entries then Shown(lib, entries[k], []) else Err(Missing(name));
      && Selected(lib, Map(entries), Prop(k), name) == there
      && Selected(lib, Map(entries), Dyn(Lit(Str(k))), name) == there
      && Selected(lib, Map(entries), Dyn(Lit(Num(k))), name) == there
    ensures var digits := if i < 0 then "-" + Decimals.Decimal(-i) else Decimals.Decimal(i);
      Selected(lib, Map(entries), Index(i), name) == Selected(lib, Map(entries), Prop(digits), name)
  {
    hide Selected, Shown;
    var v := Map(entries);
    SelectedBy(lib, v, Prop(k), Str(k), name);
    SelectedBy(lib, v, Dyn(Lit(Str(k))), Str(k), name);
    SelectedBy(lib, v, Dyn(Lit(Num(k))), Num(k), name);
    SelectedBy(lib, v, Index(i), Number(i), name);
    SelectedBy(lib, v, Prop(IntText(i)), Str(IntText(i)), name);
  }

  // A list by index, counted from its end when negative, and by three names.
  lemma ListsSelect(lib: Library, items: seq<Value>, i: int, k: string, name: string)
    requires lib.int64(if i < 0 then "-" + Decimals.Decimal(-i) else Decimals.Decimal(i)) == Some(i)
    ensures Selected(lib, List(items), Index(i), name) ==
      if 0 <= i < |items| then Shown(lib, items[i], [])
      else if -|items| <= i < 0 then Shown(lib, items[|items| + i], [])
      else Err(Missing(name))
    ensures Selected(lib, List(items), Prop("size"), name) == Ok(Decimals.Decimal(|items|))
    ensures Selected(lib, List(items), Prop("first"), name) ==
      if items == [] then Err(Missing(name)) else Shown(lib, items[0], [])
    ensures Selected(lib, List(items), Prop("last"), name) ==
      if items == [] then Err(Missing(name)) else Shown(lib, items[|items| - 1], [])
    ensures k !in {"size", "first", "last"} ==> Selected(lib, List(items), Prop(k), name) == Err(Missing(name))
  {
    var v := List(items);
    AtIndex(lib, items, i);
    AtName(lib, items, k);
    NamesDiffer();
    AtName(lib, items, "size");
    AtName(lib, items, "first");
    AtName(lib, items, "last");
    hide Selected, Shown, IndexValue;
    SelectedBy(lib, v, Index(i), Number(i), name);
    SelectedBy(lib, v, Prop("size"), Str("size"), name);
    SelectedBy(lib, v, Prop("first"), Str("first"), name);
    SelectedBy(lib, v, Prop("last"), Str("last"), name);
    SelectedBy(lib, v, Prop(k), Str(k), name);
    ShownIs(lib, Number(|items|));
  }

  lemma AtIndex(lib: Library, items: seq<Value>, i: int)
    requires lib.int64(if i < 0 then "-" + Decimals.Decimal(-i) else Decimals.Decimal(i)) == Some(i)
    ensures IndexValue(lib, List(items), Number(i)) ==
      if 0 <= i < |items| then Some(items[i]) else if -|items| <= i < 0 then Some(items[|items| + i]) else None
  {
    hide Decimals.Decimal;
  }

  lemma AtName(lib: Library, items: seq<Value>, k: string)
    ensures IndexValue(lib, List(items), Str(k)) ==
      if k == "size" then Some(Number(|items|))
      else if k == "first" && items != [] then Some(items[0])
      else if k == "last" && items != [] then Some(items[|items| - 1])
      else None
  {
    hide Number;
  }

  lemma NamesDiffer()
    ensures "size" != "first" && "size" != "last" && "first" != "last"
  {
    assert "size"[0] != "first"[0] && "size"[0] != "last"[0] && "first"[0] != "last"[0];
  }

  // A string has a size and nothing else, and any other value has no parts.
  lemma OthersSelect(lib: Library, v: Value, k: string, name: string)
    requires !v.Map? && !v.List?
    ensures Selected(lib, v, Prop(k), name) ==
      if v.Str? && k == "size" then Shown(lib, v, [Filter("size", [])]) else Err(Missing(name))
  {
    hide Selected, Shown;
    SelectedBy(lib, v, Prop(k), Str(k), name);
    SizeBy(lib, v);
    ShownIs(lib, Number(SizeOf(v)));
  }

  lemma SizeBy(lib: Library, v: Value)
    ensures Shown(lib, v, [Filter("size", [])]) == Ok(IntText(SizeOf(v)))
  {
    hide Shown, SizeOf;
    var f := [Filter("size", [])];
    ShownBy(lib, v, f);
    OneArg(lib, v);
    OneFilter(lib, "size", [], v, [], []);
    assert f + [] == f;
  }

  /// Loops

  // `{% for name in v %}body{% else %}other{% endfor %}`
  ghost function Looped(lib: Library, name: string, v: Value, body: seq<Node>, other: seq<Node>,
      vars: Vars): Outcome<string> {
    Render(lib, [For(name, Lit(v), body, other)], vars)
  }

  lemma LoopBy(lib: Library, name: string, v: Value, body: seq<Node>, other: seq<Node>, vars: Vars)
    ensures var n := For(name, Lit(v), body, other);
      RenderNode(lib, n, vars, []) ==
        if Iterable(v) == [] then RenderNodes(lib, other, vars, []) else RenderItems(lib, n, Iterable(v), 0, vars, [])
  {
    hide RenderNodes, RenderItems, Iterable;
    assert EvalStrict(lib, Lit(v), vars, []) == Ok(v);
  }

  // The rounds see nothing of the loop but its variable and its body.
  lemma {:induction false} RoundsAlike(lib: Library, m: Node, n: Node, items: seq<Value>, i: nat, globals: Vars,
      locals: seq<Vars>)
    requires m.For? && n.For? && m.varName == n.varName && m.body == n.body && i <= |items|
    ensures RenderItems(lib, m, items, i, globals, locals) == RenderItems(lib, n, items, i, globals, locals)
    decreases |items| - i
  {
    hide RenderNodes, Frame;
    if i < |items| {
      var a := RenderNodes(lib, n.body, globals, locals + [Frame(n.varName, items[i], i, |items|)]);
      RoundsAlike(lib, m, n, items, i + 1, a.globals, locals);
    }
  }

  lemma SameItems(lib: Library, name: string, v: Value, items: seq<Value>, body: seq<Node>, other: seq<Node>,
      vars: Vars)
    requires Iterable(v) == items
    ensures Looped(lib, name, v, body, other, vars) == Looped(lib, name, List(items), body, other, vars)
  {
    hide Iterable;
    LoopBy(lib, name, v, body, other, vars);
    LoopBy(lib, name, List(items), body, other, vars);
    RoundsAlike(lib, For(name, Lit(v), body, other), For(name, Lit(List(items)), body, other), items, 0, vars, []);
    assert Iterable(List(items)) == items by { ListsIterate(items); }
    OneNode(lib, For(name, Lit(v), body, other), vars);
    OneNode(lib, For(name, Lit(List(items)), body, other), vars);
    hide RenderNodes, RenderItems, RenderNode;
  }

  lemma ListsIterate(items: seq<Value>)
    ensures Iterable(List(items)) == items
  {
  }

  // A single value is looped over as a list of itself, a map as its pairs of
  // key and value in the order of its keys, and nil as an empty list.
  lemma WhatIsLoopedOver(lib: Library, name: string, v: Value, body: seq<Node>, other: seq<Node>, vars: Vars)
    ensures v.Nil? ==> Looped(lib, name, v, body, other, vars) == Looped(lib, name, List([]), body, other, vars)
    ensures !v.Nil? && !v.List? && !v.Map? ==>
      Looped(lib, name, v, body, other, vars) == Looped(lib, name, List([v]), body, other, vars)
    ensures v.Map? ==> exists keys, pairs ::
      && SortedStrings.InOrder(keys, v.entries.Keys) && |pairs| == |keys|
      && (forall i :: 0 <= i < |keys| ==> keys[i] in v.entries && pairs[i] == List([Str(keys[i]), v.entries[keys[i]]]))
      && Looped(lib, name, v, body, other, vars) == Looped(lib, name, List(pairs), body, other, vars)
  {
    hide Looped, Pairs, SortedStrings.InOrder;
    SameItems(lib, name, v, Iterable(v), body, other, vars);
    if v.Map? {
      var keys, pairs := KeysInOrder(v.entries);
      assert Iterable(v) == pairs;
    }
  }

  lemma KeysInOrder(entries: map<string, Value>) returns (keys: seq<string>, pairs: seq<Value>)
    ensures keys == SortedStrings.SortedKeys(entries.Keys) && SortedStrings.InOrder(keys, entries.Keys)
    ensures (forall i :: 0 <= i < |keys| ==> keys[i] in entries) && pairs == Pairs(entries, keys) && |pairs| == |keys|
    ensures forall i :: 0 <= i < |keys| ==> pairs[i] == List([Str(keys[i]), entries[keys[i]]])
  {
    hide Pairs, SortedStrings.InOrder;
    keys := SortedStrings.SortedKeys(entries.Keys);
    SortedStrings.SortedKeysInOrder(entries.Keys);
    pairs := Pairs(entries, keys);
    PairsAre(entries, keys);
  }

  lemma {:induction false} PairsAre(entries: map<string, Value>, keys: seq<string>)
    requires forall i :: 0 <= i < |keys| ==> keys[i] in entries
    ensures |Pairs(entries, keys)| == |keys|
    ensures forall i :: 0 <= i < |keys| ==> Pairs(entries, keys)[i] == List([Str(keys[i]), entries[keys[i]]])
  {
    if keys != [] { PairsAre(entries, keys[1..]); }
  }

  // With nothing to loop over the else body is all there is.
  lemma EmptyLoop(lib: Library, name: string, body: seq<Node>, other: seq<Node>, vars: Vars)
    ensures Looped(lib, name, List([]), body, other, vars) == Render(lib, other, vars)
  {
    var n := For(name, Lit(List([])), body, other);
    LoopBy(lib, name, List([]), body, other, vars);
    OneNode(lib, n, vars);
    hide RenderNode;
    var r := RenderNodes(lib, other, vars, []);
    assert r.text + "" == r.text;
    hide RenderNodes;
  }

  // What the body does for one item of the loop: its text, and how it ends.
  ghost predicate Rounds(lib: Library, name: string, body: seq<Node>, items: seq<Value>, i: nat, vars: Vars,
      text: string, signal: Signal)
    requires i < |items|
  {
    RenderNodes(lib, body, vars, [Frame(name, items[i], i, |items|)]) == Rendering(text, vars, signal)
  }

  // The loop goes on to the next item after it.
  ghost predicate GoesOn(lib: Library, name: string, body: seq<Node>, items: seq<Value>, i: nat, vars: Vars,
      text: string)
    requires i < |items|
  {
    Rounds(lib, name, body, items, i, vars, text, Done) || Rounds(lib, name, body, items, i, vars, text, Continued)
  }

  function Concat(texts: seq<string>): string {
    if texts == [] then "" else texts[0] + Concat(texts[1..])
  }

  // The rounds of a loop that assigns nothing follow one another up to the
  // first that breaks, if one does.
  lemma {:induction false} RoundsConcat(lib: Library, n: Node, items: seq<Value>, i: nat, vars: Vars,
      texts: seq<string>, breaks: bool)
    requires n.For? && i <= |texts| <= |items| && (breaks ==> i < |texts|) && (!breaks ==> |texts| == |items|)
    requires forall k :: i <= k < |texts| - (if breaks then 1 else 0) ==>
      GoesOn(lib, n.varName, n.body, items, k, vars, texts[k])
    requires breaks ==> Rounds(lib, n.varName, n.body, items, |texts| - 1, vars, texts[|texts| - 1], Broke)
    ensures RenderItems(lib, n, items, i, vars, []) == Rendering(Concat(texts[i..]), vars, Done)
    decreases |items| - i
  {
    hide RenderNodes, Frame;
    if i < |texts| {
      var frame := Frame(n.varName, items[i], i, |items|);
      assert [] + [frame] == [frame];
      assert texts[i..][0] == texts[i] && texts[i..][1..] == texts[i + 1..];
      if breaks && i == |texts| - 1 {
        assert Concat(texts[i + 1..]) == "" && texts[i] + "" == texts[i];
      } else {
        RoundsConcat(lib, n, items, i + 1, vars, texts, breaks);
        assert GoesOn(lib, n.varName, n.body, items, i, vars, texts[i]);
      }
    }
  }

  lemma LoopConcat(lib: Library, name: string, items: seq<Value>, body: seq<Node>, other: seq<Node>, vars: Vars,
      texts: seq<string>, breaks: bool)
    requires items != [] && |texts| <= |items| && (breaks ==> texts != []) && (!breaks ==> |texts| == |items|)
    requires forall k :: 0 <= k < |texts| - (if breaks then 1 else 0) ==>
      GoesOn(lib, name, body, items, k, vars, texts[k])
    requires breaks ==> Rounds(lib, name, body, items, |texts| - 1, vars, texts[|texts| - 1], Broke)
    ensures Looped(lib, name, List(items), body, other, vars) == Ok(Concat(texts))
  {
    hide Rounds, GoesOn;
    var n := For(name, Lit(List(items)), body, other);
    RoundsConcat(lib, n, items, 0, vars, texts, breaks);
    assert texts[0..] == texts;
    hide RenderNodes, RenderItems, Concat;
    LoopBy(lib, name, List(items), body, other, vars);
    ListsIterate(items);
    hide RenderNode;
    OneNode(lib, n, vars);
    assert Concat(texts) + "" == Concat(texts);
  }

  /// What a loop gives its body

  // `{{ name.field }}` inside a loop.
  function Field(name: string, fields: seq<string>): Node {
    Out(Output(Var(name, if fields == [] then [] else [Prop(fields[0])], name), []))
  }

  // `forloop`, for item i of n.
  function Position(field: string, i: nat, n: nat): string
    requires i < n
  {
    match field
    case "index" => Decimals.Decimal(i + 1)
    case "index0" => Decimals.Decimal(i)
    case "rindex" => Decimals.Decimal(n - i)
    case "rindex0" => Decimals.Decimal(n - i - 1)
    case "first" => if i == 0 then "true" else "false"
    case "last" => if i == n - 1 then "true" else "false"
    case "length" => Decimals.Decimal(n)
    case _ => ""
  }

  const POSITIONS := {"index", "index0", "rindex", "rindex0", "first", "last", "length"}

  lemma OneNodeIn(lib: Library, n: Node, globals: Vars, locals: seq<Vars>)
    ensures var r := RenderNode(lib, n, globals, locals);
      RenderNodes(lib, [n], globals, locals) == if r.signal.Done? then Rendering(r.text + "", r.globals, Done) else r
  {
    hide RenderNode;
    assert [n][1..] == [];
  }

  lemma FieldRenders(lib: Library, name: string, fields: seq<string>, frame: Vars, vars: Vars, v: Value)
    requires name in frame && |fields| <= 1
    requires if fields == [] then v == frame[name]
      else frame[name].Map? && fields[0] in frame[name].entries && v == frame[name].entries[fields[0]]
    ensures RenderNode(lib, Field(name, fields), vars, [frame]) == Rendering(ToString(lib, v), vars, Done)
  {
    hide ToString;
    var segs := if fields == [] then [] else [Prop(fields[0])];
    var e := Var(name, segs, name);
    assert Lookup(vars, [frame], name) == Some(frame[name]);
    if fields != [] {
      FieldPath(lib, fields[0], frame[name], vars, frame);
    } else {
      assert EvalPath(lib, [], v, vars, [frame], true) == Found(v, None);
    }
    hide EvalPath, Lookup;
    assert Eval(lib, e, vars, [frame], true) == Got(v, None);
    hide Eval;
    assert EvalOutput(lib, Output(e, []), vars, [frame]) == Ok(v);
  }

  lemma FieldPath(lib: Library, field: string, m: Value, vars: Vars, frame: Vars)
    requires m.Map? && field in m.entries
    ensures EvalPath(lib, [Prop(field)], m, vars, [frame], true) == Found(m.entries[field], None)
  {
    var v := m.entries[field];
    assert [Prop(field)][1..] == [];
    assert EvalKey(lib, Prop(field), vars, [frame], true) == Got(Str(field), None);
    assert IndexValue(lib, m, Str(field)) == Some(v);
    assert EvalPath(lib, [], v, vars, [frame], true) == Found(v, None);
  }

  lemma FieldGoesOn(lib: Library, name: string, fields: seq<string>, items: seq<Value>, i: nat, varName: string,
      vars: Vars, v: Value)
    requires i < |items| && |fields| <= 1
    requires var frame := Frame(varName, items[i], i, |items|);
      name in frame && if fields == [] then v == frame[name]
      else frame[name].Map? && fields[0] in frame[name].entries && v == frame[name].entries[fields[0]]
    ensures GoesOn(lib, varName, [Field(name, fields)], items, i, vars, ToString(lib, v))
  {
    var frame := Frame(varName, items[i], i, |items|);
    hide Frame, ToString;
    FieldRenders(lib, name, fields, frame, vars, v);
    OneNodeIn(lib, Field(name, fields), vars, [frame]);
    hide RenderNode, RenderNodes;
    assert ToString(lib, v) + "" == ToString(lib, v);
  }

  // The loop variable is each item in turn, whatever the variables say of its name.
  lemma LoopShowsItems(lib: Library, name: string, items: seq<Value>, other: seq<Node>, vars: Vars, texts: seq<string>)
    requires name != "forloop" && items != [] && |texts| == |items|
    requires forall i :: 0 <= i < |items| ==> Shown(lib, items[i], []) == Ok(texts[i])
    ensures Looped(lib, name, List(items), [Field(name, [])], other, vars) == Ok(Concat(texts))
  {
    hide GoesOn, Shown, Looped, Concat, ToString;
    forall i | 0 <= i < |items| ensures GoesOn(lib, name, [Field(name, [])], items, i, vars, texts[i]) {
      ShownIs(lib, items[i]);
      FieldGoesOn(lib, name, [], items, i, name, vars, items[i]);
    }
    LoopConcat(lib, name, items, [Field(name, [])], other, vars, texts, false);
  }

  // And forloop tells where the loop is.
  lemma LoopShowsPosition(lib: Library, name: string, field: string, items: seq<Value>, other: seq<Node>, vars: Vars,
      texts: seq<string>)
    requires items != [] && |texts| == |items| && field in POSITIONS
    requires forall i :: 0 <= i < |items| ==> texts[i] == Position(field, i, |items|)
    ensures Looped(lib, name, List(items), [Field("forloop", [field])], other, vars) == Ok(Concat(texts))
  {
    hide GoesOn, Looped, Concat, Position;
    var body := [Field("forloop", [field])];
    forall i | 0 <= i < |items| ensures GoesOn(lib, name, body, items, i, vars, texts[i]) {
      PositionGoesOn(lib, name, field, items, i, vars);
    }
    LoopConcat(lib, name, items, body, other, vars, texts, false);
  }

  lemma PositionGoesOn(lib: Library, name: string, field: string, items: seq<Value>, i: nat, vars: Vars)
    requires i < |items| && field in POSITIONS
    ensures GoesOn(lib, name, [Field("forloop", [field])], items, i, vars, Position(field, i, |items|))
  {
    hide GoesOn, Decimals.Decimal;
    var v := PositionValue(name, field, items, i);
    FieldGoesOn(lib, "forloop", [field], items, i, name, vars, v);
  }

  lemma PositionValue(name: string, field: string, items: seq<Value>, i: nat) returns (v: Value)
    requires i < |items| && field in POSITIONS
    ensures var frame := Frame(name, items[i], i, |items|);
      "forloop" in frame && frame["forloop"].Map? && field in frame["forloop"].entries
      && v == frame["forloop"].entries[field]
    ensures forall lib :: ToString(lib, v) == Position(field, i, |items|)
  {
    hide Decimals.Decimal;
    v := Frame(name, items[i], i, |items|)["forloop"].entries[field];
  }

  // break ends the loop after what came before it, continue only the round.
  lemma LoopBreaks(lib: Library, name: string, items: seq<Value>, other: seq<Node>, vars: Vars, z: string,
      texts: seq<string>)
    requires name != "forloop" && items != [] && |texts| == |items|
    requires forall i :: 0 <= i < |items| ==> Shown(lib, items[i], []) == Ok(texts[i])
    ensures Looped(lib, name, List(items), [Field(name, []), Break, Text(z)], other, vars) == Ok(texts[0])
    ensures Looped(lib, name, List(items), [Field(name, []), Continue, Text(z)], other, vars) == Ok(Concat(texts))
  {
    hide GoesOn, Rounds, Shown, Looped, ToString;
    var stops, skips := [Field(name, []), Break, Text(z)], [Field(name, []), Continue, Text(z)];
    forall i | 0 <= i < |items|
      ensures Rounds(lib, name, stops, items, i, vars, texts[i], Broke)
      ensures GoesOn(lib, name, skips, items, i, vars, texts[i])
    {
      ShownIs(lib, items[i]);
      Leaves(lib, name, items, i, vars, Break, z);
      Leaves(lib, name, items, i, vars, Continue, z);
      OnAfter(lib, name, skips, items, i, vars, texts[i]);
    }
    LoopConcat(lib, name, items, stops, other, vars, [texts[0]], true);
    LoopConcat(lib, name, items, skips, other, vars, texts, false);
    assert Concat([texts[0]]) == texts[0] by { assert [texts[0]][1..] == [] && texts[0] + "" == texts[0]; }
  }

  lemma OnAfter(lib: Library, name: string, body: seq<Node>, items: seq<Value>, i: nat, vars: Vars, text: string)
    requires i < |items| && Rounds(lib, name, body, items, i, vars, text, Continued)
    ensures GoesOn(lib, name, body, items, i, vars, text)
  {
  }

  lemma Leaves(lib: Library, name: string, items: seq<Value>, i: nat, vars: Vars, leave: Node, z: string)
    requires i < |items| && name != "forloop" && (leave.Break? || leave.Continue?)
    ensures Rounds(lib, name, [Field(name, []), leave, Text(z)], items, i, vars, ToString(lib, items[i]),
                   if leave.Break? then Broke else Continued)
  {
    var frame := Frame(name, items[i], i, |items|);
    assert frame[name] == items[i];
    hide Frame, ToString;
    FieldRenders(lib, name, [], frame, vars, items[i]);
    var rest := [leave, Text(z)];
    assert ([Field(name, [])] + rest)[1..] == rest && [Field(name, [])] + rest == [Field(name, []), leave, Text(z)];
    var signal := if leave.Break? then Broke else Continued;
    assert RenderNode(lib, leave, vars, [frame]) == Rendering("", vars, signal);
    hide RenderNode;
    assert RenderNodes(lib, rest, vars, [frame]) == Rendering("", vars, signal);
    assert ToString(lib, items[i]) + "" == ToString(lib, items[i]);
  }

  // Outside a loop they are errors.
  lemma StrayLeaves(lib: Library, vars: Vars)
    ensures Render(lib, [Break], vars) == Err(RenderError("liquid: break"))
    ensures Render(lib, [Continue], vars) == Err(RenderError("liquid: continue"))
  {
    OneNode(lib, Break, vars);
    OneNode(lib, Continue, vars);
    hide RenderNodes;
  }

  /// Names

  // An assignment is seen by what follows, over any value given from outside.
  lemma AssignShows(lib: Library, x: string, v: Value, vars: Vars)
    ensures Render(lib, [Assign(x, Output(Lit(v), [])), Out(Output(Var(x, [], x), []))], vars) == Shown(lib, v, [])
  {
    hide ToString;
    var put, get := Assign(x, Output(Lit(v), [])), Out(Output(Var(x, [], x), []));
    var after := vars[x := v];
    assert EvalOutput(lib, Output(Lit(v), []), vars, []) == Ok(v);
    assert RenderNode(lib, put, vars, []) == Rendering("", after, Done);
    assert Lookup(after, [], x) == Some(v);
    assert EvalPath(lib, [], v, after, [], true) == Found(v, None);
    assert EvalOutput(lib, Output(Var(x, [], x), []), after, []) == Ok(v);
    hide EvalOutput;
    assert RenderNode(lib, get, after, []) == Rendering(ToString(lib, v), after, Done);
    assert [put, get][1..] == [get];
    OneNode(lib, get, after);
    hide RenderNode, Shown;
    assert ToString(lib, v) + "" == ToString(lib, v) && "" + ToString(lib, v) == ToString(lib, v);
    ShownIs(lib, v);
  }

  // The inner of two loops with one variable hides the outer one's, and gives
  // it back when it is done.
  lemma InnerHidesOuter(lib: Library, x: string, a: Value, b: Value, vars: Vars)
    requires x != "forloop"
    ensures Looped(lib, x, List([a]), [For(x, Lit(List([b])), [Field(x, [])], []), Field(x, [])], [], vars)
      == Ok(ToString(lib, b) + ToString(lib, a))
  {
    hide ToString;
    var inner, get := For(x, Lit(List([b])), [Field(x, [])], []), Field(x, []);
    var body := [inner, get];
    var f, g := Frame(x, a, 0, 1), Frame(x, b, 0, 1);
    assert f[x] == a && g[x] == b;
    hide Frame;
    FieldRenders(lib, x, [], f, vars, a);
    InnerRenders(lib, x, b, vars, f, g);
    assert body[1..] == [get];
    OneNodeIn(lib, get, vars, [f]);
    hide RenderNode;
    var text := ToString(lib, b) + ToString(lib, a);
    assert ToString(lib, a) + "" == ToString(lib, a);
    assert RenderNodes(lib, body, vars, [f]) == Rendering(text, vars, Done);
    hide RenderNodes;
    assert [a][0] == a && |[a]| == 1;
    assert GoesOn(lib, x, body, [a], 0, vars, text);
    hide GoesOn;
    LoopConcat(lib, x, [a], body, [], vars, [text], false);
    assert Concat([text]) == text by { assert [text][1..] == [] && text + "" == text; }
  }

  lemma InnerRenders(lib: Library, x: string, b: Value, vars: Vars, f: Vars, g: Vars)
    requires x in g && g[x] == b && g == Frame(x, b, 0, 1)
    ensures RenderNode(lib, For(x, Lit(List([b])), [Field(x, [])], []), vars, [f])
      == Rendering(ToString(lib, b), vars, Done)
  {
    hide ToString, Frame;
    var n, get := For(x, Lit(List([b])), [Field(x, [])], []), Field(x, []);
    assert EvalStrict(lib, Lit(List([b])), vars, [f]) == Ok(List([b]));
    ListsIterate([b]);
    InnerField(lib, x, b, vars, f, g);
    OneNodeIn(lib, get, vars, [f, g]);
    assert [f] + [g] == [f, g] && [b][0] == b;
    hide RenderNodes, Iterable;
    assert ToString(lib, b) + "" == ToString(lib, b);
    assert RenderItems(lib, n, [b], 1, vars, [f]) == Rendering("", vars, Done);
    assert RenderItems(lib, n, [b], 0, vars, [f]) == Rendering(ToString(lib, b), vars, Done);
  }

  lemma InnerField(lib: Library, x: string, b: Value, vars: Vars, f: Vars, g: Vars)
    requires x in g && g[x] == b
    ensures RenderNode(lib, Field(x, []), vars, [f, g]) == Rendering(ToString(lib, b), vars, Done)
  {
    hide ToString;
    var e := Var(x, [], x);
    assert [f, g][|[f, g]| - 1] == g;
    assert Lookup(vars, [f, g], x) == Some(b);
    assert EvalPath(lib, [], b, vars, [f, g], true) == Found(b, None);
    assert Eval(lib, e, vars, [f, g], true) == Got(b, None);
    hide Eval;
    assert EvalOutput(lib, Output(e, []), vars, [f, g]) == Ok(b);
  }
}
