/**
 What templates come to, said without the evaluator's own functions: every
 statement here is about the text a whole template renders to
 (internal/liquid/render.go, value.go).
 */
module LiquidMeaning {
  import opened Options
  import opened LiquidSyntax
  import opened LiquidValues
  import opened LiquidSemantics
  import SortedStrings
  import Utf8Runes
  import Utf8
  import Decimals

  /// Conditions

  function Choice(cond: Expr, t: string, e: string): seq<Node> {
    [If([Branch(cond, [Text(t)])], [Text(e)])]
  }

  // `{% if l op r %}yes{% else %}no{% endif %}` renders to yes.
  ghost predicate Holds(lib: Library, op: Op, l: Value, r: Value) {
    Render(lib, Choice(Compare(op, Lit(l), Lit(r)), "yes", "no"), map[]) == Ok("yes")
  }

  // `{% if v %}yes{% else %}no{% endif %}` renders to yes.
  ghost predicate Taken(lib: Library, cond: Expr) {
    Render(lib, Choice(cond, "yes", "no"), map[]) == Ok("yes")
  }

  // The expression has that value, no name missed.
  ghost predicate Evaluates(lib: Library, e: Expr, vars: Vars, v: Value) {
    Eval(lib, e, vars, [], false) == Got(v, None)
  }

  lemma OneNode(lib: Library, n: Node, vars: Vars)
    ensures var r := RenderNode(lib, n, vars, []);
      RenderNodes(lib, [n], vars, []) == if r.signal.Done? then Rendering(r.text + "", r.globals, Done) else r
  {
    hide RenderNode;
    assert [n][1..] == [];
  }

  lemma NoNodes(lib: Library, globals: Vars, locals: seq<Vars>)
    ensures RenderNodes(lib, [], globals, locals) == Rendering("", globals, Done)
  {
  }

  lemma OneText(lib: Library, t: string, globals: Vars, locals: seq<Vars>)
    ensures RenderNodes(lib, [Text(t)], globals, locals) == Rendering(t, globals, Done)
  {
    assert [Text(t)][1..] == [] && t + "" == t;
    assert RenderNode(lib, Text(t), globals, locals) == Rendering(t, globals, Done);
  }

  lemma ChoiceRenders(lib: Library, cond: Expr, vars: Vars, v: Value, t: string, e: string)
    requires Evaluates(lib, cond, vars, v)
    ensures Render(lib, Choice(cond, t, e), vars) == Ok(if Truthy(v) then t else e)
  {
    hide Eval, Truthy;
    var n := Choice(cond, t, e)[0];
    OneText(lib, t, vars, []);
    OneText(lib, e, vars, []);
    hide RenderNodes;
    assert Condition(lib, cond, vars, []) == (Truthy(v), None);
    hide Condition;
    var text := if Truthy(v) then t else e;
    assert RenderBranches(lib, n, 1, vars, []) == RenderNodes(lib, n.elseBody, vars, []);
    assert RenderBranches(lib, n, 0, vars, []) == Rendering(text, vars, Done);
    assert RenderNode(lib, n, vars, []) == Rendering(text, vars, Done);
    OneNode(lib, n, vars);
    assert text + "" == text;
  }

  lemma Literal(lib: Library, v: Value, vars: Vars)
    ensures Evaluates(lib, Lit(v), vars, v)
  {
  }

  lemma ComparesTo(lib: Library, op: Op, l: Expr, r: Expr, lv: Value, rv: Value, vars: Vars)
    requires Evaluates(lib, l, vars, lv) && Evaluates(lib, r, vars, rv)
    ensures Evaluates(lib, Compare(op, l, r), vars, Bool(Compared(lib, op, lv, rv)))
  {
    hide Compared;
  }

  lemma HoldsIs(lib: Library, op: Op, l: Value, r: Value)
    ensures Holds(lib, op, l, r) <==> Compared(lib, op, l, r)
  {
    hide Compared, Render, Choice, Evaluates;
    Literal(lib, l, map[]);
    Literal(lib, r, map[]);
    ComparesTo(lib, op, Lit(l), Lit(r), l, r, map[]);
    ChoiceRenders(lib, Compare(op, Lit(l), Lit(r)), map[], Bool(Compared(lib, op, l, r)), "yes", "no");
    assert "yes"[0] != "no"[0];
  }

  // What holds of two values decides for any two expressions that have them.
  lemma AnyOperands(lib: Library, op: Op, l: Expr, r: Expr, lv: Value, rv: Value, vars: Vars, t: string, e: string)
    requires Evaluates(lib, l, vars, lv) && Evaluates(lib, r, vars, rv)
    ensures Render(lib, Choice(Compare(op, l, r), t, e), vars) == Ok(if Holds(lib, op, lv, rv) then t else e)
  {
    hide Compared, Render, Choice, Evaluates, Holds;
    HoldsIs(lib, op, lv, rv);
    ComparesTo(lib, op, l, r, lv, rv, vars);
    ChoiceRenders(lib, Compare(op, l, r), vars, Bool(Compared(lib, op, lv, rv)), t, e);
  }

  // Numbers compare by their float readings.
  lemma NumbersCompare(lib: Library, op: Op, a: string, b: string, x: real, y: real)
    requires lib.float(a) == Some(x) && lib.float(b) == Some(y)
    ensures Holds(lib, op, Num(a), Num(b)) <==>
      match op
      case Gt => x > y
      case Lt => x < y
      case Ge => x >= y
      case Le => x <= y
      case Eq => x == y
      case Ne => x != y
      case Contains => false
  {
    hide Holds;
    HoldsIs(lib, op, Num(a), Num(b));
  }

  // Strings compare by the first byte in which they differ, a prefix first.
  lemma StringsCompare(lib: Library, op: Op, a: string, b: string)
    ensures Holds(lib, op, Str(a), Str(b)) <==>
      match op
      case Gt => SortedStrings.Before(b, a)
      case Lt => SortedStrings.Before(a, b)
      case Ge => a == b || SortedStrings.Before(b, a)
      case Le => a == b || SortedStrings.Before(a, b)
      case Eq => a == b
      case Ne => a != b
      case Contains => exists i :: StandsAt(a, b, i)
  {
    hide Holds, SortedStrings.Before, SortedStrings.Leq, Substring;
    HoldsIs(lib, op, Str(a), Str(b));
    SortedStrings.LeqExact(a, b);
    SortedStrings.LeqExact(b, a);
    SortedStrings.LeqTotal(a, b);
    SubstringIs(a, b);
    BeforeOneWay(a, b);
  }

  lemma BeforeOneWay(a: string, b: string)
    ensures SortedStrings.Before(a, b) ==> a != b && !SortedStrings.Before(b, a)
  {
    hide SortedStrings.Before;
    SortedStrings.LeqExact(a, b);
    SortedStrings.LeqExact(b, a);
    SortedStrings.NeverBeforeItself(a);
    if SortedStrings.Before(a, b) && SortedStrings.Before(b, a) {
      SortedStrings.LeqAntisymmetric(a, b);
    }
  }

  // n is the part of h from byte i on.
  predicate StandsAt(h: string, n: string, i: int) {
    0 <= i <= |h| - |n| && h[i..i + |n|] == n
  }

  lemma {:induction false} SubstringIs(h: string, n: string)
    ensures Substring(h, n) <==> exists i :: StandsAt(h, n, i)
  {
    if n <= h {
      assert StandsAt(h, n, 0);
    } else if h != "" {
      SubstringIs(h[1..], n);
      if i :| StandsAt(h[1..], n, i) {
        assert h[i + 1..i + 1 + |n|] == h[1..][i..i + |n|];
        assert StandsAt(h, n, i + 1);
      }
      assert |n| <= |h| ==> h[0..|n|] == h[..|n|];
      if i :| StandsAt(h, n, i) {
        assert h[1..][i - 1..i - 1 + |n|] == h[i..i + |n|];
        assert StandsAt(h[1..], n, i - 1);
      }
    }
  }

  // No other two values are in any order.
  lemma OthersAreNotOrdered(lib: Library, op: Op, l: Value, r: Value)
    requires op in {Gt, Lt, Ge, Le} && !(l.Str? && r.Str?)
    requires !(l.Num? && r.Num? && lib.float(l.token).Some? && lib.float(r.token).Some?)
    ensures !Holds(lib, op, l, r)
  {
    hide Holds;
    HoldsIs(lib, op, l, r);
  }

  // `empty` equals just the values that have nothing in them, on either side.
  lemma EmptyEquals(lib: Library, v: Value)
    ensures Holds(lib, Eq, v, Empty) <==> v in {Nil, Bool(false), Str(""), List([]), Map(map[])}
    ensures Holds(lib, Eq, Empty, v) <==> Holds(lib, Eq, v, Empty)
  {
    hide Holds;
    HoldsIs(lib, Eq, v, Empty);
    HoldsIs(lib, Eq, Empty, v);
  }

  // What else is equal: values of one kind, lists item by item, maps never.
  lemma ValuesEqualBy(lib: Library, l: Value, r: Value)
    requires !l.Empty? && !r.Empty?
    ensures Holds(lib, Eq, l, r) <==>
      match (l, r)
      case (Nil, Nil) => true
      case (Bool(a), Bool(b)) => a == b
      case (Str(a), Str(b)) => a == b
      case (Num(a), Num(b)) => lib.float(a).Some? && lib.float(a) == lib.float(b)
      case (List(a), List(b)) => |a| == |b| && forall i :: 0 <= i < |a| ==> Holds(lib, Eq, a[i], b[i])
      case _ => false
  {
    hide Holds;
    HoldsIs(lib, Eq, l, r);
    if l.List? && r.List? {
      forall i | 0 <= i < |l.items| && i < |r.items|
        ensures Holds(lib, Eq, l.items[i], r.items[i]) <==> ValuesEqual(lib, l.items[i], r.items[i])
      {
        HoldsIs(lib, Eq, l.items[i], r.items[i]);
      }
    }
  }

  lemma DifferentIsNotEqual(lib: Library, l: Value, r: Value)
    ensures Holds(lib, Ne, l, r) <==> !Holds(lib, Eq, l, r)
  {
    hide Holds, ValuesEqual;
    HoldsIs(lib, Eq, l, r);
    HoldsIs(lib, Ne, l, r);
  }

  // A list contains what one of its items equals, a string what is in it once
  // written out, and nothing else contains anything.
  lemma ContainsBy(lib: Library, h: Value, n: Value)
    ensures Holds(lib, Contains, h, n) <==>
      match h
      case List(items) => exists i :: 0 <= i < |items| && Holds(lib, Eq, items[i], n)
      case Str(s) => exists i, text :: Shown(lib, n, []) == Ok(text) && StandsAt(s, text, i)
      case _ => false
  {
    hide Holds, Shown;
    HoldsIs(lib, Contains, h, n);
    match h {
      case List(items) =>
        forall i | 0 <= i < |items| ensures Holds(lib, Eq, items[i], n) <==> ValuesEqual(lib, items[i], n) {
          HoldsIs(lib, Eq, items[i], n);
        }
      case Str(s) =>
        ShownIs(lib, n);
        SubstringIs(s, ToString(lib, n));
      case _ =>
    }
  }

  // Only nil and false are not taken; and, or and unless go by that.
  lemma TruthBy(lib: Library, l: Value, r: Value)
    ensures Taken(lib, Lit(l)) <==> l != Nil && l != Bool(false)
    ensures Taken(lib, And(Lit(l), Lit(r))) <==> Taken(lib, Lit(l)) && Taken(lib, Lit(r))
    ensures Taken(lib, Or(Lit(l), Lit(r))) <==> Taken(lib, Lit(l)) || Taken(lib, Lit(r))
    ensures Render(lib, [Unless(Lit(l), [Text("yes")], [Text("no")])], map[])
      == Ok(if Taken(lib, Lit(l)) then "no" else "yes")
  {
    assert "yes"[0] != "no"[0];
    JoinsTo(lib, l, r);
    Literal(lib, l, map[]);
    Literal(lib, r, map[]);
    UnlessRenders(lib, l);
    hide Evaluates, Render, Choice;
    ChoiceRenders(lib, Lit(l), map[], l, "yes", "no");
    ChoiceRenders(lib, Lit(r), map[], r, "yes", "no");
    ChoiceRenders(lib, And(Lit(l), Lit(r)), map[], Bool(Truthy(l) && Truthy(r)), "yes", "no");
    ChoiceRenders(lib, Or(Lit(l), Lit(r)), map[], Bool(Truthy(l) || Truthy(r)), "yes", "no");
  }

  lemma JoinsTo(lib: Library, l: Value, r: Value)
    ensures Evaluates(lib, And(Lit(l), Lit(r)), map[], Bool(Truthy(l) && Truthy(r)))
    ensures Evaluates(lib, Or(Lit(l), Lit(r)), map[], Bool(Truthy(l) || Truthy(r)))
  {
    hide Truthy;
    assert Eval(lib, Lit(l), map[], [], false) == Got(l, None);
    assert Eval(lib, Lit(r), map[], [], false) == Got(r, None);
  }

  lemma UnlessRenders(lib: Library, l: Value)
    ensures Render(lib, [Unless(Lit(l), [Text("yes")], [Text("no")])], map[]) == Ok(if Truthy(l) then "no" else "yes")
  {
    hide Truthy;
    var n := Unless(Lit(l), [Text("yes")], [Text("no")]);
    var text := if Truthy(l) then "no" else "yes";
    assert Condition(lib, Lit(l), map[], []) == (Truthy(l), None);
    OneText(lib, "yes", map[], []);
    OneText(lib, "no", map[], []);
    hide RenderNodes, Condition;
    assert RenderNode(lib, n, map[], []) == Rendering(text, map[], Done);
    OneNode(lib, n, map[]);
    assert text + "" == text;
  }

  /// Missing names in conditions

  // A condition that missed a name on the way to its value fails just where it
  // would be taken: an if when it holds, an unless when it does not.
  lemma MissingInConditions(lib: Library, cond: Expr, vars: Vars, v: Value, name: string, t: string, e: string)
    requires Eval(lib, cond, vars, [], false) == Got(v, Some(name))
    ensures var holds := v != Nil && v != Bool(false);
      && Render(lib, Choice(cond, t, e), vars) == (if holds then Err(Missing(name)) else Ok(e))
      && Render(lib, [Unless(cond, [Text(t)], [Text(e)])], vars) == (if holds then Ok(e) else Err(Missing(name)))
  {
    hide Eval;
    var n, u := Choice(cond, t, e)[0], Unless(cond, [Text(t)], [Text(e)]);
    var holds := Truthy(v);
    assert Condition(lib, cond, vars, []) == (holds, Some(name));
    OneText(lib, e, vars, []);
    hide RenderNodes, Condition;
    var missed, shown := Rendering("", vars, Raised(Missing(name))), Rendering(e, vars, Done);
    assert RenderBranches(lib, n, 1, vars, []) == RenderNodes(lib, n.elseBody, vars, []);
    assert RenderBranches(lib, n, 0, vars, []) == if holds then missed else shown;
    assert RenderNode(lib, n, vars, []) == if holds then missed else shown;
    assert RenderNode(lib, u, vars, []) == if holds then shown else missed;
    OneNode(lib, n, vars);
    OneNode(lib, u, vars);
    assert e + "" == e;
  }

  // A name nothing has is nil to a condition and missed by it, whatever else the
  // comparison reads.
  lemma NameIsMissed(lib: Library, x: string, op: Op, r: Value, vars: Vars)
    requires x !in vars
    ensures var gone := Var(x, [], x);
      && Eval(lib, gone, vars, [], false) == Got(Nil, Some(x))
      && Eval(lib, Compare(op, gone, Lit(r)), vars, [], false) == Got(Bool(Holds(lib, op, Nil, r)), Some(x))
      && Eval(lib, Compare(op, Lit(r), gone), vars, [], false) == Got(Bool(Holds(lib, op, r, Nil)), Some(x))
  {
    hide Compared, Holds;
    HoldsIs(lib, op, Nil, r);
    HoldsIs(lib, op, r, Nil);
    assert Lookup(vars, [], x) == None;
  }

  /// Output

  // `{{ v | filters }}`.
  ghost function Shown(lib: Library, v: Value, filters: seq<Filter>): Outcome<string> {
    Render(lib, [Out(Output(Lit(v), filters))], map[])
  }

  function Written(lib: Library, r: Outcome<Value>): Outcome<string> {
    if r.Ok? then Ok(ToString(lib, r.value)) else Err(r.error)
  }

  lemma OutRenders(lib: Library, o: Output, vars: Vars)
    ensures Render(lib, [Out(o)], vars) == Written(lib, EvalOutput(lib, o, vars, []))
  {
    hide EvalOutput, ToString;
    OneNode(lib, Out(o), vars);
    hide RenderNodes;
    var r := EvalOutput(lib, o, vars, []);
    if r.Ok? { assert ToString(lib, r.value) + "" == ToString(lib, r.value); }
  }

  lemma ShownBy(lib: Library, v: Value, filters: seq<Filter>)
    ensures Shown(lib, v, filters) == Written(lib, EvalFilters(lib, filters, v, map[], []))
  {
    hide EvalFilters, ToString, Render;
    OutRenders(lib, Output(Lit(v), filters), map[]);
    assert EvalStrict(lib, Lit(v), map[], []) == Ok(v);
  }

  lemma ShownIs(lib: Library, v: Value)
    ensures Shown(lib, v, []) == Ok(ToString(lib, v))
  {
    hide Shown, ToString;
    ShownBy(lib, v, []);
  }

  // What values look like; a list is its items one after another.
  lemma ValuesShown(lib: Library, v: Value, items: seq<Value>)
    ensures Shown(lib, Nil, []) == Ok("") && Shown(lib, Empty, []) == Ok("{}")
    ensures v.Bool? ==> Shown(lib, v, []) == Ok(if v.b then "true" else "false")
    ensures v.Str? ==> Shown(lib, v, []) == Ok(v.s)
    ensures v.Num? ==> Shown(lib, v, []) == Ok(v.token)
    ensures Shown(lib, List([]), []) == Ok("")
    ensures Shown(lib, v, []).Ok? && Shown(lib, List(items), []).Ok?
      && Shown(lib, List([v] + items), []) == Ok(Shown(lib, v, []).value + Shown(lib, List(items), []).value)
  {
    hide Shown;
    ShownIs(lib, Nil);
    ShownIs(lib, Empty);
    ShownIs(lib, v);
    ShownIs(lib, List([]));
    ShownIs(lib, List(items));
    ShownIs(lib, List([v] + items));
    assert ([v] + items)[1..] == items;
  }

  lemma OneFilter(lib: Library, name: string, args: seq<Expr>, v: Value, vs: seq<Value>, fs: seq<Filter>)
    requires EvalArgs(lib, args, map[], []) == Ok(vs)
    ensures var w := Filtered(lib, name, v, vs);
      EvalFilters(lib, [Filter(name, args)] + fs, v, map[], [])
        == if w.Ok? then EvalFilters(lib, fs, w.value, map[], []) else Err(w.error)
  {
    hide Filtered;
    assert ([Filter(name, args)] + fs)[1..] == fs;
  }

  lemma OneArg(lib: Library, v: Value)
    ensures EvalArgs(lib, [Lit(v)], map[], []) == Ok([v]) && EvalArgs(lib, [], map[], []) == Ok([])
  {
    assert [Lit(v)][1..] == [] && [v] + [] == [v];
    assert EvalStrict(lib, Lit(v), map[], []) == Ok(v);
  }

  // size: the characters of a string, the entries of a list or map, else 0.
  lemma SizeShown(lib: Library, v: Value, us: seq<int>)
    requires forall i :: 0 <= i < |us| ==> Utf8Runes.Scalar(us[i])
    ensures var size := Shown(lib, v, [Filter("size", [])]);
      match v
      case Str(s) => s == Utf8Runes.Runes(us) ==> size == Ok(Decimals.Decimal(|us|))
      case List(items) => size == Ok(Decimals.Decimal(|items|))
      case Map(entries) => size == Ok(Decimals.Decimal(|entries|))
      case _ => size == Ok("0")
  {
    hide Shown, Utf8Runes.Runes, Utf8Runes.Rune, Utf8.RuneCount, Utf8.Valid;
    Utf8Runes.RunesAreValid(us);
    var f := [Filter("size", [])];
    ShownBy(lib, v, f);
    OneArg(lib, v);
    OneFilter(lib, "size", [], v, [], []);
    assert f + [] == f;
    assert Filtered(lib, "size", v, []) == Ok(Number(SizeOf(v)));
  }

  // join: the items of a list with the separator between them, a blank if none
  // is given; anything else as it is.
  lemma JoinShown(lib: Library, v: Value, sep: Value, w: Value, x: Value, items: seq<Value>)
    ensures var join := [Filter("join", [Lit(sep)])];
      && Shown(lib, sep, []).Ok? && Shown(lib, w, []).Ok? && Shown(lib, List([x] + items), join).Ok?
      && (!v.List? ==> Shown(lib, v, join) == Shown(lib, v, []))
      && Shown(lib, List([]), join) == Ok("") && Shown(lib, List([w]), join) == Shown(lib, w, [])
      && Shown(lib, List([w] + ([x] + items)), join)
        == Ok(Shown(lib, w, []).value + Shown(lib, sep, []).value + Shown(lib, List([x] + items), join).value)
    ensures Shown(lib, v, [Filter("join", [])]) == Shown(lib, v, [Filter("join", [Lit(Str(" "))])])
  {
    hide Shown;
    JoinBy(lib, v, sep);
    JoinBy(lib, List([]), sep);
    JoinBy(lib, List([w]), sep);
    JoinBy(lib, List([x] + items), sep);
    JoinBy(lib, List([w] + ([x] + items)), sep);
    JoinBy(lib, v, Str(" "));
    ShownIs(lib, sep);
    ShownIs(lib, w);
    ShownIs(lib, v);
    assert ([w] + ([x] + items))[1..] == [x] + items && ([w] + ([x] + items))[0] == w;
  }

  lemma JoinBy(lib: Library, v: Value, sep: Value)
    ensures var text := if v.List? then Joined(lib, v.items, ToString(lib, sep)) else ToString(lib, v);
      && Shown(lib, v, [Filter("join", [Lit(sep)])]) == Ok(text)
      && (sep == Str(" ") ==> Shown(lib, v, [Filter("join", [])]) == Ok(text))
  {
    hide Shown, Joined;
    OneArg(lib, sep);
    ShownBy(lib, v, [Filter("join", [Lit(sep)])]);
    ShownBy(lib, v, [Filter("join", [])]);
    OneFilter(lib, "join", [Lit(sep)], v, [sep], []);
    OneFilter(lib, "join", [], v, [], []);
    assert [Filter("join", [Lit(sep)])] + [] == [Filter("join", [Lit(sep)])];
    assert [Filter("join", [])] + [] == [Filter("join", [])];
  }

  // default: replaces exactly the values that `empty` equals, by its argument
  // or by nothing, before any further filter.
  lemma DefaultShown(lib: Library, v: Value, d: Value, fs: seq<Filter>)
    ensures var blank := v in {Nil, Bool(false), Str(""), List([]), Map(map[])};
      && Shown(lib, v, [Filter("default", [Lit(d)])] + fs) == Shown(lib, if blank then d else v, fs)
      && Shown(lib, v, [Filter("default", [])] + fs) == Shown(lib, if blank then Str("") else v, fs)
  {
    hide Shown, EvalFilters;
    OneArg(lib, d);
    var w, u := if Blank(v) then d else v, if Blank(v) then Str("") else v;
    ShownBy(lib, v, [Filter("default", [Lit(d)])] + fs);
    ShownBy(lib, v, [Filter("default", [])] + fs);
    ShownBy(lib, w, fs);
    ShownBy(lib, u, fs);
    OneFilter(lib, "default", [Lit(d)], v, [d], fs);
    OneFilter(lib, "default", [], v, [], fs);
  }

  // No other filter is known.
  lemma OtherFiltersFail(lib: Library, v: Value, name: string, fs: seq<Filter>)
    requires name !in {"size", "join", "default"}
    ensures Shown(lib, v, [Filter(name, [])] + fs)
      == Err(RenderError("filter \"" + name + "\" is not allowed (allowed: size, join, default)"))
  {
    hide Shown, EvalFilters;
    OneArg(lib, v);
    ShownBy(lib, v, [Filter(name, [])] + fs);
    OneFilter(lib, name, [], v, [], fs);
  }
}
