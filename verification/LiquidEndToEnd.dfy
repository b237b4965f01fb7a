/**
 Templates from their source to their text, said about characters and values
 only, and the white space a dash takes away (internal/liquid/parse.go, render.go).
 */
module LiquidEndToEnd {
  import opened Options
  import opened LiquidSyntax
  import opened LiquidValues
  import opened LiquidSemantics
  import opened LiquidLexer
  import opened LiquidSource
  import LiquidEngine
  import LiquidExpressions
  import LiquidGrammar
  import LiquidMeaning
  import LiquidParser
  import LiquidScanner
  import LiquidWords
  import Spaces

  type Quoting = LiquidGrammar.Quoting

  /// Dashes

  predicate BlankChar(c: char) {
    c == ' ' || c == '\t' || c == '\r' || c == '\n'
  }

  // r is s without the blanks it starts with.
  predicate Leading(s: string, r: string) {
    && |r| <= |s| && s[|s| - |r|..] == r && (r != "" ==> !BlankChar(r[0]))
    && forall i :: 0 <= i < |s| - |r| ==> BlankChar(s[i])
  }

  // r is s without the blanks it ends with.
  predicate Trailing(s: string, r: string) {
    && |r| <= |s| && s[..|r|] == r && (r != "" ==> !BlankChar(r[|r| - 1]))
    && forall i :: |r| <= i < |s| ==> BlankChar(s[i])
  }

  lemma {:induction false} LeadingIs(s: string, r: string)
    requires Leading(s, r)
    ensures DropBlanks(s) == r
  {
    if |r| < |s| {
      assert s[1..][|s| - 1 - |r|..] == r;
      LeadingIs(s[1..], r);
    }
  }

  lemma {:induction false} TrailingIs(s: string, r: string)
    requires Trailing(s, r)
    ensures DropLastBlanks(s) == r
  {
    if |r| < |s| {
      assert s[..|s| - 1][..|r|] == r;
      TrailingIs(s[..|s| - 1], r);
    } else {
      assert s == r;
    }
  }

  predicate Plainly(s: string) {
    forall i :: 0 <= i < |s| ==> !OpensAt(s, i)
  }

  function Texts(s: string): seq<LiquidParser.Piece> {
    if s == "" then [] else [LiquidParser.TextPiece(s)]
  }

  function When(cond: bool, s: string): string {
    if cond then s else ""
  }

  // A tag or an output with a dash on either side, on both or on none.
  function Dashed(tag: bool, left: bool, s: string, right: bool): string {
    (if tag then "{%" else "{{") + (When(left, "-") + (" " + s + " ") + When(right, "-")) + if tag then "%}" else "}}"
  }

  function Piece(tag: bool, s: string): LiquidParser.Piece {
    if tag then LiquidParser.TagPiece(s) else LiquidParser.OutPiece(s)
  }

  // The dash on the left takes the blanks before it, that on the right those after.
  lemma DashesMean(t: string, tag: bool, left: bool, s: string, right: bool, u: string, t2: string, u2: string)
    requires Plainly(t) && EndsPlainly(t) && Plainly(u) && Inside(s, if tag then '%' else '}')
    requires if left then Trailing(t, t2) else t2 == t
    requires if right then Leading(u, u2) else u2 == u
    ensures LexFrom(t + Dashed(tag, left, s, right) + u, false)
      == LiquidScanner.Ok(Texts(t2) + [Piece(tag, s)] + Texts(u2))
  {
    var c := if tag then '%' else '}';
    var body := When(left, "-") + (" " + s + " ") + When(right, "-");
    var tail := (if tag then "{%" else "{{") + (body + ([c, '}'] + u));
    var src := t + tail;
    hide *;
    DashedIs(tag, left, s, right, body);
    Around(t, if tag then "{%" else "{{", body, [c, '}'], u);
    assert 1 < |tail| && OpensAt(tail, 0) && (tail[1] == '%' <==> tag) && tail[2..] == body + ([c, '}'] + u) by {
      OpeningIs(tag, tail, body + ([c, '}'] + u));
    }
    FindOpenAt(t, tail);
    Slices(t, tail);
    BodyCloses(left, s, right, c);
    FindCloseExact(body, c, u);
    var p := FrontUnfolds(src, false, |t|, tail[2..]);
    BodyCut(left, s, right, c, u);
    assert Closer(tag) != "" && Closer(tag)[0] == c && MakePiece(tag, s) == Piece(tag, s) by { MakeIs(tag, s); }
    assert tail[2..][..|body|] == body;
    assert src != "" && src[|t| + 2 + |body| + 2..] == u by { SliceTwice(t, tail, body, [c, '}'], u); }
    LexDash(src, TextOf(t, false, left) + [p], |t| + 2 + |body| + 2, right, u);
    TextsAre(t, left, t2, u, right, u2);
    LexLast(u, right);
    JoinOk(TextOf(t, false, left) + [p], TextOf(u, right, false));
  }

  lemma DashedIs(tag: bool, left: bool, s: string, right: bool, body: string)
    requires body == When(left, "-") + (" " + s + " ") + When(right, "-")
    ensures Dashed(tag, left, s, right) == (if tag then "{%" else "{{") + body + [if tag then '%' else '}', '}']
  {
    hide When;
    var close := if tag then "%}" else "}}";
    assert close == [if tag then '%' else '}', '}'];
  }

  lemma Around(t: string, a: string, b: string, c: string, u: string)
    ensures t + (a + b + c) + u == t + (a + (b + (c + u)))
  {
  }

  lemma OpeningIs(tag: bool, tail: string, more: string)
    requires tail == (if tag then "{%" else "{{") + more
    ensures 1 < |tail| && OpensAt(tail, 0) && (tail[1] == '%' <==> tag) && tail[2..] == more
  {
  }

  lemma FindOpenAt(t: string, tail: string)
    requires Plainly(t) && EndsPlainly(t) && OpensAt(tail, 0)
    ensures FindOpen(t + tail) == |t|
  {
    FindOpenExact(t, tail);
  }

  lemma BodyCloses(left: bool, s: string, right: bool, c: char)
    requires Inside(s, c) && (c == '%' || c == '}')
    ensures var body := When(left, "-") + (" " + s + " ") + When(right, "-");
      body != "" && body[|body| - 1] != c && forall i :: 0 <= i < |body| - 1 ==> !(body[i] == c && body[i + 1] == '}')
  {
    var body, k := When(left, "-") + (" " + s + " ") + When(right, "-"), |When(left, "-")| + 1;
    forall i | 0 <= i < |body| - 1 ensures !(body[i] == c && body[i + 1] == '}') {
      if k <= i < k + |s| - 1 {
        assert body[i] == s[i - k] && body[i + 1] == s[i + 1 - k];
      }
    }
  }

  lemma BodyCut(left: bool, s: string, right: bool, c: char, u: string)
    requires Inside(s, c)
    ensures var body := When(left, "-") + (" " + s + " ") + When(right, "-");
      Dash(body + ([c, '}'] + u)) == left && LastDash(body) == right && BodyOf(body, left) == s
  {
    assert Spaces.TrimSpace(" " + s + " ") == s by { Spaces.PaddedTrims(s); }
    hide *;
    var m := " " + s + " ";
    var front := When(left, "-") + m;
    FrontDash(left, m);
    BackDash(front, right);
    DashStays(front, When(right, "-"), [c, '}'] + u);
    CutOnce(front + When(right, "-"), left, right, front, m, s);
  }

  lemma CutOnce(body: string, left: bool, right: bool, front: string, m: string, s: string)
    requires LastDash(body) == right && (right ==> body != "") && (if right then body[..|body| - 1] else body) == front
    requires Dash(front) == left && (left ==> front != "") && (if left then front[1..] else front) == m
    requires Spaces.TrimSpace(m) == s
    ensures BodyOf(body, left) == s
  {
    hide Spaces.TrimSpace, Dash, LastDash;
  }

  lemma FrontDash(left: bool, m: string)
    requires m != "" && m[0] == ' ' && m[|m| - 1] == ' '
    ensures var a := When(left, "-") + m;
      a != "" && a[|a| - 1] == ' ' && Dash(a) == left && (if left then a[1..] else a) == m
  {
    assert "" + m == m;
  }

  lemma BackDash(a: string, right: bool)
    requires a != "" && a[|a| - 1] == ' '
    ensures var b := a + When(right, "-"); LastDash(b) == right && (if right then b[..|b| - 1] else b) == a
  {
    assert a + "" == a;
  }

  lemma DashStays(a: string, b: string, more: string)
    requires a != ""
    ensures Dash(a + b + more) == Dash(a)
  {
  }

  lemma MakeIs(tag: bool, s: string)
    ensures Closer(tag) == [if tag then '%' else '}', '}'] && MakePiece(tag, s) == Piece(tag, s)
  {
  }

  lemma LexDash(src: string, pieces: seq<LiquidParser.Piece>, size: nat, dash: bool, u: string)
    requires src != "" && FrontOf(src, false) == Front(pieces, size, dash) && src[size..] == u
    ensures LexFrom(src, false) == Join(pieces, LexFrom(u, dash))
  {
    hide FrontOf, Join;
  }

  lemma TextsAre(t: string, left: bool, t2: string, u: string, right: bool, u2: string)
    requires if left then Trailing(t, t2) else t2 == t
    requires if right then Leading(u, u2) else u2 == u
    ensures TextOf(t, false, left) == Texts(t2) && TextOf(u, right, false) == Texts(u2)
  {
    hide Leading, Trailing, DropBlanks, DropLastBlanks;
    if left { TrailingIs(t, t2); }
    if right { LeadingIs(u, u2); }
  }

  lemma LexLast(u: string, trim: bool)
    requires Plainly(u)
    ensures LexFrom(u, trim) == LiquidScanner.Ok(TextOf(u, trim, false))
  {
    if u != "" { NoOpening(u); }
  }

  lemma {:induction false} NoOpening(u: string)
    requires Plainly(u)
    ensures FindOpen(u) == |u|
  {
    if u != "" {
      assert forall i :: 0 <= i < |u| - 1 ==> OpensAt(u[1..], i) == OpensAt(u, i + 1);
      NoOpening(u[1..]);
    }
  }

  /// Whole templates

  // `{% if c %}t{% else %}e{% endif %}`.
  function Choosing(c: string, t: string, e: string): string {
    Tagged("if " + c) + (t + (Tagged("else") + (e + (Tagged("endif") + ""))))
  }

  // Text that stands for itself and is not all white space.
  predicate Printed(t: string) {
    Plainly(t) && EndsPlainly(t) && !Spaces.AllSpace(t)
  }

  lemma ChoosingParses(q: Quoting, c: string, t: string, e: string, x: Expr)
    requires Inside(c, '%') && LiquidExpressions.ConditionOf(q, c) == LiquidScanner.Ok(x) && Printed(t) && Printed(e)
    ensures TemplateOf(q, Choosing(c, t, e)) == LiquidScanner.Ok(LiquidMeaning.Choice(x, t, e))
  {
    hide *;
    PrintedText(q, t);
    PrintedText(q, e);
    NoSource(q);
    IfElseMeans(q, c, t, e, "", x, [Text(t)], [Text(e)], []);
    assert Choosing(c, t, e) == Tagged("if " + c) + (t + (Tagged("else") + (e + (Tagged("endif") + "")))) by {
      ChoosingIs(c, t, e);
    }
    var n := LiquidSyntax.If([Branch(x, [Text(t)])], [Text(e)]);
    assert LiquidMeaning.Choice(x, t, e) == [n] + [] by { ChoiceIs(x, t, e); }
  }

  lemma ChoosingIs(c: string, t: string, e: string)
    ensures Choosing(c, t, e) == Tagged("if " + c) + (t + (Tagged("else") + (e + (Tagged("endif") + ""))))
  {
  }

  lemma ChoiceIs(x: Expr, t: string, e: string)
    ensures LiquidMeaning.Choice(x, t, e) == [LiquidSyntax.If([Branch(x, [Text(t)])], [Text(e)])] + []
  {
  }

  lemma NoSource(q: Quoting)
    ensures TemplateOf(q, "") == LiquidScanner.Ok([])
  {
    hide TemplateOf;
    LiquidSource.TextMeans(q, "");
  }

  lemma PrintedText(q: Quoting, t: string)
    requires Printed(t)
    ensures TemplateOf(q, t) == LiquidScanner.Ok([Text(t)]) && LiquidParser.RemoveBlankText([Text(t)]) == [Text(t)]
    ensures EndsPlainly(t)
  {
    assert t != "";
    assert EndsPlainly(t) && forall i :: 0 <= i < |t| ==> !OpensAt(t, i);
    assert !Quiet([Text(t)][0]);
    hide TemplateOf, Spaces.AllSpace, EndsPlainly, OpensAt, LiquidParser.RemoveBlankText;
    LiquidSource.TextMeans(q, t);
    KeptMeans([Text(t)], [], Text(t));
  }

  // The condition's value chooses the text.
  lemma SourceChooses(lib: Library, q: Quoting, c: string, t: string, e: string, x: Expr, vars: Vars, v: Value)
    requires Inside(c, '%') && LiquidExpressions.ConditionOf(q, c) == LiquidScanner.Ok(x) && Printed(t) && Printed(e)
    requires LiquidMeaning.Evaluates(lib, x, vars, v)
    ensures LiquidEngine.RenderSource(lib, q, false, Choosing(c, t, e), vars)
      == LiquidEngine.Rendered(if v == Nil || v == Bool(false) then e else t)
  {
    ChoosingParses(q, c, t, e, x);
    assert !Truthy(v) <==> v == Nil || v == Bool(false);
    hide TemplateOf, Render, LiquidMeaning.Evaluates, Printed, Inside, Choosing, Truthy, LiquidMeaning.Choice;
    LiquidMeaning.ChoiceRenders(lib, x, vars, v, t, e);
  }

  // `{% if a w b %}t{% else %}e{% endif %}` on two numbers, whatever reads as them.
  lemma NumbersInSource(lib: Library, q: Quoting, a: string, w: string, b: string, t: string, e: string, x: Expr,
      y: Expr, vars: Vars, l: string, r: string, lx: real, ry: real)
    requires LiquidExpressions.OperandOf(q, a) == LiquidScanner.Ok(x) && LiquidMeaning.Evaluates(lib, x, vars, Num(l))
    requires LiquidExpressions.OperandOf(q, b) == LiquidScanner.Ok(y) && LiquidMeaning.Evaluates(lib, y, vars, Num(r))
    requires lib.float(l) == Some(lx) && lib.float(r) == Some(ry) && w in [">", "<", ">=", "<=", "==", "!=", "<>"]
    requires Inside(a + " " + w + " " + b, '%') && Printed(t) && Printed(e)
    ensures LiquidEngine.RenderSource(lib, q, false, Choosing(a + " " + w + " " + b, t, e), vars)
      == LiquidEngine.Rendered(if (match w
        case ">" => lx > ry
        case "<" => lx < ry
        case ">=" => lx >= ry
        case "<=" => lx <= ry
        case "==" => lx == ry
        case _ => lx != ry) then t else e)
  {
    var op := OperatorOf(w);
    hide LiquidWords.Operator, LiquidMeaning.Evaluates, Printed, Inside, Choosing, LiquidExpressions.OperandOf;
    hide LiquidEngine.RenderSource, LiquidExpressions.ConditionOf, LiquidMeaning.Holds;
    LiquidWords.ComparisonMeans(q, a, w, b, x, y);
    LiquidMeaning.NumbersCompare(lib, op, l, r, lx, ry);
    CompareChooses(lib, q, a + " " + w + " " + b, t, e, op, x, y, vars, Num(l), Num(r));
  }

  lemma OperatorOf(w: string) returns (op: Op)
    requires w in [">", "<", ">=", "<=", "==", "!=", "<>"]
    ensures LiquidWords.Operator(w) == Some(op)
    ensures match w
      case ">" => op == Gt
      case "<" => op == Lt
      case ">=" => op == Ge
      case "<=" => op == Le
      case "==" => op == Eq
      case _ => op == Ne
  {
    op := LiquidWords.Operator(w).value;
  }

  lemma CompareChooses(lib: Library, q: Quoting, c: string, t: string, e: string, op: Op, x: Expr, y: Expr, vars: Vars,
      l: Value, r: Value)
    requires Inside(c, '%') && LiquidExpressions.ConditionOf(q, c) == LiquidScanner.Ok(Compare(op, x, y))
    requires Printed(t) && Printed(e) && LiquidMeaning.Evaluates(lib, x, vars, l)
      && LiquidMeaning.Evaluates(lib, y, vars, r)
    ensures LiquidEngine.RenderSource(lib, q, false, Choosing(c, t, e), vars)
      == LiquidEngine.Rendered(if LiquidMeaning.Holds(lib, op, l, r) then t else e)
  {
    ChoosingParses(q, c, t, e, Compare(op, x, y));
    hide TemplateOf, Render, LiquidMeaning.Evaluates, LiquidMeaning.Holds, Printed, Inside, Choosing;
    hide LiquidMeaning.Choice;
    LiquidMeaning.AnyOperands(lib, op, x, y, l, r, vars, t, e);
  }

  // `{{ k }}` shows what k was given, or misses it.
  lemma NameShown(lib: Library, q: Quoting, k: string, vars: Vars)
    requires LiquidWords.Name(k) && !LiquidWords.Keyword(k)
    ensures var r := LiquidEngine.RenderSource(lib, q, false, Shown(k) + "", vars);
      if k !in vars then r == LiquidEngine.Failed(Missing(k))
      else vars[k].Str? ==> r == LiquidEngine.Rendered(vars[k].s)
  {
    NameParses(q, k);
    hide *;
    NameRenders(lib, k, vars);
    Sourced(lib, q, Shown(k) + "", [Out(Output(Var(k, [], k), []))], vars);
  }

  lemma Sourced(lib: Library, q: Quoting, src: string, nodes: seq<Node>, vars: Vars)
    requires TemplateOf(q, src) == LiquidScanner.Ok(nodes)
    ensures LiquidEngine.RenderSource(lib, q, false, src, vars) == LiquidEngine.FromOutcome(Render(lib, nodes, vars))
    ensures forall t :: LiquidEngine.FromOutcome(Ok(t)) == LiquidEngine.Rendered(t)
    ensures forall e :: LiquidEngine.FromOutcome(Err(e)) == LiquidEngine.Failed(e)
  {
    hide TemplateOf, Render;
  }

  lemma NameRenders(lib: Library, k: string, vars: Vars)
    ensures var r := Render(lib, [Out(Output(Var(k, [], k), []))], vars);
      if k !in vars then r == Err(Missing(k)) else vars[k].Str? ==> r == Ok(vars[k].s)
  {
    hide Render, EvalOutput;
    LiquidMeaning.OutRenders(lib, Output(Var(k, [], k), []), vars);
    NameEvaluates(lib, k, vars);
  }

  lemma NameParses(q: Quoting, k: string)
    requires LiquidWords.Name(k) && !LiquidWords.Keyword(k)
    ensures TemplateOf(q, Shown(k) + "") == LiquidScanner.Ok([Out(Output(Var(k, [], k), []))])
  {
    LiquidWords.NameMeans(q, k);
    LiquidWords.OperandIsOutput(q, k, Var(k, [], k));
    NameInside(k);
    NoSource(q);
    var o := Output(Var(k, [], k), []);
    hide TemplateOf, LiquidExpressions.OperandOf, LiquidExpressions.OutputOf, LiquidWords.Name, LiquidWords.Keyword;
    hide Inside, Shown;
    OutputMeans(q, k, "", o, []);
    assert [Out(o)] + [] == [Out(o)];
  }

  lemma NameInside(k: string)
    requires LiquidWords.Name(k)
    ensures Inside(k, '}')
  {
    assert Spaces.SpaceSize(k) == 0 && Spaces.SpaceEnd(k) == 0;
  }

  lemma NameEvaluates(lib: Library, k: string, vars: Vars)
    ensures var r := EvalOutput(lib, Output(Var(k, [], k), []), vars, []);
      r == if k in vars then Ok(vars[k]) else Err(Missing(k))
  {
    var e := Var(k, [], k);
    assert Lookup(vars, [], k) == if k in vars then Some(vars[k]) else None;
    if k in vars { assert EvalPath(lib, [], vars[k], vars, [], true) == Found(vars[k], None); }
    assert EvalStrict(lib, e, vars, []) == if k in vars then Ok(vars[k]) else Err(Missing(k));
  }
}
