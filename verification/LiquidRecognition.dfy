/**
 The expression parser accepts exactly the grammar: a source parses to an
 expression just when its tokens have a derivation that means it.
 */
module LiquidRecognition {
  import opened Options
  import opened LiquidSyntax
  import opened LiquidScanner
  import opened LiquidGrammar
  import opened LiquidExpressions
  import LiquidSemantics
  import LiquidValues

  lemma Regroup<T>(a: seq<T>, b: seq<T>, c: seq<T>)
    ensures (a + b) + c == a + (b + c)
  {
  }

  // No path goes on into these tokens.
  predicate EndsPath(post: seq<Token>) {
    !IsText(post, Punct, ".") && !IsText(post, Punct, "[")
  }

  predicate EndsComparison(post: seq<Token>) {
    post == [] || IsText(post, Ident, "and") || IsText(post, Ident, "or")
  }

  predicate EndsAnd(post: seq<Token>) {
    post == [] || IsText(post, Ident, "or")
  }

  /// Every derivation is accepted

  lemma {:induction false} PathComplete(q: Quoting, head: string, rest: seq<Seg>, name: string, steps: seq<Step>,
      post: seq<Token>)
    requires ValidSteps(steps) && EndsPath(post)
    ensures ParsePath(q, head, rest, name, StepsTokens(steps) + post)
      == Parsed(Var(head, rest + StepSegs(q, steps), name + StepNames(q, steps)), post)
    decreases steps, 0
  {
    hide ParseIndex, StepTokens, StepSeg, StepName;
    if steps == [] {
      assert [] + post == post && rest + [] == rest && name + "" == name;
    } else {
      var s, more := steps[0], StepsTokens(steps[1..]) + post;
      Regroup(StepTokens(s), StepsTokens(steps[1..]), post);
      PathComplete(q, head, rest + [StepSeg(q, s)], name + StepName(q, s), steps[1..], post);
      Regroup(rest, [StepSeg(q, s)], StepSegs(q, steps[1..]));
      Regroup(name, StepName(q, s), StepNames(q, steps[1..]));
      if s.Dot? { DotRead(q, head, rest, name, s, more); } else { BracketRead(q, head, rest, name, s, more); }
    }
  }

  lemma DotRead(q: Quoting, head: string, rest: seq<Seg>, name: string, s: Step, more: seq<Token>)
    requires s.Dot?
    ensures ParsePath(q, head, rest, name, StepTokens(s) + more)
      == ParsePath(q, head, rest + [StepSeg(q, s)], name + StepName(q, s), more)
  {
    hide ParseIndex;
    assert (StepTokens(s) + more)[2..] == more;
  }

  lemma {:induction false} BracketRead(q: Quoting, head: string, rest: seq<Seg>, name: string, s: Step,
      more: seq<Token>)
    requires ValidStep(s) && !s.Dot?
    ensures ParsePath(q, head, rest, name, StepTokens(s) + more)
      == ParsePath(q, head, rest + [StepSeg(q, s)], name + StepName(q, s), more)
    decreases s, 2
  {
    hide ParseIndex, StepSeg, ValidStep;
    var toks := StepTokens(s) + more;
    var shown := IndexComplete(q, s, more);
    assert IsText(toks, Punct, "[") by { assert toks[0] == StepTokens(s)[0]; }
    assert ([Token(s.close, "]")] + more)[1..] == more;
  }

  lemma {:induction false} IndexComplete(q: Quoting, s: Step, more: seq<Token>) returns (shown: string)
    requires ValidStep(s) && !s.Dot?
    ensures StepName(q, s) == "[" + shown + "]"
    ensures ParseIndex(q, StepTokens(s) + more) == Parsed(Subscript(StepSeg(q, s), shown), [Token(s.close, "]")] + more)
    decreases s, 1
  {
    hide ParsePath, StepSegs, StepNames, StepsTokens, Int64Of, ValidSteps;
    var closed := [Token(s.close, "]")] + more;
    match s
    case At(text, _) =>
      shown := LiquidValues.IntText(Int64Of(text).value);
      assert StepTokens(s) + more == [Token(Punct, "["), Token(Number, text)] + closed;
      IndexRead(q, Token(Number, text), closed);
    case Key(text, _) =>
      shown := q(text);
      assert StepTokens(s) + more == [Token(Punct, "["), Token(Quoted, text)] + closed;
      IndexRead(q, Token(Quoted, text), closed);
    case Sub(path, close) =>
      shown := path.head + StepNames(q, path.steps);
      PathComplete(q, path.head, [], path.head, path.steps, closed);
      assert [] + StepSegs(q, path.steps) == StepSegs(q, path.steps);
      assert StepTokens(s) + more == [Token(Punct, "["), Token(Ident, path.head)] + (StepsTokens(path.steps) + closed);
      IndexRead(q, Token(Ident, path.head), StepsTokens(path.steps) + closed);
  }

  lemma IndexRead(q: Quoting, t: Token, after: seq<Token>)
    ensures var r := ParseIndex(q, [Token(Punct, "["), t] + after);
      match t.kind
      case Number => Int64Of(t.text).Some? ==>
        r == Parsed(Subscript(Index(Int64Of(t.text).value), LiquidValues.IntText(Int64Of(t.text).value)), after)
      case Quoted => r == Parsed(Subscript(Prop(t.text), q(t.text)), after)
      case Ident =>
        var sub := ParsePath(q, t.text, [], t.text, after);
        sub.Parsed? ==> r == Parsed(Subscript(Dyn(sub.value), sub.value.name), sub.rest)
      case _ => true
  {
    hide ParsePath, Int64Of;
    assert ([Token(Punct, "["), t] + after)[2..] == after;
  }

  lemma OperandComplete(q: Quoting, o: Operand, post: seq<Token>)
    requires ValidOperand(o) && EndsPath(post)
    ensures ParseOperand(q, OperandTokens(o) + post) == Parsed(OperandExpr(q, o), post)
  {
    hide ParsePath, StepSegs, StepNames, StepsTokens;
    var toks := OperandTokens(o) + post;
    if o.PathOf? {
      assert toks[1..] == StepsTokens(o.path.steps) + post;
      PathComplete(q, o.path.head, [], o.path.head, o.path.steps, post);
      assert [] + StepSegs(q, o.path.steps) == StepSegs(q, o.path.steps);
    } else {
      assert toks[1..] == post;
    }
  }

  lemma ComparisonComplete(q: Quoting, c: Comparison, post: seq<Token>)
    requires ValidComparison(c) && EndsComparison(post)
    ensures ParseComparison(q, ComparisonTokens(c) + post) == Parsed(ComparisonExpr(q, c), post)
  {
    hide ParseOperand, OperandTokens, ValidOperand, OperandExpr;
    match c
    case Single(o) => OperandComplete(q, o, post);
    case Pair(l, op, r) =>
      OperandComplete(q, l, [op] + (OperandTokens(r) + post));
      OperandComplete(q, r, post);
      assert ComparisonTokens(c) + post == OperandTokens(l) + ([op] + (OperandTokens(r) + post));
      assert ([op] + (OperandTokens(r) + post))[1..] == OperandTokens(r) + post;
  }

  lemma {:induction false} AndComplete(q: Quoting, c: Conjunction, post: seq<Token>)
    requires ValidConjunction(c) && EndsAnd(post)
    ensures ParseAnd(q, ConjunctionTokens(c) + post) == Parsed(ConjunctionExpr(q, c), post)
  {
    hide ParseComparison, ComparisonTokens, ValidComparison, ComparisonExpr;
    if |c| == 1 {
      ComparisonComplete(q, c[0], post);
    } else {
      var more := [Token(Ident, "and")] + (ConjunctionTokens(c[1..]) + post);
      ComparisonComplete(q, c[0], more);
      assert ConjunctionTokens(c) + post == ComparisonTokens(c[0]) + more;
      AndComplete(q, c[1..], post);
      assert more[1..] == ConjunctionTokens(c[1..]) + post;
    }
  }

  lemma {:induction false} OrComplete(q: Quoting, c: Condition)
    requires ValidCondition(c)
    ensures ParseOr(q, ConditionTokens(c)) == Parsed(ConditionExpr(q, c), [])
  {
    hide ParseAnd, ConjunctionTokens, ValidConjunction, ConjunctionExpr;
    if |c| == 1 {
      AndComplete(q, c[0], []);
      assert ConjunctionTokens(c[0]) + [] == ConjunctionTokens(c[0]);
    } else {
      var more := [Token(Ident, "or")] + ConditionTokens(c[1..]);
      AndComplete(q, c[0], more);
      assert ConditionTokens(c) == ConjunctionTokens(c[0]) + more;
      OrComplete(q, c[1..]);
      assert more[1..] == ConditionTokens(c[1..]);
    }
  }

  lemma {:induction false} ArgsComplete(q: Quoting, args: seq<Operand>, post: seq<Token>)
    requires args != [] && ValidOperands(args) && EndsPath(post) && !IsText(post, Punct, ",")
    ensures ParseArgs(q, ArgsTokens(args) + post) == Parsed(OperandExprs(q, args), post)
  {
    hide ParseOperand, OperandTokens, ValidOperand, OperandExpr;
    if |args| == 1 {
      OperandComplete(q, args[0], post);
      assert args[1..] == [] && OperandExprs(q, args[1..]) == [];
      assert [OperandExpr(q, args[0])] + [] == [OperandExpr(q, args[0])];
    } else {
      var more := [Token(Punct, ",")] + (ArgsTokens(args[1..]) + post);
      OperandComplete(q, args[0], more);
      assert ArgsTokens(args) + post == OperandTokens(args[0]) + more;
      ArgsComplete(q, args[1..], post);
      assert more[1..] == ArgsTokens(args[1..]) + post;
    }
  }

  lemma FilterComplete(q: Quoting, f: FilterUse, post: seq<Token>)
    requires ValidOperands(f.args) && (post == [] || IsText(post, Punct, "|"))
    ensures ParseFilter(q, FilterTokens(f) + post) == Parsed(Filter(f.name, OperandExprs(q, f.args)), post)
  {
    hide ParseArgs, ArgsTokens, ValidOperands, OperandExprs;
    var toks := FilterTokens(f) + post;
    if f.args == [] {
      assert toks[2..] == post;
      NoOperands(q);
    } else {
      ArgsComplete(q, f.args, post);
      assert toks[2..] == [Token(Punct, ":")] + (ArgsTokens(f.args) + post);
      assert toks[3..] == ArgsTokens(f.args) + post;
    }
  }

  lemma NoOperands(q: Quoting)
    ensures OperandExprs(q, []) == []
  {
  }

  lemma {:induction false} FiltersComplete(q: Quoting, fs: seq<FilterUse>)
    requires ValidFilters(fs)
    ensures ParseFilters(q, FiltersTokens(fs)) == Ok(FilterExprs(q, fs))
  {
    hide ParseFilter, FilterTokens, ValidOperands, OperandExprs;
    if fs != [] {
      FiltersStart(fs[1..]);
      FilterComplete(q, fs[0], FiltersTokens(fs[1..]));
      FiltersComplete(q, fs[1..]);
      FilterStarts(fs[0]);
    }
  }

  lemma FilterStarts(f: FilterUse)
    ensures IsText(FilterTokens(f), Punct, "|")
  {
  }

  lemma FiltersStart(fs: seq<FilterUse>)
    ensures FiltersTokens(fs) == [] || IsText(FiltersTokens(fs), Punct, "|")
  {
    hide FilterTokens;
    if fs != [] {
      FilterStarts(fs[0]);
    }
  }

  /// Nothing else is

  lemma {:induction false} PathSound(q: Quoting, head: string, rest: seq<Seg>, name: string, toks: seq<Token>)
    returns (steps: seq<Step>)
    requires ParsePath(q, head, rest, name, toks).Parsed?
    ensures ValidSteps(steps)
    ensures var r := ParsePath(q, head, rest, name, toks);
      && toks == StepsTokens(steps) + r.rest && EndsPath(r.rest)
      && r.value == Var(head, rest + StepSegs(q, steps), name + StepNames(q, steps))
    decreases |toks|, 2
  {
    hide ParseIndex, StepTokens, StepSeg, StepName;
    var r := ParsePath(q, head, rest, name, toks);
    if EndsPath(toks) {
      steps := [];
      assert [] + toks == toks && rest + [] == rest && name + "" == name;
    } else {
      var s, after := StepSound(q, head, rest, name, toks);
      var more := PathSound(q, head, rest + [StepSeg(q, s)], name + StepName(q, s), after);
      steps := [s] + more;
      assert steps[1..] == more;
      Regroup(StepTokens(s), StepsTokens(more), r.rest);
      Regroup(rest, [StepSeg(q, s)], StepSegs(q, more));
      Regroup(name, StepName(q, s), StepNames(q, more));
    }
  }

  lemma {:induction false} StepSound(q: Quoting, head: string, rest: seq<Seg>, name: string, toks: seq<Token>)
    returns (s: Step, after: seq<Token>)
    requires !EndsPath(toks) && ParsePath(q, head, rest, name, toks).Parsed?
    ensures ValidStep(s) && toks == StepTokens(s) + after && |after| < |toks|
    ensures ParsePath(q, head, rest, name, toks)
      == ParsePath(q, head, rest + [StepSeg(q, s)], name + StepName(q, s), after)
    decreases |toks|, 1
  {
    if IsText(toks, Punct, ".") {
      s, after := Dot(toks[1].text), toks[2..];
      assert toks == [toks[0], toks[1]] + after;
    } else {
      var sub := ParseIndex(q, toks);
      after := sub.rest[1..];
      s := IndexSound(q, toks, sub.rest[0].kind);
      hide ParseIndex, StepTokens, StepSeg, StepName;
      assert sub.rest == [sub.rest[0]] + after;
      assert sub.rest[0] == Token(sub.rest[0].kind, "]");
      BracketTokens(s, toks, sub.rest, after);
    }
  }

  function Opening(s: Step): seq<Token>
    requires !s.Dot?
  {
    match s
    case At(text, _) => [Token(Punct, "["), Token(Number, text)]
    case Key(text, _) => [Token(Punct, "["), Token(Quoted, text)]
    case Sub(path, _) => [Token(Punct, "["), Token(Ident, path.head)] + StepsTokens(path.steps)
  }

  lemma BracketTokens(s: Step, toks: seq<Token>, closed: seq<Token>, after: seq<Token>)
    requires !s.Dot? && toks == Opening(s) + closed && closed == [Token(s.close, "]")] + after
    ensures toks == StepTokens(s) + after
  {
    Regroup(Opening(s), [Token(s.close, "]")], after);
    assert StepTokens(s) == Opening(s) + [Token(s.close, "]")];
  }

  lemma {:induction false} IndexSound(q: Quoting, toks: seq<Token>, close: Kind) returns (s: Step)
    requires IsText(toks, Punct, "[") && ParseIndex(q, toks).Parsed?
    ensures ValidStep(s) && !s.Dot? && s.close == close
    ensures toks == Opening(s) + ParseIndex(q, toks).rest
    ensures StepSeg(q, s) == ParseIndex(q, toks).value.seg
    ensures StepName(q, s) == "[" + ParseIndex(q, toks).value.shown + "]"
    decreases |toks|, 0
  {
    var r := ParseIndex(q, toks);
    var t := toks[1];
    hide ParsePath, StepSegs, StepNames, StepsTokens;
    match t.kind
    case Number =>
      s := At(t.text, close);
      assert toks == [toks[0], t] + r.rest;
    case Quoted =>
      s := Key(t.text, close);
      assert toks == [toks[0], t] + r.rest;
    case Ident =>
      var steps := PathSound(q, t.text, [], t.text, toks[2..]);
      s := Sub(Path(t.text, steps), close);
      assert [] + StepSegs(q, steps) == StepSegs(q, steps);
      assert toks == [toks[0], t] + toks[2..];
      Regroup([toks[0], t], StepsTokens(steps), r.rest);
  }

  lemma OperandSound(q: Quoting, toks: seq<Token>) returns (o: Operand)
    requires ParseOperand(q, toks).Parsed?
    ensures ValidOperand(o)
    ensures var r := ParseOperand(q, toks); toks == OperandTokens(o) + r.rest && r.value == OperandExpr(q, o)
  {
    hide ParsePath, StepSegs, StepNames, StepsTokens;
    var t, r := toks[0], ParseOperand(q, toks);
    assert toks == [t] + toks[1..];
    match t.kind
    case Quoted => o := Literal(t.text);
    case Number => o := Numeral(t.text);
    case Ident =>
      if t.text in WORDS {
        o := Word(t.text);
      } else {
        var steps := PathSound(q, t.text, [], t.text, toks[1..]);
        o := PathOf(Path(t.text, steps));
        assert [] + StepSegs(q, steps) == StepSegs(q, steps);
        Regroup([t], StepsTokens(steps), r.rest);
      }
  }

  lemma ComparisonSound(q: Quoting, toks: seq<Token>) returns (c: Comparison)
    requires ParseComparison(q, toks).Parsed?
    ensures ValidComparison(c)
    ensures var r := ParseComparison(q, toks); toks == ComparisonTokens(c) + r.rest && r.value == ComparisonExpr(q, c)
  {
    hide ParseOperand, OperandTokens, ValidOperand, OperandExpr;
    var l := OperandSound(q, toks);
    var after := ParseOperand(q, toks).rest;
    if after == [] || !IsOp(after[0]) {
      c := Single(l);
    } else {
      var r := OperandSound(q, after[1..]);
      c := Pair(l, after[0], r);
      var rest := ParseOperand(q, after[1..]).rest;
      assert after == [after[0]] + (OperandTokens(r) + rest);
      assert ComparisonTokens(c) + rest == OperandTokens(l) + ([after[0]] + (OperandTokens(r) + rest));
    }
  }

  lemma {:induction false} AndSound(q: Quoting, toks: seq<Token>) returns (c: Conjunction)
    requires ParseAnd(q, toks).Parsed?
    ensures ValidConjunction(c)
    ensures var r := ParseAnd(q, toks); toks == ConjunctionTokens(c) + r.rest && r.value == ConjunctionExpr(q, c)
    decreases |toks|
  {
    hide ParseComparison, ComparisonTokens, ValidComparison, ComparisonExpr;
    var l := ComparisonSound(q, toks);
    var after := ParseComparison(q, toks).rest;
    if !IsText(after, Ident, "and") {
      c := [l];
    } else {
      var more := AndSound(q, after[1..]);
      c := [l] + more;
      var rest := ParseAnd(q, after[1..]).rest;
      assert c[1..] == more;
      assert after == [after[0]] + (ConjunctionTokens(more) + rest);
      assert ConjunctionTokens(c) + rest == ComparisonTokens(l) + ([after[0]] + (ConjunctionTokens(more) + rest));
    }
  }

  lemma {:induction false} OrSound(q: Quoting, toks: seq<Token>) returns (c: Condition)
    requires ParseOr(q, toks).Parsed?
    ensures ValidCondition(c)
    ensures var r := ParseOr(q, toks); toks == ConditionTokens(c) + r.rest && r.value == ConditionExpr(q, c)
    decreases |toks|
  {
    hide ParseAnd, ConjunctionTokens, ValidConjunction, ConjunctionExpr;
    var l := AndSound(q, toks);
    var after := ParseAnd(q, toks).rest;
    if !IsText(after, Ident, "or") {
      c := [l];
    } else {
      var more := OrSound(q, after[1..]);
      c := [l] + more;
      var rest := ParseOr(q, after[1..]).rest;
      assert c[1..] == more;
      assert after == [after[0]] + (ConditionTokens(more) + rest);
      assert ConditionTokens(c) + rest == ConjunctionTokens(l) + ([after[0]] + (ConditionTokens(more) + rest));
    }
  }

  lemma {:induction false} ArgsSound(q: Quoting, toks: seq<Token>) returns (args: seq<Operand>)
    requires ParseArgs(q, toks).Parsed?
    ensures args != [] && ValidOperands(args)
    ensures var r := ParseArgs(q, toks); toks == ArgsTokens(args) + r.rest && r.value == OperandExprs(q, args)
    decreases |toks|
  {
    hide ParseOperand, OperandTokens, ValidOperand, OperandExpr;
    var l := OperandSound(q, toks);
    var after := ParseOperand(q, toks).rest;
    if !IsText(after, Punct, ",") {
      args := [l];
      assert OperandExprs(q, args[1..]) == [];
    } else {
      var more := ArgsSound(q, after[1..]);
      args := [l] + more;
      var rest := ParseArgs(q, after[1..]).rest;
      assert args[1..] == more;
      assert after == [after[0]] + (ArgsTokens(more) + rest);
      assert ArgsTokens(args) + rest == OperandTokens(l) + ([after[0]] + (ArgsTokens(more) + rest));
    }
  }

  lemma FilterSound(q: Quoting, toks: seq<Token>) returns (f: FilterUse)
    requires toks != [] && ParseFilter(q, toks).Parsed?
    ensures ValidOperands(f.args)
    ensures var r := ParseFilter(q, toks);
      toks == FilterTokens(f) + r.rest && r.value == Filter(f.name, OperandExprs(q, f.args))
  {
    hide ParseArgs, ArgsTokens, OperandExprs;
    assert toks == [toks[0], toks[1]] + toks[2..];
    if !IsText(toks[2..], Punct, ":") {
      f := FilterUse(toks[1].text, []);
      NoOperands(q);
    } else {
      var args := ArgsSound(q, toks[3..]);
      f := FilterUse(toks[1].text, args);
      assert toks == [toks[0], toks[1]] + [toks[2]] + toks[3..];
      var rest := ParseFilter(q, toks).rest;
      assert FilterTokens(f) + rest == [toks[0], toks[1]] + [toks[2]] + (ArgsTokens(args) + rest);
    }
  }

  lemma {:induction false} FiltersSound(q: Quoting, toks: seq<Token>) returns (fs: seq<FilterUse>)
    requires ParseFilters(q, toks).Ok?
    ensures ValidFilters(fs) && toks == FiltersTokens(fs) && ParseFilters(q, toks) == Ok(FilterExprs(q, fs))
    decreases |toks|
  {
    hide ParseFilter, FilterTokens, OperandExprs, ValidOperands;
    if toks == [] {
      fs := [];
    } else {
      var f := FilterSound(q, toks);
      var more := FiltersSound(q, ParseFilter(q, toks).rest);
      fs := [f] + more;
      assert fs[1..] == more;
    }
  }

  /// Exactly the grammar

  ghost predicate DerivesCondition(q: Quoting, toks: seq<Token>, e: Expr) {
    exists c: Condition :: ValidCondition(c) && ConditionTokens(c) == toks && ConditionExpr(q, c) == e
  }

  ghost predicate DerivesOutput(q: Quoting, toks: seq<Token>, o: Output) {
    exists u: OutputUse :: ValidOutput(u) && OutputTokens(u) == toks && OutputExpr(q, u) == o
  }

  ghost predicate DerivesOperand(q: Quoting, toks: seq<Token>, e: Expr) {
    exists o: Operand :: ValidOperand(o) && OperandTokens(o) == toks && OperandExpr(q, o) == e
  }

  lemma ConditionExact(q: Quoting, src: string, e: Expr)
    ensures ConditionOf(q, src) == Ok(e) <==> Scan(src).Ok? && DerivesCondition(q, Scan(src).value, e)
  {
    hide Scan, ParseOr, ConditionTokens, ConditionExpr;
    if Scan(src).Ok? {
      var toks := Scan(src).value;
      if ReadCondition(q, toks) == Ok(e) {
        var c := OrSound(q, toks);
        assert ConditionTokens(c) + [] == ConditionTokens(c);
      }
      if DerivesCondition(q, toks, e) {
        var c: Condition :| ValidCondition(c) && ConditionTokens(c) == toks && ConditionExpr(q, c) == e;
        OrComplete(q, c);
      }
    }
  }

  lemma OperandExact(q: Quoting, src: string, e: Expr)
    ensures OperandOf(q, src) == Ok(e) <==> Scan(src).Ok? && DerivesOperand(q, Scan(src).value, e)
  {
    hide Scan, ParseOperand, OperandExpr;
    if Scan(src).Ok? {
      var toks := Scan(src).value;
      if ReadOperand(q, toks) == Ok(e) {
        var o := OperandSound(q, toks);
        assert OperandTokens(o) + [] == OperandTokens(o);
      }
      if DerivesOperand(q, toks, e) {
        var o: Operand :| ValidOperand(o) && OperandTokens(o) == toks && OperandExpr(q, o) == e;
        OperandComplete(q, o, []);
        assert OperandTokens(o) + [] == OperandTokens(o);
      }
    }
  }

  lemma OutputExact(q: Quoting, src: string, o: Output)
    ensures OutputOf(q, src) == Ok(o) <==> Scan(src).Ok? && DerivesOutput(q, Scan(src).value, o)
  {
    if Scan(src).Ok? {
      var toks := Scan(src).value;
      if ReadOutput(q, toks) == Ok(o) {
        OutputSound(q, toks, o);
      }
      if DerivesOutput(q, toks, o) {
        var u: OutputUse :| ValidOutput(u) && OutputTokens(u) == toks && OutputExpr(q, u) == o;
        OutputComplete(q, u);
      }
    }
  }

  lemma OutputSound(q: Quoting, toks: seq<Token>, o: Output)
    requires ReadOutput(q, toks) == Ok(o)
    ensures DerivesOutput(q, toks, o)
  {
    hide ParseOperand, ParseFilters, OperandTokens, FiltersTokens, OperandExpr, FilterExprs, ValidOperand, ValidFilters;
    var base := OperandSound(q, toks);
    var filters := FiltersSound(q, ParseOperand(q, toks).rest);
    var u := OutputUse(base, filters);
    assert ValidOutput(u) && OutputTokens(u) == toks && OutputExpr(q, u) == o;
  }

  lemma OutputComplete(q: Quoting, u: OutputUse)
    requires ValidOutput(u)
    ensures ReadOutput(q, OutputTokens(u)) == Ok(OutputExpr(q, u))
  {
    FiltersStart(u.filters);
    hide ParseOperand, ParseFilters, FiltersTokens, OperandExpr, FilterExprs, ValidOperand, ValidFilters;
    OperandComplete(q, u.base, FiltersTokens(u.filters));
    FiltersComplete(q, u.filters);
    assert OperandTokens(u.base) != [];
  }

  // So every condition the grammar can express, spelled out, parses to itself.
  lemma ConditionRoundTrip(q: Quoting, c: Condition)
    requires ValidCondition(c) && forall i :: 0 <= i < |ConditionTokens(c)| ==> Spellable(ConditionTokens(c)[i])
    ensures ConditionOf(q, Spell(ConditionTokens(c))) == Ok(ConditionExpr(q, c))
  {
    hide ConditionTokens, ConditionExpr, Spell, Scan, Spellable, ValidCondition;
    ScanSpelled(ConditionTokens(c));
    ConditionExact(q, Spell(ConditionTokens(c)), ConditionExpr(q, c));
  }

  /// Folding: `and` binds tighter than `or`

  function Joins(c: Condition): nat {
    if c == [] then 0 else |c[0]| + Joins(c[1..])
  }

  // The comparisons folded from right to left, whatever joins them, which is
  // how the parser describes what it does.
  function RightFold(q: Quoting, c: Condition): Expr
    requires ValidCondition(c)
    decreases Joins(c)
  {
    var first := ComparisonExpr(q, c[0][0]);
    if |c[0]| == 1 then if |c| == 1 then first else Or(first, RightFold(q, c[1..]))
    else And(first, RightFold(q, [c[0][1..]] + c[1..]))
  }

  // It does so just when no `and` comes before an `or`.
  lemma {:induction false} RightFoldExact(q: Quoting, c: Condition)
    requires ValidCondition(c)
    ensures ConditionExpr(q, c) == RightFold(q, c) <==> forall i :: 0 <= i < |c| - 1 ==> |c[i]| == 1
    decreases Joins(c)
  {
    hide ComparisonExpr, ValidComparison;
    if |c[0]| == 1 {
      if |c| > 1 {
        RightFoldExact(q, c[1..]);
        assert forall i :: 1 <= i < |c| ==> c[i] == c[1..][i - 1];
      }
    } else if |c| == 1 {
      assert [c[0][1..]] + c[1..] == [c[0][1..]];
      RightFoldExact(q, [c[0][1..]]);
    }
  }

  // Elsewhere the two can disagree on the outcome: for false and false or true.
  lemma FoldsDisagree(lib: LiquidValues.Library, q: Quoting)
    ensures var no, yes := Single(Word("false")), Single(Word("true"));
      var c := [[no, no], [yes]];
      && ValidCondition(c)
      && LiquidSemantics.Condition(lib, ConditionExpr(q, c), map[], []) == (true, None)
      && LiquidSemantics.Condition(lib, RightFold(q, c), map[], []) == (false, None)
  {
    var no, yes := Single(Word("false")), Single(Word("true"));
    var c := [[no, no], [yes]];
    var f, t := Lit(Bool(false)), Lit(Bool(true));
    assert c[1..] == [[yes]] && c[0][1..] == [no] && [c[0][1..]] + c[1..] == [[no], [yes]]
      && [[no], [yes]][1..] == [[yes]];
    assert ConjunctionExpr(q, [no, no]) == And(f, f) by { assert [no, no][1..] == [no]; }
    assert ConditionExpr(q, [[yes]]) == t;
    assert ConditionExpr(q, c) == Or(And(f, f), t) by { hide ConjunctionExpr; }
    assert RightFold(q, c) == And(f, RightFold(q, [[no], [yes]]));
    hide RightFold, ConditionExpr;
    assert LiquidSemantics.Eval(lib, And(f, f), map[], [], false) == LiquidSemantics.Got(Bool(false), None);
    assert LiquidSemantics.Eval(lib, Or(And(f, f), t), map[], [], false) == LiquidSemantics.Got(Bool(true), None);
  }
}
