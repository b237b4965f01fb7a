/**
 What closes a subscript.  The parser takes any token with the text `]`, so a
 string literal can stand in for the bracket; it does exactly where the
 brackets of an accepted expression do not balance.
 */
module LiquidBrackets {
  import opened LiquidSyntax
  import opened LiquidScanner
  import opened LiquidGrammar
  import opened LiquidExpressions
  import opened LiquidRecognition

  const OPEN := Token(Punct, "[")
  const CLOSE := Token(Punct, "]")

  /// Subscripts of a derivation that no bracket closes

  function Stray(close: Kind): nat {
    if close.Punct? then 0 else 1
  }

  function StepStrays(s: Step): nat
    decreases s, 1
  {
    match s
    case Dot(_) => 0
    case At(_, close) => Stray(close)
    case Key(_, close) => Stray(close)
    case Sub(path, close) => StepsStrays(path.steps) + Stray(close)
  }

  function StepsStrays(steps: seq<Step>): nat
    decreases steps, 0
  {
    if steps == [] then 0 else StepStrays(steps[0]) + StepsStrays(steps[1..])
  }

  function OperandStrays(o: Operand): nat {
    if o.PathOf? then StepsStrays(o.path.steps) else 0
  }

  function ComparisonStrays(c: Comparison): nat {
    match c
    case Single(o) => OperandStrays(o)
    case Pair(l, _, r) => OperandStrays(l) + OperandStrays(r)
  }

  function ConjunctionStrays(c: Conjunction): nat {
    if c == [] then 0 else ComparisonStrays(c[0]) + ConjunctionStrays(c[1..])
  }

  function ConditionStrays(c: Condition): nat {
    if c == [] then 0 else ConjunctionStrays(c[0]) + ConditionStrays(c[1..])
  }

  function ArgsStrays(args: seq<Operand>): nat {
    if args == [] then 0 else OperandStrays(args[0]) + ArgsStrays(args[1..])
  }

  function FiltersStrays(fs: seq<FilterUse>): nat {
    if fs == [] then 0 else ArgsStrays(fs[0].args) + FiltersStrays(fs[1..])
  }

  function OutputStrays(u: OutputUse): nat {
    OperandStrays(u.base) + FiltersStrays(u.filters)
  }

  /// Brackets of a token list

  ghost function Excess(toks: seq<Token>): int {
    multiset(toks)[OPEN] as int - multiset(toks)[CLOSE] as int
  }

  // Some token reads `]` without being one.
  predicate HasStray(toks: seq<Token>) {
    exists i :: 0 <= i < |toks| && toks[i].text == "]" && !toks[i].kind.Punct?
  }

  // The brackets tell the strays: one opening bracket too many for each.
  ghost predicate Tells(toks: seq<Token>, strays: nat) {
    Excess(toks) == strays && (strays > 0 ==> HasStray(toks))
  }

  lemma TellsConcat(a: seq<Token>, m: nat, b: seq<Token>, n: nat)
    requires Tells(a, m) && Tells(b, n)
    ensures Tells(a + b, m + n)
  {
    assert multiset(a + b) == multiset(a) + multiset(b);
    assert forall i :: 0 <= i < |a| ==> (a + b)[i] == a[i];
    assert forall i :: 0 <= i < |b| ==> (a + b)[|a| + i] == b[i];
  }

  lemma TellsNone(toks: seq<Token>)
    requires forall i :: 0 <= i < |toks| ==> toks[i] != OPEN && toks[i] != CLOSE
    ensures Tells(toks, 0)
  {
    assert OPEN !in toks && CLOSE !in toks;
  }

  lemma TellsSubscript(inside: seq<Token>, n: nat, close: Kind)
    requires Tells(inside, n)
    ensures Tells([OPEN] + inside + [Token(close, "]")], n + Stray(close))
  {
    var last := Token(close, "]");
    var toks := [OPEN] + inside + [last];
    assert multiset(toks) == multiset([OPEN]) + multiset(inside) + multiset([last]);
    assert OPEN != CLOSE && OPEN != last;
    assert forall i :: 0 <= i < |inside| ==> toks[1 + i] == inside[i];
    assert toks[|inside| + 1] == last;
  }

  lemma {:induction false} StepTells(s: Step)
    ensures Tells(StepTokens(s), StepStrays(s))
    decreases s, 1
  {
    hide Tells, StepsTokens, StepsStrays;
    match s
    case Dot(name) => TellsNone(StepTokens(s));
    case At(text, close) =>
      TellsNone([Token(Number, text)]);
      TellsSubscript([Token(Number, text)], 0, close);
      assert StepTokens(s) == [OPEN] + [Token(Number, text)] + [Token(close, "]")];
    case Key(text, close) =>
      TellsNone([Token(Quoted, text)]);
      TellsSubscript([Token(Quoted, text)], 0, close);
      assert StepTokens(s) == [OPEN] + [Token(Quoted, text)] + [Token(close, "]")];
    case Sub(path, close) =>
      var head := [Token(Ident, path.head)];
      StepsTell(path.steps);
      TellsNone(head);
      TellsConcat(head, 0, StepsTokens(path.steps), StepsStrays(path.steps));
      TellsSubscript(head + StepsTokens(path.steps), StepsStrays(path.steps), close);
      assert StepTokens(s) == [OPEN] + (head + StepsTokens(path.steps)) + [Token(close, "]")];
  }

  lemma {:induction false} StepsTell(steps: seq<Step>)
    ensures Tells(StepsTokens(steps), StepsStrays(steps))
    decreases steps, 0
  {
    hide Tells, StepTokens, StepStrays;
    if steps == [] {
      TellsNone([]);
    } else {
      StepTells(steps[0]);
      StepsTell(steps[1..]);
      TellsConcat(StepTokens(steps[0]), StepStrays(steps[0]), StepsTokens(steps[1..]), StepsStrays(steps[1..]));
    }
  }

  lemma OperandTells(o: Operand)
    ensures Tells(OperandTokens(o), OperandStrays(o))
  {
    hide Tells, StepsTokens, StepsStrays;
    if o.PathOf? {
      var head := [Token(Ident, o.path.head)];
      TellsNone(head);
      StepsTell(o.path.steps);
      TellsConcat(head, 0, StepsTokens(o.path.steps), StepsStrays(o.path.steps));
    } else {
      TellsNone(OperandTokens(o));
    }
  }

  // Two parts with a token between them that is no bracket.
  lemma TellsJoined(a: seq<Token>, m: nat, t: Token, b: seq<Token>, n: nat)
    requires Tells(a, m) && Tells(b, n) && t != OPEN && t != CLOSE
    ensures Tells(a + [t] + b, m + n)
  {
    hide Tells;
    TellsNone([t]);
    TellsConcat(a, m, [t], 0);
    TellsConcat(a + [t], m, b, n);
  }

  lemma ComparisonTells(c: Comparison)
    requires ValidComparison(c)
    ensures Tells(ComparisonTokens(c), ComparisonStrays(c))
  {
    hide Tells, OperandTokens, OperandStrays, ValidOperand;
    match c
    case Single(o) => OperandTells(o);
    case Pair(l, op, r) =>
      OperandTells(l);
      OperandTells(r);
      TellsJoined(OperandTokens(l), OperandStrays(l), op, OperandTokens(r), OperandStrays(r));
  }

  lemma {:induction false} ConjunctionTells(c: Conjunction)
    requires ValidConjunction(c)
    ensures Tells(ConjunctionTokens(c), ConjunctionStrays(c))
  {
    hide Tells, ComparisonTokens, ComparisonStrays, ValidComparison;
    ComparisonTells(c[0]);
    if |c| == 1 {
      assert c[1..] == [];
    } else {
      ConjunctionTells(c[1..]);
      TellsJoined(ComparisonTokens(c[0]), ComparisonStrays(c[0]), Token(Ident, "and"),
        ConjunctionTokens(c[1..]), ConjunctionStrays(c[1..]));
    }
  }

  lemma {:induction false} ConditionTells(c: Condition)
    requires ValidCondition(c)
    ensures Tells(ConditionTokens(c), ConditionStrays(c))
  {
    hide Tells, ConjunctionTokens, ConjunctionStrays, ValidConjunction;
    ConjunctionTells(c[0]);
    if |c| == 1 {
      assert c[1..] == [];
    } else {
      ConditionTells(c[1..]);
      TellsJoined(ConjunctionTokens(c[0]), ConjunctionStrays(c[0]), Token(Ident, "or"),
        ConditionTokens(c[1..]), ConditionStrays(c[1..]));
    }
  }

  lemma {:induction false} ArgsTell(args: seq<Operand>)
    ensures Tells(ArgsTokens(args), ArgsStrays(args))
  {
    hide Tells, OperandTokens, OperandStrays;
    if args == [] {
      TellsNone([]);
    } else {
      OperandTells(args[0]);
      if |args| == 1 {
        assert args[1..] == [];
      } else {
        ArgsTell(args[1..]);
        TellsJoined(OperandTokens(args[0]), OperandStrays(args[0]), Token(Punct, ","),
          ArgsTokens(args[1..]), ArgsStrays(args[1..]));
      }
    }
  }

  lemma FilterTells(f: FilterUse)
    ensures Tells(FilterTokens(f), ArgsStrays(f.args))
  {
    hide Tells, ArgsTokens;
    var head := [Token(Punct, "|"), Token(Ident, f.name)];
    TellsNone(head);
    if f.args == [] {
      assert head + [] == head;
    } else {
      ArgsTell(f.args);
      TellsJoined(head, 0, Token(Punct, ":"), ArgsTokens(f.args), ArgsStrays(f.args));
      assert FilterTokens(f) == head + [Token(Punct, ":")] + ArgsTokens(f.args);
    }
  }

  lemma {:induction false} FiltersTell(fs: seq<FilterUse>)
    ensures Tells(FiltersTokens(fs), FiltersStrays(fs))
  {
    hide Tells, FilterTokens, ArgsStrays;
    if fs == [] {
      TellsNone([]);
    } else {
      FilterTells(fs[0]);
      FiltersTell(fs[1..]);
      TellsConcat(FilterTokens(fs[0]), ArgsStrays(fs[0].args), FiltersTokens(fs[1..]), FiltersStrays(fs[1..]));
    }
  }

  lemma OutputTells(u: OutputUse)
    ensures Tells(OutputTokens(u), OutputStrays(u))
  {
    hide Tells, OperandTokens, FiltersTokens, OperandStrays, FiltersStrays;
    OperandTells(u.base);
    FiltersTell(u.filters);
    TellsConcat(OperandTokens(u.base), OperandStrays(u.base), FiltersTokens(u.filters), FiltersStrays(u.filters));
  }

  /// When every subscript is closed by a bracket

  ghost predicate ClosedCondition(q: Quoting, toks: seq<Token>, e: Expr) {
    exists c: Condition ::
      ValidCondition(c) && ConditionTokens(c) == toks && ConditionExpr(q, c) == e && ConditionStrays(c) == 0
  }

  ghost predicate ClosedOperand(q: Quoting, toks: seq<Token>, e: Expr) {
    exists o: Operand ::
      ValidOperand(o) && OperandTokens(o) == toks && OperandExpr(q, o) == e && OperandStrays(o) == 0
  }

  ghost predicate ClosedOutput(q: Quoting, toks: seq<Token>, e: Output) {
    exists u: OutputUse ::
      ValidOutput(u) && OutputTokens(u) == toks && OutputExpr(q, u) == e && OutputStrays(u) == 0
  }

  // An accepted condition closes its subscripts with brackets exactly when it
  // has as many closing brackets as opening ones.
  lemma ConditionCloses(q: Quoting, src: string, e: Expr)
    requires ConditionOf(q, src) == Ok(e)
    ensures ClosedCondition(q, Scan(src).value, e) <==> Excess(Scan(src).value) == 0
  {
    hide ConditionOf, Scan, ConditionTokens, ConditionExpr, ConditionStrays, ValidCondition, Excess, HasStray;
    ConditionExact(q, src, e);
    var toks := Scan(src).value;
    var c: Condition :| ValidCondition(c) && ConditionTokens(c) == toks && ConditionExpr(q, c) == e;
    ConditionTells(c);
    if ClosedCondition(q, toks, e) {
      var d: Condition :|
        ValidCondition(d) && ConditionTokens(d) == toks && ConditionExpr(q, d) == e && ConditionStrays(d) == 0;
      ConditionTells(d);
    }
  }

  lemma OperandCloses(q: Quoting, src: string, e: Expr)
    requires OperandOf(q, src) == Ok(e)
    ensures ClosedOperand(q, Scan(src).value, e) <==> Excess(Scan(src).value) == 0
  {
    hide OperandOf, Scan, OperandTokens, OperandExpr, OperandStrays, ValidOperand, Excess, HasStray;
    OperandExact(q, src, e);
    var toks := Scan(src).value;
    var o: Operand :| ValidOperand(o) && OperandTokens(o) == toks && OperandExpr(q, o) == e;
    OperandTells(o);
    if ClosedOperand(q, toks, e) {
      var d: Operand :|
        ValidOperand(d) && OperandTokens(d) == toks && OperandExpr(q, d) == e && OperandStrays(d) == 0;
      OperandTells(d);
    }
  }

  lemma OutputCloses(q: Quoting, src: string, e: Output)
    requires OutputOf(q, src) == Ok(e)
    ensures ClosedOutput(q, Scan(src).value, e) <==> Excess(Scan(src).value) == 0
  {
    hide OutputOf, Scan, OutputTokens, OutputExpr, OutputStrays, ValidOutput, Excess, HasStray;
    OutputExact(q, src, e);
    var toks := Scan(src).value;
    var u: OutputUse :| ValidOutput(u) && OutputTokens(u) == toks && OutputExpr(q, u) == e;
    OutputTells(u);
    if ClosedOutput(q, toks, e) {
      var d: OutputUse :|
        ValidOutput(d) && OutputTokens(d) == toks && OutputExpr(q, d) == e && OutputStrays(d) == 0;
      OutputTells(d);
    }
  }

  // What closes in place of a bracket is a string: in a source without the
  // literal "]" every subscript is closed by one.
  lemma OnlyStringsClose(q: Quoting, src: string)
    requires Scan(src).Ok? && Token(Quoted, "]") !in Scan(src).value
    ensures forall e :: ConditionOf(q, src) == Ok(e) ==> ClosedCondition(q, Scan(src).value, e)
    ensures forall e :: OperandOf(q, src) == Ok(e) ==> ClosedOperand(q, Scan(src).value, e)
    ensures forall e :: OutputOf(q, src) == Ok(e) ==> ClosedOutput(q, Scan(src).value, e)
  {
    hide ConditionOf, OperandOf, OutputOf, Scan, ConditionTokens, OperandTokens, OutputTokens, Excess;
    hide ConditionExpr, OperandExpr, OutputExpr, ConditionStrays, OperandStrays, OutputStrays;
    hide ValidCondition, ValidOperand, ValidOutput;
    var toks := Scan(src).value;
    ScannedSpellable(src);
    NoStray(toks);
    forall e | ConditionOf(q, src) == Ok(e) ensures ClosedCondition(q, toks, e) {
      ConditionExact(q, src, e);
      var c: Condition :| ValidCondition(c) && ConditionTokens(c) == toks && ConditionExpr(q, c) == e;
      ConditionTells(c);
    }
    forall e | OperandOf(q, src) == Ok(e) ensures ClosedOperand(q, toks, e) {
      OperandExact(q, src, e);
      var o: Operand :| ValidOperand(o) && OperandTokens(o) == toks && OperandExpr(q, o) == e;
      OperandTells(o);
    }
    forall e | OutputOf(q, src) == Ok(e) ensures ClosedOutput(q, toks, e) {
      OutputExact(q, src, e);
      var u: OutputUse :| ValidOutput(u) && OutputTokens(u) == toks && OutputExpr(q, u) == e;
      OutputTells(u);
    }
  }

  lemma NoStray(toks: seq<Token>)
    requires forall i :: 0 <= i < |toks| ==> Spellable(toks[i])
    requires Token(Quoted, "]") !in toks
    ensures !HasStray(toks)
  {
    forall i | 0 <= i < |toks| && toks[i].text == "]" ensures toks[i].kind.Punct? {
      assert Spellable(toks[i]) && toks[i] != Token(Quoted, "]");
    }
  }

  // A source that fails: a subscript opened and never closed by a bracket.
  lemma StringCloses(q: Quoting, key: string)
    ensures var toks := [Token(Ident, "a"), OPEN, Token(Quoted, key), Token(Quoted, "]")];
      var e := Var("a", [Prop(key)], "a" + ("[" + q(key) + "]"));
      && Scan(Spell(toks)) == Ok(toks) && OperandOf(q, Spell(toks)) == Ok(e)
      && !ClosedOperand(q, toks, e)
  {
    var toks := [Token(Ident, "a"), OPEN, Token(Quoted, key), Token(Quoted, "]")];
    var o := PathOf(Path("a", [Key(key, Quoted)]));
    var e := Var("a", [Prop(key)], "a" + ("[" + q(key) + "]"));
    ScanSpelled(toks) by { assert forall i :: 0 <= i < |toks| ==> Spellable(toks[i]); }
    hide *;
    StrayOperand(q, key);
    OperandTells(o);
    OperandAccepted(q, toks, o);
    OperandClosesNot(q, Spell(toks), toks, e);
  }

  lemma StrayOperand(q: Quoting, key: string)
    ensures var o := PathOf(Path("a", [Key(key, Quoted)]));
      && ValidOperand(o) && OperandStrays(o) == 1
      && OperandTokens(o) == [Token(Ident, "a"), OPEN, Token(Quoted, key), Token(Quoted, "]")]
      && OperandExpr(q, o) == Var("a", [Prop(key)], "a" + ("[" + q(key) + "]"))
  {
    OneStep(q, Key(key, Quoted));
  }

  lemma OneStep(q: Quoting, s: Step)
    requires ValidStep(s)
    ensures ValidSteps([s]) && StepsTokens([s]) == StepTokens(s) && StepsStrays([s]) == StepStrays(s)
    ensures StepSegs(q, [s]) == [StepSeg(q, s)] && StepNames(q, [s]) == StepName(q, s)
  {
    hide StepTokens, StepStrays, StepSeg, StepName, ValidStep;
    assert [s][1..] == [] && ValidSteps([]);
    assert StepsTokens([]) == [] && StepsStrays([]) == 0 && StepSegs(q, []) == [] && StepNames(q, []) == "";
  }

  lemma OperandAccepted(q: Quoting, toks: seq<Token>, o: Operand)
    requires ValidOperand(o) && OperandTokens(o) == toks && Scan(Spell(toks)) == Ok(toks)
    ensures OperandOf(q, Spell(toks)) == Ok(OperandExpr(q, o))
  {
    hide OperandTokens, OperandExpr, Spell, Scan, OperandOf, ValidOperand;
    OperandExact(q, Spell(toks), OperandExpr(q, o));
  }

  lemma OperandClosesNot(q: Quoting, src: string, toks: seq<Token>, e: Expr)
    requires OperandOf(q, src) == Ok(e) && Scan(src) == Ok(toks) && Tells(toks, 1)
    ensures !ClosedOperand(q, toks, e)
  {
    hide OperandOf, Scan, ClosedOperand, Excess, HasStray;
    OperandCloses(q, src, e);
  }
}
