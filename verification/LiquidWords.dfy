/**
 What expression sources mean, character by character: the expression a source
 is read as is given by the expressions its parts are read as
 (internal/liquid/parse.go).
 */
module LiquidWords {
  import opened Options
  import opened LiquidSyntax
  import opened LiquidScanner
  import opened LiquidGrammar
  import opened LiquidExpressions
  import opened LiquidRecognition
  import LiquidValues
  import Decimals

  /// Sources side by side

  const SEPARATORS := " .[]|:,"

  // The token cannot go on into this character.
  predicate Parts(t: Token, c: char) {
    c in SEPARATORS && (c == '.' ==> !t.kind.Number?)
  }

  lemma {:induction false} RunsStop(src: string, c: char, more: string)
    requires more != "" && more[0] == c && c in SEPARATORS
    ensures IdentRun(src + more) == IdentRun(src)
    ensures NumberRun(src) < |src| || c != '.' ==> NumberRun(src + more) == NumberRun(src)
  {
    if src == "" {
      assert src + more == more;
    } else {
      assert (src + more)[1..] == src[1..] + more;
      RunsStop(src[1..], c, more);
    }
  }

  lemma {:induction false} StringStops(src: string, quote: char, more: string)
    requires StringBody(src, quote).Closed?
    ensures StringBody(src + more, quote) == StringBody(src, quote)
  {
    if src[0] != quote {
      var k := if src[0] == '\\' && 1 < |src| then 1 else 0;
      assert k + 1 <= |src| && (src + more)[k + 1..] == src[k + 1..] + more;
      StringStops(src[k + 1..], quote, more);
      assert src[0] == '\\' && 1 < |src + more| ==> 1 < |src|;
    }
  }

  lemma OpStops(src: string, more: string)
    requires src != "" && more != "" && more[0] in SEPARATORS
    ensures LiquidScanner.Op(src + more) == LiquidScanner.Op(src)
  {
    var s := src + more;
    assert s[0] == src[0] && s[..1] == src[..1] && more[0] != '=' && more[0] != '>';
    if 1 < |src| {
      assert s[..2] == src[..2];
    } else {
      assert s[..2] == [src[0], more[0]];
    }
  }

  lemma LexStops(src: string, more: string)
    requires src != "" && !Blank(src[0]) && Lex(src).Lexeme? && more != "" && more[0] in SEPARATORS
    requires Lex(src).size < |src| || Parts(Lex(src).token, more[0])
    ensures Lex(src + more) == Lex(src)
  {
    hide StringBody, NumberRun, IdentRun, LiquidScanner.Op;
    var s := src + more;
    assert s[0] == src[0] && s[1..] == src[1..] + more;
    OpStops(src, more);
    RunsStop(src, more[0], more);
    RunsStop(src[1..], more[0], more);
    if src[0] == '"' || src[0] == '\'' {
      StringStops(src[1..], src[0], more);
    } else if |src| > 1 {
      assert s[1] == src[1];
    }
    assert s[..Lex(src).size] == src[..Lex(src).size];
  }

  predicate PartsAfter(toks: seq<Token>, s: string) {
    s == "" || (s[0] in SEPARATORS && (toks != [] ==> Parts(toks[|toks| - 1], s[0])))
  }

  // Two sources side by side are read one after the other.
  lemma {:induction false} ScanConcat(a: string, b: string)
    requires Scan(a).Ok? && PartsAfter(Scan(a).value, b)
    ensures Scan(a + b) == After(Scan(a).value, Scan(b))
    decreases |a|
  {
    hide Lex;
    AfterNothing(Scan(b));
    if a == "" {
      assert a + b == b;
    } else if b == "" {
      assert a + b == a && Scan(a).value + [] == Scan(a).value;
    } else if Blank(a[0]) {
      assert (a + b)[1..] == a[1..] + b;
      ScanConcat(a[1..], b);
    } else {
      var n := Lex(a).size;
      assert (a + b)[n..] == a[n..] + b;
      var more := Scan(a[n..]).value;
      assert Scan(a).value == [Lex(a).token] + more;
      LexStops(a, b);
      ScanConcat(a[n..], b);
      AfterNext([], Lex(a).token, After(more, Scan(b)));
      AfterAfter([Lex(a).token], more, Scan(b));
    }
  }

  lemma AfterAfter(x: seq<Token>, y: seq<Token>, r: Result<seq<Token>>)
    ensures After(x, After(y, r)) == After(x + y, r)
  {
    if r.Ok? {
      assert x + (y + r.value) == x + y + r.value;
    }
  }

  lemma BlankFirst(s: string)
    ensures Scan(" " + s) == Scan(s)
  {
    assert (" " + s)[1..] == s;
  }

  // The word w, with a blank on either side where it needs one, is the token t.
  predicate Reads(w: string, t: Token) {
    w != "" && Scan(w) == Ok([t])
  }

  lemma Apart(a: string, b: string)
    requires Scan(a).Ok? && Scan(b).Ok?
    ensures Scan(a + " " + b) == Ok(Scan(a).value + Scan(b).value)
  {
    hide Scan;
    BlankFirst(b);
    ScanConcat(a, " " + b);
    assert a + " " + b == a + (" " + b);
  }

  lemma Spaced(a: string, w: string, t: Token, b: string)
    requires Scan(a).Ok? && Scan(b).Ok? && Reads(w, t)
    ensures Scan(a + " " + w + " " + b) == Ok(Scan(a).value + [t] + Scan(b).value)
  {
    hide Scan;
    Apart(a, w);
    Apart(a + " " + w, b);
  }

  lemma ScanOne(w: string, t: Token)
    requires w != "" && !Blank(w[0]) && Lex(w) == Lexeme(t, |w|)
    ensures Reads(w, t)
  {
    hide Lex;
    assert w[|w|..] == "" && Scan("") == Ok([]) && [t] + [] == [t];
  }

  lemma Alone(t: Token)
    requires Spellable(t) && !t.kind.Quoted?
    ensures Reads(t.text, t)
  {
    hide Lex, Scan, Spellable;
    LexSpelled(t, "");
    assert t.text + "" == t.text;
    ScanOne(t.text, t);
  }

  /// Operands

  predicate LetterOf(c: char) {
    c == '_' || 'a' <= c <= 'z' || 'A' <= c <= 'Z'
  }

  // A name in the source: [A-Za-z_][A-Za-z0-9_-]*.
  predicate Name(s: string) {
    && s != "" && LetterOf(s[0])
    && forall i :: 0 <= i < |s| ==> LetterOf(s[i]) || '0' <= s[i] <= '9' || s[i] == '-'
  }

  predicate Keyword(s: string) {
    s == "true" || s == "false" || s == "nil" || s == "null" || s == "empty" || s == "blank"
  }

  lemma NameReads(s: string)
    requires Name(s)
    ensures Reads(s, Token(Ident, s))
  {
    hide Scan;
    Alone(Token(Ident, s));
  }

  lemma Derived(q: Quoting, src: string, o: Operand)
    requires Scan(src) == Ok(OperandTokens(o)) && ValidOperand(o)
    ensures OperandOf(q, src) == Ok(OperandExpr(q, o))
  {
    hide Scan, OperandTokens, OperandExpr, ValidOperand, OperandOf;
    OperandExact(q, src, OperandExpr(q, o));
  }

  // A name that is no keyword is the variable of that name.
  lemma NameMeans(q: Quoting, s: string)
    requires Name(s) && !Keyword(s)
    ensures OperandOf(q, s) == Ok(Var(s, [], s))
  {
    hide Scan, OperandOf, Name;
    NameReads(s);
    var o := PathOf(Path(s, []));
    assert OperandTokens(o) == [Token(Ident, s)] && s + "" == s;
    Derived(q, s, o);
  }

  lemma KeywordMeans(q: Quoting, s: string)
    requires Keyword(s)
    ensures OperandOf(q, s) == Ok(Lit(match s
      case "true" => Bool(true)
      case "false" => Bool(false)
      case "nil" => Nil
      case "null" => Nil
      case _ => Empty))
  {
    hide Scan, OperandOf;
    assert Name(s) by { hide Keyword; KeywordNames(s); }
    NameReads(s);
    Derived(q, s, Word(s));
  }

  lemma KeywordNames(s: string)
    requires Keyword(s)
    ensures Name(s)
  {
  }

  // A numeral is the number it shows.
  lemma NumeralMeans(q: Quoting, s: string)
    requires s != "" && (s[0] == '-' ==> 1 < |s|)
    requires var k := if s[0] == '-' then 1 else 0;
      '0' <= s[k] <= '9' && forall i :: k <= i < |s| ==> '0' <= s[i] <= '9' || s[i] == '.'
    ensures OperandOf(q, s) == Ok(Lit(Num(s)))
  {
    hide Scan, OperandOf;
    Alone(Token(Number, s));
    Derived(q, s, Numeral(s));
  }

  // Quotes hold the text between them, whichever of the two they are.
  lemma TextMeans(q: Quoting, quote: char, s: string)
    requires quote == '"' || quote == '\''
    requires forall i :: 0 <= i < |s| ==> s[i] != quote && s[i] != '\\'
    ensures OperandOf(q, [quote] + s + [quote]) == Ok(Lit(Str(s)))
  {
    hide OperandOf;
    var src := [quote] + s + [quote];
    BodyPlain(s, quote);
    assert src[1..] == s + [quote];
    hide StringBody;
    assert Lex(src) == Lexeme(Token(Quoted, s), |src|);
    hide Lex, Scan;
    ScanOne(src, Token(Quoted, s));
    Derived(q, src, Literal(s));
  }

  lemma {:induction false} BodyPlain(s: string, quote: char)
    requires forall i :: 0 <= i < |s| ==> s[i] != quote && s[i] != '\\'
    ensures StringBody(s + [quote], quote) == Closed(s, |s| + 1)
  {
    if s == "" {
      assert s + [quote] == [quote];
    } else {
      assert (s + [quote])[1..] == s[1..] + [quote] && [s[0]] + s[1..] == s;
      BodyPlain(s[1..], quote);
    }
  }

  // A backslash before every character holds it as it is.
  lemma EscapedMeans(q: Quoting, s: string, t: string)
    requires |t| == 2 * |s| && forall i :: 0 <= i < |s| ==> t[2 * i] == '\\' && t[2 * i + 1] == s[i]
    ensures OperandOf(q, "\"" + t + "\"") == Ok(Lit(Str(s)))
  {
    hide OperandOf, Escaped;
    var src := "\"" + t + "\"";
    EscapedAt(s, t);
    StringBodyEscaped(s, "");
    assert src[1..] == t + "\"" == t + "\"" + "";
    hide StringBody;
    assert Lex(src) == Lexeme(Token(Quoted, s), |src|);
    hide Lex, Scan;
    ScanOne(src, Token(Quoted, s));
    Derived(q, src, Literal(s));
  }

  lemma {:induction false} EscapedAt(s: string, t: string)
    requires |t| == 2 * |s| && forall i :: 0 <= i < |s| ==> t[2 * i] == '\\' && t[2 * i + 1] == s[i]
    ensures t == Escaped(s)
  {
    if s != "" {
      assert t[2 * 0] == '\\' && t[2 * 0 + 1] == s[0];
      forall i | 0 <= i < |s[1..]| ensures t[2..][2 * i] == '\\' && t[2..][2 * i + 1] == s[1..][i] {
        assert t[2 * (i + 1)] == '\\' && t[2 * (i + 1) + 1] == s[i + 1];
      }
      EscapedAt(s[1..], t[2..]);
      assert t == [t[0], t[1]] + t[2..];
    }
  }

  /// Comparisons

  // The operator a word stands for.
  function Operator(w: string): Option<LiquidSyntax.Op> {
    match w
    case "==" => Some(Eq)
    case "!=" => Some(Ne)
    case "<>" => Some(Ne)
    case ">" => Some(Gt)
    case "<" => Some(Lt)
    case ">=" => Some(Ge)
    case "<=" => Some(Le)
    case "contains" => Some(Contains)
    case _ => None
  }

  lemma OperatorReads(w: string) returns (t: Token)
    requires Operator(w).Some?
    ensures Reads(w, t) && IsOp(t) && OpOf(t) == Operator(w).value
  {
    hide Scan, Lex;
    if w == "<>" {
      t := Token(Kind.Operator, "!=");
      LexUnequal();
      ScanOne(w, t);
    } else {
      t := Token(if w == "contains" then Ident else Kind.Operator, w);
      Alone(t);
    }
  }

  lemma LexUnequal()
    ensures Lex("<>") == Lexeme(Token(Kind.Operator, "!="), 2)
  {
    var w := "<>";
    assert w[..2] == "<>" && LiquidScanner.Op(w) == "<>" && !StartsNumber(w);
  }

  // `a w b` compares what a and b are with the operator of w.
  lemma ComparisonMeans(q: Quoting, a: string, w: string, b: string, x: Expr, y: Expr)
    requires OperandOf(q, a) == Ok(x) && OperandOf(q, b) == Ok(y) && Operator(w).Some?
    ensures ConditionOf(q, a + " " + w + " " + b) == Ok(Compare(Operator(w).value, x, y))
  {
    hide Scan, OperandOf, ConditionOf, ValidOperand, OperandTokens, OperandExpr, Operator, IsOp, OpOf;
    OperandExact(q, a, x);
    OperandExact(q, b, y);
    var o: Operand :| ValidOperand(o) && OperandTokens(o) == Scan(a).value && OperandExpr(q, o) == x;
    var p: Operand :| ValidOperand(p) && OperandTokens(p) == Scan(b).value && OperandExpr(q, p) == y;
    var t := OperatorReads(w);
    Spaced(a, w, t, b);
    OneComparison(q, a + " " + w + " " + b, Pair(o, t, p));
  }

  lemma OneComparison(q: Quoting, src: string, c: Comparison)
    requires ValidComparison(c) && Scan(src) == Ok(ComparisonTokens(c))
    ensures ConditionOf(q, src) == Ok(ComparisonExpr(q, c))
  {
    hide Scan, ConditionOf, ValidComparison, ComparisonTokens, ComparisonExpr;
    var d := [[c]];
    assert ValidConjunction(d[0]);
    assert ConditionTokens(d) == ComparisonTokens(c) && ConditionExpr(q, d) == ComparisonExpr(q, c);
    ConditionExact(q, src, ComparisonExpr(q, c));
  }

  // An operand alone is a condition.
  lemma OperandIsCondition(q: Quoting, a: string, x: Expr)
    requires OperandOf(q, a) == Ok(x)
    ensures ConditionOf(q, a) == Ok(x)
  {
    hide Scan, OperandOf, ConditionOf, ValidOperand, OperandTokens, OperandExpr;
    OperandExact(q, a, x);
    var o: Operand :| ValidOperand(o) && OperandTokens(o) == Scan(a).value && OperandExpr(q, o) == x;
    OneComparison(q, a, Single(o));
  }

  // Only `and` and `or` give such expressions.
  lemma ExprShape(q: Quoting, c: Condition)
    requires ValidCondition(c)
    ensures ConditionExpr(q, c).Or? <==> |c| > 1
    ensures ConditionExpr(q, c).And? <==> |c| == 1 && |c[0]| > 1
  {
    assert ValidConjunction(c[0]);
    hide ConditionExpr, ValidConjunction;
    if |c| == 1 {
      assert ConditionExpr(q, c) == ConjunctionExpr(q, c[0]);
    }
    ConjunctionShape(q, c[0]);
    if |c| > 1 {
      assert ConditionExpr(q, c).Or? by { OrShape(q, c); }
    }
  }

  lemma OrShape(q: Quoting, c: Condition)
    requires ValidCondition(c) && |c| > 1
    ensures ConditionExpr(q, c) == Or(ConjunctionExpr(q, c[0]), ConditionExpr(q, c[1..]))
  {
    hide ConjunctionExpr, ValidConjunction;
  }

  lemma ConjunctionShape(q: Quoting, c: Conjunction)
    requires ValidConjunction(c)
    ensures !ConjunctionExpr(q, c).Or? && (ConjunctionExpr(q, c).And? <==> |c| > 1)
  {
    assert ValidComparison(c[0]);
    hide OperandExpr, OperandTokens;
    if |c| == 1 {
      ComparisonShape(q, c[0]);
    }
  }

  lemma ComparisonShape(q: Quoting, c: Comparison)
    requires ValidComparison(c)
    ensures !ComparisonExpr(q, c).Or? && !ComparisonExpr(q, c).And?
  {
  }

  // `a or b`: what a is, unless it is an `or` itself, or else what b is.
  lemma OrMeans(q: Quoting, a: string, b: string, x: Expr, y: Expr)
    requires ConditionOf(q, a) == Ok(x) && ConditionOf(q, b) == Ok(y) && !x.Or?
    ensures ConditionOf(q, a + " or " + b) == Ok(Or(x, y))
  {
    hide Scan, ConditionOf, ConjunctionTokens, ConjunctionExpr, ValidConjunction;
    ConditionExact(q, a, x);
    ConditionExact(q, b, y);
    var c: Condition :| ValidCondition(c) && ConditionTokens(c) == Scan(a).value && ConditionExpr(q, c) == x;
    var d: Condition :| ValidCondition(d) && ConditionTokens(d) == Scan(b).value && ConditionExpr(q, d) == y;
    ExprShape(q, c);
    NameReads("or");
    Spaced(a, "or", Token(Ident, "or"), b);
    assert a + " or " + b == a + " " + "or" + " " + b;
    var e := c + d;
    assert e[1..] == d && e[0] == c[0];
    assert ConditionTokens(e) == ConditionTokens(c) + [Token(Ident, "or")] + ConditionTokens(d);
    ConditionExact(q, a + " or " + b, Or(x, y));
  }

  // `a and b` for a single comparison a: `and` binds tighter than an `or` in b.
  lemma AndMeans(q: Quoting, a: string, b: string, x: Expr, y: Expr)
    requires ConditionOf(q, a) == Ok(x) && ConditionOf(q, b) == Ok(y) && !x.Or? && !x.And?
    ensures ConditionOf(q, a + " and " + b) == Ok(if y.Or? then Or(And(x, y.l), y.r) else And(x, y))
  {
    hide Scan, ConditionOf, ConditionTokens, ConditionExpr, ValidConjunction;
    ConditionExact(q, a, x);
    ConditionExact(q, b, y);
    var c: Condition :| ValidCondition(c) && ConditionTokens(c) == Scan(a).value && ConditionExpr(q, c) == x;
    var d: Condition :| ValidCondition(d) && ConditionTokens(d) == Scan(b).value && ConditionExpr(q, d) == y;
    ExprShape(q, c);
    ExprShape(q, d);
    NameReads("and");
    Spaced(a, "and", Token(Ident, "and"), b);
    assert a + " and " + b == a + " " + "and" + " " + b;
    assert ValidConjunction(c[0]);
    assert |c| == 1 && |c[0]| == 1 by { NotEmptyConjunction(c[0]); }
    assert c[0] == [c[0][0]] && c == [[c[0][0]]];
    var e := Under(q, c[0][0], c, d);
    ConditionExact(q, a + " and " + b, if y.Or? then Or(And(x, y.l), y.r) else And(x, y));
  }

  lemma NotEmptyConjunction(c: Conjunction)
    requires ValidConjunction(c)
    ensures c != []
  {
  }

  lemma Under(q: Quoting, k: Comparison, c: Condition, d: Condition) returns (e: Condition)
    requires ValidCondition(c) && ValidCondition(d) && c == [[k]]
    ensures ValidCondition(e) && |e| == |d|
    ensures ConditionTokens(e) == ConditionTokens(c) + [Token(Ident, "and")] + ConditionTokens(d)
    ensures var x, y := ConditionExpr(q, c), ConditionExpr(q, d);
      ConditionExpr(q, e) == if |d| > 1 then Or(And(x, y.l), y.r) else And(x, y)
  {
    hide ComparisonTokens, ComparisonExpr, ValidComparison;
    assert ValidConjunction(c[0]) && ValidConjunction(d[0]) && c[0] == [k] && ValidComparison(c[0][0]);
    var first := [k] + d[0];
    e := [first] + d[1..];
    assert first[1..] == d[0] && e[1..] == d[1..];
    assert ValidConjunction(first) && ValidComparison(k);
    assert forall i :: 1 <= i < |e| ==> e[i] == d[i];
    assert ValidCondition(e);
    assert ConjunctionExpr(q, first) == And(ComparisonExpr(q, k), ConjunctionExpr(q, d[0]));
    var and, or := [Token(Ident, "and")], [Token(Ident, "or")];
    assert ConjunctionTokens(first) == ComparisonTokens(k) + and + ConjunctionTokens(d[0]);
    hide ConjunctionTokens, ConjunctionExpr, ValidConjunction;
    assert ConditionTokens(c) == ComparisonTokens(k) && ConditionExpr(q, c) == ComparisonExpr(q, k) by {
      OnlyOne(q, k);
    }
    if |d| > 1 {
      OrShape(q, d);
      OrShape(q, e);
      Regroup(ComparisonTokens(k) + and, ConjunctionTokens(d[0]), or + ConditionTokens(d[1..]));
      Regroup(ConjunctionTokens(d[0]), or, ConditionTokens(d[1..]));
      Regroup(ConjunctionTokens(first), or, ConditionTokens(d[1..]));
    }
  }

  lemma OnlyOne(q: Quoting, k: Comparison)
    requires ValidComparison(k)
    ensures ConjunctionTokens([k]) == ComparisonTokens(k) == ConditionTokens([[k]])
    ensures ValidConjunction([k]) && ConjunctionExpr(q, [k]) == ComparisonExpr(q, k) == ConditionExpr(q, [[k]])
  {
    hide ComparisonTokens, ComparisonExpr, ValidComparison;
  }

  /// Paths

  lemma PunctFirst(c: char, s: string)
    requires c in ".[]|:,"
    ensures Scan([c] + s) == Prepend(Token(Punct, [c]), Scan(s))
  {
    PunctLexed(c, s);
    hide Lex;
    assert ([c] + s)[1..] == s;
  }

  lemma PunctLexed(c: char, s: string)
    requires c in ".[]|:,"
    ensures Lex([c] + s) == Lexeme(Token(Punct, [c]), 1) && !Blank(c)
  {
    hide StringBody, NumberRun, IdentRun;
    var src := [c] + s;
    assert src[0] == c && LiquidScanner.Op(src) == "" && !StartsNumber(src);
    hide LiquidScanner.Op;
  }

  lemma OperandShape(q: Quoting, o: Operand)
    requires ValidOperand(o)
    ensures OperandExpr(q, o).Var? ==> o.PathOf?
    ensures OperandExpr(q, o).Lit? && OperandExpr(q, o).value.Str? ==> o.Literal?
    ensures OperandExpr(q, o).Lit? && OperandExpr(q, o).value.Num? ==> o.Numeral?
  {
  }

  lemma {:induction false} StepsGrow(q: Quoting, steps: seq<Step>, s: Step)
    requires ValidSteps(steps) && ValidStep(s)
    ensures ValidSteps(steps + [s])
    ensures StepsTokens(steps + [s]) == StepsTokens(steps) + StepTokens(s)
    ensures StepSegs(q, steps + [s]) == StepSegs(q, steps) + [StepSeg(q, s)]
    ensures StepNames(q, steps + [s]) == StepNames(q, steps) + StepName(q, s)
  {
    hide ValidStep, StepTokens, StepSeg, StepName;
    if steps == [] {
      assert [] + [s] == [s];
      StepsFirst(q, s, []);
    } else {
      hide ValidSteps, StepsTokens, StepSegs, StepNames;
      assert steps == [steps[0]] + steps[1..] && steps + [s] == [steps[0]] + (steps[1..] + [s]);
      assert ValidStep(steps[0]) && ValidSteps(steps[1..]) by { StepsValid(steps); }
      StepsGrow(q, steps[1..], s);
      StepsFirst(q, steps[0], steps[1..]);
      StepsFirst(q, steps[0], steps[1..] + [s]);
    }
  }

  lemma StepsValid(steps: seq<Step>)
    requires ValidSteps(steps) && steps != []
    ensures ValidStep(steps[0]) && ValidSteps(steps[1..])
  {
    hide ValidStep;
  }

  lemma StepsFirst(q: Quoting, s: Step, steps: seq<Step>)
    requires ValidStep(s) && ValidSteps(steps)
    ensures ValidSteps([s] + steps)
    ensures StepsTokens([s] + steps) == StepTokens(s) + StepsTokens(steps)
    ensures StepSegs(q, [s] + steps) == [StepSeg(q, s)] + StepSegs(q, steps)
    ensures StepNames(q, [s] + steps) == StepName(q, s) + StepNames(q, steps)
  {
    hide ValidStep, StepTokens, StepSeg, StepName;
    assert ([s] + steps)[1..] == steps;
  }

  lemma PathGrows(q: Quoting, p: Path, s: Step, src: string, h: string, segs: seq<Seg>, n: string)
    requires ValidOperand(PathOf(p)) && OperandExpr(q, PathOf(p)) == Var(h, segs, n) && ValidStep(s)
    requires Scan(src) == Ok(OperandTokens(PathOf(p)) + StepTokens(s))
    ensures OperandOf(q, src) == Ok(Var(h, segs + [StepSeg(q, s)], n + StepName(q, s)))
  {
    hide Scan, StepsTokens, StepTokens, ValidSteps, ValidStep, StepSegs, StepNames, StepSeg, StepName, OperandOf;
    StepsGrow(q, p.steps, s);
    var r := PathOf(Path(p.head, p.steps + [s]));
    assert OperandTokens(r) == OperandTokens(PathOf(p)) + StepTokens(s);
    assert p.head + (StepNames(q, p.steps) + StepName(q, s)) == n + StepName(q, s);
    Derived(q, src, r);
  }

  lemma {:induction false} PathEnds(p: Path)
    ensures var t := OperandTokens(PathOf(p)); t[|t| - 1].kind.Ident? || t[|t| - 1].text == "]"
  {
    var t, k := OperandTokens(PathOf(p)), |p.steps|;
    if k > 0 {
      StepsEnd(p.steps);
    }
  }

  lemma {:induction false} StepsEnd(steps: seq<Step>)
    requires steps != []
    ensures var t := StepsTokens(steps); t != [] && (t[|t| - 1].kind.Ident? || t[|t| - 1].text == "]")
  {
    var t := StepTokens(steps[0]);
    assert t != [] && (t[|t| - 1].kind.Ident? || t[|t| - 1].text == "]");
    if |steps| > 1 {
      StepsEnd(steps[1..]);
    } else {
      assert steps[1..] == [];
    }
  }

  // A source that is read as a variable, and what can follow it.
  lemma PathSource(q: Quoting, a: string, h: string, segs: seq<Seg>, n: string) returns (p: Path)
    requires OperandOf(q, a) == Ok(Var(h, segs, n))
    ensures ValidOperand(PathOf(p)) && OperandExpr(q, PathOf(p)) == Var(h, segs, n)
    ensures Scan(a) == Ok(OperandTokens(PathOf(p)))
    ensures forall s :: s != "" && s[0] in SEPARATORS ==> PartsAfter(OperandTokens(PathOf(p)), s)
  {
    hide Scan, OperandOf, ValidOperand, OperandTokens, OperandExpr, Spellable;
    OperandExact(q, a, Var(h, segs, n));
    var o: Operand :| ValidOperand(o) && OperandTokens(o) == Scan(a).value && OperandExpr(q, o) == Var(h, segs, n);
    OperandShape(q, o);
    p := o.path;
    PathEnds(p);
    ScannedSpellable(a);
    var t := OperandTokens(o);
    if t != [] && t[|t| - 1].text == "]" {
      NoBracketNumber(t[|t| - 1]);
    }
  }

  lemma NoBracketNumber(t: Token)
    requires Spellable(t) && t.text == "]"
    ensures !t.kind.Number?
  {
  }

  // `a.k` is the member k of what a selects.
  lemma MemberMeans(q: Quoting, a: string, k: string, h: string, segs: seq<Seg>, n: string)
    requires OperandOf(q, a) == Ok(Var(h, segs, n)) && Name(k)
    ensures OperandOf(q, a + "." + k) == Ok(Var(h, segs + [Prop(k)], n + "." + k))
  {
    hide Scan, OperandOf, ValidOperand, OperandTokens, OperandExpr, Name;
    var p := PathSource(q, a, h, segs, n);
    NameReads(k);
    PunctFirst('.', k);
    assert a + "." + k == a + ("." + k) && ("." + k)[0] == '.';
    ScanConcat(a, "." + k);
    assert StepTokens(Dot(k)) == [Token(Punct, ".")] + [Token(Ident, k)];
    PathGrows(q, p, Dot(k), a + "." + k, h, segs, n);
    assert n + ("." + k) == n + "." + k;
  }

  // What a bracket around b selects when b is read as e, and how a missing
  // variable's name shows it.
  function Selects(e: Expr): Option<Seg> {
    match e
    case Lit(Str(k)) => Some(Prop(k))
    case Lit(Num(t)) => if Int64Of(t).Some? then Some(Index(Int64Of(t).value)) else None
    case Var(_, _, _) => Some(Dyn(e))
    case _ => None
  }

  function ShownAs(q: Quoting, e: Expr): string {
    match e
    case Lit(Str(k)) => q(k)
    case Lit(Num(t)) => if Int64Of(t).Some? then LiquidValues.IntText(Int64Of(t).value) else ""
    case Var(_, _, name) => name
    case _ => ""
  }

  // `a[b]` selects by a text, a whole number or the value of a variable.
  lemma SubscriptMeans(q: Quoting, a: string, b: string, h: string, segs: seq<Seg>, n: string, e: Expr)
    requires OperandOf(q, a) == Ok(Var(h, segs, n)) && OperandOf(q, b) == Ok(e) && Selects(e).Some?
    ensures OperandOf(q, a + "[" + b + "]") == Ok(Var(h, segs + [Selects(e).value], n + "[" + ShownAs(q, e) + "]"))
  {
    hide Scan, OperandOf, ValidOperand, OperandTokens, OperandExpr, Selects, ShownAs;
    var p := PathSource(q, a, h, segs, n);
    OperandExact(q, b, e);
    var o: Operand :| ValidOperand(o) && OperandTokens(o) == Scan(b).value && OperandExpr(q, o) == e;
    var s := BracketStep(q, o);
    ScanSubscript(a, b);
    PathGrows(q, p, s, a + "[" + b + "]", h, segs, n);
    assert n + ("[" + ShownAs(q, e) + "]") == n + "[" + ShownAs(q, e) + "]";
  }

  lemma ScanSubscript(a: string, b: string)
    requires Scan(a).Ok? && Scan(b).Ok? && forall s :: s != "" && s[0] in SEPARATORS ==> PartsAfter(Scan(a).value, s)
    ensures Scan(a + "[" + b + "]")
      == Ok(Scan(a).value + ([Token(Punct, "[")] + (Scan(b).value + [Token(Punct, "]")])))
  {
    hide Scan, PartsAfter;
    var tail := b + "]";
    ScanClosed(b);
    PunctFirst('[', tail);
    assert a + "[" + b + "]" == a + ("[" + tail) && ("[" + tail)[0] == '[';
    ScanConcat(a, "[" + tail);
  }

  lemma ScanClosed(b: string)
    requires Scan(b).Ok?
    ensures Scan(b + "]") == Ok(Scan(b).value + [Token(Punct, "]")])
  {
    hide Scan;
    Alone(Token(Punct, "]"));
    ScanConcat(b, "]");
  }

  lemma BracketStep(q: Quoting, o: Operand) returns (s: Step)
    requires ValidOperand(o) && Selects(OperandExpr(q, o)).Some?
    ensures ValidStep(s) && StepTokens(s) == [Token(Punct, "[")] + (OperandTokens(o) + [Token(Punct, "]")])
    ensures StepSeg(q, s) == Selects(OperandExpr(q, o)).value
    ensures StepName(q, s) == "[" + ShownAs(q, OperandExpr(q, o)) + "]"
  {
    hide Int64Of, StepsTokens, StepSegs, StepNames, ValidSteps;
    match o
    case Literal(k) => s := Key(k, Punct);
    case Numeral(t) => s := At(t, Punct);
    case PathOf(p) => s := Sub(p, Punct);
  }

  // A whole number within 64 bits is itself; further out it is no subscript.
  lemma WholeNumber(i: int)
    ensures Int64Of((if i < 0 then "-" else "") + Decimals.Decimal(if i < 0 then -i else i))
      == if -0x8000_0000_0000_0000 <= i <= 0x7FFF_FFFF_FFFF_FFFF then Some(i) else None
  {
    var n: nat := if i < 0 then -i else i;
    Decimals.ValueOfDecimal(n);
    var d := Decimals.Decimal(n);
    hide *;
    Digits(d, n, i, (if i < 0 then "-" else "") + d);
  }

  lemma Digits(d: string, n: nat, i: int, text: string)
    requires d != "" && (forall k :: 0 <= k < |d| ==> '0' <= d[k] <= '9') && Decimals.ValueOf(d) == n
    requires n == (if i < 0 then -i else i) && text == (if i < 0 then "-" else "") + d
    ensures Int64Of(text) == if -0x8000_0000_0000_0000 <= i <= 0x7FFF_FFFF_FFFF_FFFF then Some(i) else None
  {
    hide Decimals.ValueOf;
    var negative := text != "" && text[0] == '-';
    var digits := if negative then text[1..] else text;
    assert digits == d;
  }

  /// Filters

  // An operand alone is an output.
  lemma OperandIsOutput(q: Quoting, a: string, x: Expr)
    requires OperandOf(q, a) == Ok(x)
    ensures OutputOf(q, a) == Ok(Output(x, []))
  {
    hide Scan, OperandOf, OutputOf, ValidOperand, OperandTokens, OperandExpr;
    OperandExact(q, a, x);
    var o: Operand :| ValidOperand(o) && OperandTokens(o) == Scan(a).value && OperandExpr(q, o) == x;
    var u := OutputUse(o, []);
    assert OutputTokens(u) == OperandTokens(o) && OutputExpr(q, u) == Output(x, []);
    OutputExact(q, a, Output(x, []));
  }

  lemma {:induction false} FiltersGrow(q: Quoting, fs: seq<FilterUse>, f: FilterUse)
    requires ValidFilters(fs) && ValidOperands(f.args)
    ensures ValidFilters(fs + [f])
    ensures FiltersTokens(fs + [f]) == FiltersTokens(fs) + FilterTokens(f)
    ensures FilterExprs(q, fs + [f]) == FilterExprs(q, fs) + [Filter(f.name, OperandExprs(q, f.args))]
  {
    hide FilterTokens, ValidOperands, OperandExprs;
    if fs == [] {
      assert [] + [f] == [f] && [f][1..] == [];
    } else {
      FiltersGrow(q, fs[1..], f);
      assert (fs + [f])[1..] == fs[1..] + [f];
    }
  }

  lemma {:induction false} ArgsGrow(q: Quoting, args: seq<Operand>, o: Operand)
    requires ValidOperands(args) && ValidOperand(o)
    ensures ValidOperands(args + [o]) && OperandExprs(q, args + [o]) == OperandExprs(q, args) + [OperandExpr(q, o)]
    ensures args != [] ==> ArgsTokens(args + [o]) == ArgsTokens(args) + [Token(Punct, ",")] + OperandTokens(o)
  {
    hide *;
    ArgsNone(q, o);
    if args == [] {
      assert [] + [o] == [o] && [] + [OperandExpr(q, o)] == [OperandExpr(q, o)];
    } else {
      assert args == [args[0]] + args[1..] && args + [o] == [args[0]] + (args[1..] + [o]);
      assert ValidOperand(args[0]) && ValidOperands(args[1..]) by { ArgsValid(args); }
      ArgsGrow(q, args[1..], o);
      ArgsFirst(q, args[0], args[1..]);
      ArgsFirst(q, args[0], args[1..] + [o]);
      if args[1..] == [] {
        assert args == [args[0]] && args[1..] + [o] == [o];
        ArgsNone(q, args[0]);
      }
    }
  }

  lemma ArgsNone(q: Quoting, o: Operand)
    requires ValidOperand(o)
    ensures ValidOperands([o]) && OperandExprs(q, []) == [] && OperandExprs(q, [o]) == [OperandExpr(q, o)]
    ensures ArgsTokens([o]) == OperandTokens(o)
  {
    hide ValidOperand, OperandTokens, OperandExpr;
    assert [o][1..] == [];
  }

  lemma ArgsValid(args: seq<Operand>)
    requires ValidOperands(args) && args != []
    ensures ValidOperand(args[0]) && ValidOperands(args[1..])
  {
    hide ValidOperand;
  }

  lemma ArgsFirst(q: Quoting, o: Operand, args: seq<Operand>)
    requires ValidOperand(o) && ValidOperands(args)
    ensures ValidOperands([o] + args) && OperandExprs(q, [o] + args) == [OperandExpr(q, o)] + OperandExprs(q, args)
    ensures args != [] ==> ArgsTokens([o] + args) == OperandTokens(o) + [Token(Punct, ",")] + ArgsTokens(args)
  {
    hide ValidOperand, OperandTokens, OperandExpr;
    assert ([o] + args)[1..] == args;
  }

  lemma OutputSource(q: Quoting, a: string, x: Output) returns (u: OutputUse)
    requires OutputOf(q, a) == Ok(x)
    ensures ValidOutput(u) && Scan(a) == Ok(OutputTokens(u)) && OutputExpr(q, u) == x
  {
    hide Scan, OutputOf, ValidOutput, OutputTokens, OutputExpr;
    OutputExact(q, a, x);
    u :| ValidOutput(u) && OutputTokens(u) == Scan(a).value && OutputExpr(q, u) == x;
  }

  lemma OutputGrows(q: Quoting, u: OutputUse, f: FilterUse, src: string)
    requires ValidOutput(u) && ValidOperands(f.args) && Scan(src) == Ok(OutputTokens(u) + FilterTokens(f))
    ensures var x := OutputExpr(q, u);
      OutputOf(q, src) == Ok(Output(x.base, x.filters + [Filter(f.name, OperandExprs(q, f.args))]))
  {
    hide Scan, OutputOf, FilterTokens, ValidOperands, ValidOperand, OperandExpr, OperandExprs, OperandTokens;
    hide FiltersTokens;
    hide ValidFilters, FilterExprs;
    FiltersGrow(q, u.filters, f);
    var v := OutputUse(u.base, u.filters + [f]);
    assert OutputTokens(v) == OutputTokens(u) + FilterTokens(f);
    OutputExact(q, src, OutputExpr(q, v));
  }

  // `a | f` puts a through one more filter.
  lemma FilterMeans(q: Quoting, a: string, f: string, x: Output)
    requires OutputOf(q, a) == Ok(x) && Name(f)
    ensures OutputOf(q, a + " | " + f) == Ok(Output(x.base, x.filters + [Filter(f, [])]))
  {
    hide Scan, OutputOf, OutputTokens, OutputExpr, ValidOutput, Name;
    var u := OutputSource(q, a, x);
    Alone(Token(Punct, "|"));
    NameReads(f);
    Spaced(a, "|", Token(Punct, "|"), f);
    assert a + " | " + f == a + " " + "|" + " " + f;
    var use := FilterUse(f, []);
    assert FilterTokens(use) == [Token(Punct, "|")] + [Token(Ident, f)];
    Regroup(OutputTokens(u), [Token(Punct, "|")], [Token(Ident, f)]);
    OutputGrows(q, u, use, a + " | " + f);
    NoOperands(q);
  }

  // `a | f: b` gives that filter the argument b.
  lemma ArgumentMeans(q: Quoting, a: string, f: string, b: string, x: Output, y: Expr)
    requires OutputOf(q, a) == Ok(x) && Name(f) && OperandOf(q, b) == Ok(y)
    ensures OutputOf(q, a + " | " + f + ": " + b) == Ok(Output(x.base, x.filters + [Filter(f, [y])]))
  {
    hide Scan, OutputOf, OperandOf, OutputTokens, OutputExpr, ValidOutput, Name, ValidOperand, OperandExpr;
    hide OperandTokens;
    var u := OutputSource(q, a, x);
    OperandExact(q, b, y);
    var o: Operand :| ValidOperand(o) && OperandTokens(o) == Scan(b).value && OperandExpr(q, o) == y;
    Alone(Token(Punct, "|"));
    NameReads(f);
    var front, src := a + " | " + f, a + " | " + f + ": " + b;
    Spaced(a, "|", Token(Punct, "|"), f);
    assert front == a + " " + "|" + " " + f;
    Colon(front, ':', b);
    assert src == front + ": " + b == front + ([':'] + " " + b);
    var use := FilterUse(f, [o]);
    assert FilterTokens(use) == [Token(Punct, "|")] + [Token(Ident, f)] + ([Token(Punct, ":")] + OperandTokens(o));
    Regroup(OutputTokens(u), [Token(Punct, "|")], [Token(Ident, f)]);
    Regroup(OutputTokens(u), [Token(Punct, "|")] + [Token(Ident, f)], [Token(Punct, ":")] + OperandTokens(o));
    Regroup(Scan(front).value, [Token(Punct, ":")], OperandTokens(o));
    OutputGrows(q, u, use, src);
    ArgsNone(q, o);
  }

  lemma Colon(a: string, c: char, b: string)
    requires Scan(a).Ok? && Scan(b).Ok? && (c == ':' || c == ',')
    ensures Scan(a + ([c] + " " + b)) == Ok(Scan(a).value + [Token(Punct, [c])] + Scan(b).value)
  {
    hide Scan;
    BlankFirst(b);
    PunctFirst(c, " " + b);
    assert [c] + " " + b == [c] + (" " + b);
    ScanConcat(a, [c] + " " + b);
    Regroup(Scan(a).value, [Token(Punct, [c])], Scan(b).value);
  }

  // `…, b` after a filter that has arguments gives it one more.
  lemma MoreArgumentsMean(q: Quoting, a: string, b: string, x: Output, fs: seq<Filter>, f: string, args: seq<Expr>,
      y: Expr)
    requires OutputOf(q, a) == Ok(x) && x.filters == fs + [Filter(f, args)] && args != [] && OperandOf(q, b) == Ok(y)
    ensures OutputOf(q, a + ", " + b) == Ok(Output(x.base, fs + [Filter(f, args + [y])]))
  {
    hide Scan, OutputOf, OperandOf, OutputTokens, OutputExpr, ValidOutput, ValidOperand, OperandExpr, OperandTokens;
    var u := OutputSource(q, a, x);
    OperandExact(q, b, y);
    var o: Operand :| ValidOperand(o) && OperandTokens(o) == Scan(b).value && OperandExpr(q, o) == y;
    Colon(a, ',', b);
    assert a + ", " + b == a + ([','] + " " + b);
    var v := LastGrows(q, u, fs, f, args, o);
    OutputExact(q, a + ", " + b, OutputExpr(q, v));
  }

  lemma LastGrows(q: Quoting, u: OutputUse, fs: seq<Filter>, f: string, args: seq<Expr>, o: Operand)
    returns (v: OutputUse)
    requires ValidOutput(u) && OutputExpr(q, u).filters == fs + [Filter(f, args)] && args != [] && ValidOperand(o)
    ensures ValidOutput(v) && OutputTokens(v) == OutputTokens(u) + [Token(Punct, ",")] + OperandTokens(o)
    ensures OutputExpr(q, v) == Output(OutputExpr(q, u).base, fs + [Filter(f, args + [OperandExpr(q, o)])])
  {
    hide OperandTokens, OperandExpr, ValidOperand;
    FilterCount(q, u.filters);
    var k := |fs|;
    var use, before := u.filters[k], u.filters[..k];
    assert u.filters == before + [use] && ValidOperands(use.args) && ValidFilters(before);
    FiltersGrow(q, before, use);
    ArgsGrow(q, use.args, o);
    var more := FilterUse(use.name, use.args + [o]);
    FiltersGrow(q, before, more);
    v := OutputUse(u.base, before + [more]);
    FilterCount(q, before);
    ArgCount(q, use.args);
    hide FiltersTokens, FilterExprs, ValidFilters, ValidOperands, ArgsTokens, OperandExprs;
    assert FilterExprs(q, before) == fs && Filter(use.name, OperandExprs(q, use.args)) == Filter(f, args) by {
      SameFront(FilterExprs(q, before), Filter(use.name, OperandExprs(q, use.args)), fs, Filter(f, args));
    }
    assert FilterTokens(more) == FilterTokens(use) + [Token(Punct, ",")] + OperandTokens(o);
  }

  lemma SameFront<T>(a: seq<T>, x: T, b: seq<T>, y: T)
    requires a + [x] == b + [y]
    ensures a == b && x == y
  {
    assert |a + [x]| == |a| + 1 && |b + [y]| == |b| + 1;
    assert (a + [x])[..|a|] == a && (b + [y])[..|b|] == b && (a + [x])[|a|] == x && (b + [y])[|b|] == y;
  }

  lemma {:induction false} FilterCount(q: Quoting, fs: seq<FilterUse>)
    requires ValidFilters(fs)
    ensures |FilterExprs(q, fs)| == |fs|
  {
    hide ValidOperands, OperandExprs;
    if fs != [] { FilterCount(q, fs[1..]); }
  }

  lemma {:induction false} ArgCount(q: Quoting, args: seq<Operand>)
    requires ValidOperands(args)
    ensures |OperandExprs(q, args)| == |args|
  {
    hide ValidOperand, OperandExpr;
    if args != [] { ArgCount(q, args[1..]); }
  }
}
