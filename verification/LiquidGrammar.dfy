/**
 The expression grammar of the Liquid subset: what a derivation is, which
 tokens it stands for and which expression it means.
 */
module LiquidGrammar {
  import opened LiquidSyntax
  import opened LiquidScanner
  import LiquidValues

  // strconv.Quote, which names string subscripts in missing-variable errors.
  type Quoting = string -> string

  // One step of a path.  The closing bracket may be any token with that text,
  // a string literal included.
  datatype Step =
    | Dot(name: string)
    | At(text: string, close: Kind)
    | Key(text: string, close: Kind)
    | Sub(path: Path, close: Kind)

  datatype Path = Path(head: string, steps: seq<Step>)

  datatype Operand = Literal(s: string) | Numeral(text: string) | Word(text: string) | PathOf(path: Path)

  datatype Comparison = Single(o: Operand) | Pair(l: Operand, op: Token, r: Operand)

  // Comparisons joined by `and`, and those joined by `or`.
  type Conjunction = seq<Comparison>
  type Condition = seq<Conjunction>

  datatype FilterUse = FilterUse(name: string, args: seq<Operand>)

  datatype OutputUse = OutputUse(base: Operand, filters: seq<FilterUse>)

  const WORDS := ["true", "false", "nil", "null", "empty", "blank"]

  function WordValue(w: string): Value {
    if w == "true" then Bool(true)
    else if w == "false" then Bool(false)
    else if w == "nil" || w == "null" then Nil
    else Empty
  }

  predicate IsOp(t: Token) {
    t.kind.Operator? || (t.kind.Ident? && t.text == "contains")
  }

  function OpOf(t: Token): LiquidSyntax.Op {
    if t.text == "==" then Eq else if t.text == "!=" then Ne
    else if t.text == ">" then Gt else if t.text == "<" then Lt
    else if t.text == ">=" then Ge else if t.text == "<=" then Le
    else Contains
  }

  /// Well-formed derivations

  predicate ValidStep(s: Step)
    decreases s, 1
  {
    match s
    case At(text, _) => Int64Of(text).Some?
    case Sub(path, _) => ValidSteps(path.steps)
    case _ => true
  }

  predicate ValidSteps(steps: seq<Step>)
    decreases steps, 0
  {
    steps == [] || (ValidStep(steps[0]) && ValidSteps(steps[1..]))
  }

  predicate ValidOperand(o: Operand) {
    match o
    case Word(text) => text in WORDS
    case PathOf(path) => path.head !in WORDS && ValidSteps(path.steps)
    case _ => true
  }

  predicate ValidComparison(c: Comparison) {
    match c
    case Single(o) => ValidOperand(o)
    case Pair(l, op, r) => ValidOperand(l) && IsOp(op) && ValidOperand(r)
  }

  predicate ValidConjunction(c: Conjunction) {
    c != [] && forall i :: 0 <= i < |c| ==> ValidComparison(c[i])
  }

  predicate ValidCondition(c: Condition) {
    c != [] && forall i :: 0 <= i < |c| ==> ValidConjunction(c[i])
  }

  predicate ValidOperands(os: seq<Operand>) {
    forall i :: 0 <= i < |os| ==> ValidOperand(os[i])
  }

  predicate ValidOutput(o: OutputUse) {
    ValidOperand(o.base) && ValidFilters(o.filters)
  }

  predicate ValidFilters(fs: seq<FilterUse>) {
    forall i :: 0 <= i < |fs| ==> ValidOperands(fs[i].args)
  }

  /// The tokens of a derivation

  function StepTokens(s: Step): seq<Token>
    decreases s, 1
  {
    match s
    case Dot(name) => [Token(Punct, "."), Token(Ident, name)]
    case At(text, close) => [Token(Punct, "["), Token(Number, text), Token(close, "]")]
    case Key(text, close) => [Token(Punct, "["), Token(Quoted, text), Token(close, "]")]
    case Sub(path, close) =>
      [Token(Punct, "["), Token(Ident, path.head)] + StepsTokens(path.steps) + [Token(close, "]")]
  }

  function StepsTokens(steps: seq<Step>): seq<Token>
    decreases steps, 0
  {
    if steps == [] then [] else StepTokens(steps[0]) + StepsTokens(steps[1..])
  }

  function OperandTokens(o: Operand): seq<Token> {
    match o
    case Literal(s) => [Token(Quoted, s)]
    case Numeral(text) => [Token(Number, text)]
    case Word(text) => [Token(Ident, text)]
    case PathOf(path) => [Token(Ident, path.head)] + StepsTokens(path.steps)
  }

  function ComparisonTokens(c: Comparison): seq<Token> {
    match c
    case Single(o) => OperandTokens(o)
    case Pair(l, op, r) => OperandTokens(l) + [op] + OperandTokens(r)
  }

  function ConjunctionTokens(c: Conjunction): seq<Token> {
    if c == [] then []
    else if |c| == 1 then ComparisonTokens(c[0])
    else ComparisonTokens(c[0]) + [Token(Ident, "and")] + ConjunctionTokens(c[1..])
  }

  function ConditionTokens(c: Condition): seq<Token> {
    if c == [] then []
    else if |c| == 1 then ConjunctionTokens(c[0])
    else ConjunctionTokens(c[0]) + [Token(Ident, "or")] + ConditionTokens(c[1..])
  }

  function ArgsTokens(args: seq<Operand>): seq<Token> {
    if args == [] then []
    else if |args| == 1 then OperandTokens(args[0])
    else OperandTokens(args[0]) + [Token(Punct, ",")] + ArgsTokens(args[1..])
  }

  function FilterTokens(f: FilterUse): seq<Token> {
    [Token(Punct, "|"), Token(Ident, f.name)] + if f.args == [] then [] else [Token(Punct, ":")] + ArgsTokens(f.args)
  }

  function FiltersTokens(fs: seq<FilterUse>): seq<Token> {
    if fs == [] then [] else FilterTokens(fs[0]) + FiltersTokens(fs[1..])
  }

  function OutputTokens(o: OutputUse): seq<Token> {
    OperandTokens(o.base) + FiltersTokens(o.filters)
  }

  /// The expression of a derivation

  function StepSeg(q: Quoting, s: Step): Seg
    requires ValidStep(s)
    decreases s, 1
  {
    match s
    case Dot(name) => Prop(name)
    case At(text, _) => Index(Int64Of(text).value)
    case Key(text, _) => Prop(text)
    case Sub(path, _) => Dyn(Var(path.head, StepSegs(q, path.steps), path.head + StepNames(q, path.steps)))
  }

  function StepSegs(q: Quoting, steps: seq<Step>): seq<Seg>
    requires ValidSteps(steps)
    decreases steps, 0
  {
    if steps == [] then [] else [StepSeg(q, steps[0])] + StepSegs(q, steps[1..])
  }

  function StepName(q: Quoting, s: Step): string
    requires ValidStep(s)
    decreases s, 1
  {
    match s
    case Dot(name) => "." + name
    case At(text, _) => "[" + LiquidValues.IntText(Int64Of(text).value) + "]"
    case Key(text, _) => "[" + q(text) + "]"
    case Sub(path, _) => "[" + (path.head + StepNames(q, path.steps)) + "]"
  }

  function StepNames(q: Quoting, steps: seq<Step>): string
    requires ValidSteps(steps)
    decreases steps, 0
  {
    if steps == [] then "" else StepName(q, steps[0]) + StepNames(q, steps[1..])
  }

  function OperandExpr(q: Quoting, o: Operand): Expr
    requires ValidOperand(o)
  {
    match o
    case Literal(s) => Lit(Str(s))
    case Numeral(text) => Lit(Num(text))
    case Word(text) => Lit(WordValue(text))
    case PathOf(path) => Var(path.head, StepSegs(q, path.steps), path.head + StepNames(q, path.steps))
  }

  function ComparisonExpr(q: Quoting, c: Comparison): Expr
    requires ValidComparison(c)
  {
    match c
    case Single(o) => OperandExpr(q, o)
    case Pair(l, op, r) => Compare(OpOf(op), OperandExpr(q, l), OperandExpr(q, r))
  }

  function ConjunctionExpr(q: Quoting, c: Conjunction): Expr
    requires ValidConjunction(c)
  {
    if |c| == 1 then ComparisonExpr(q, c[0]) else And(ComparisonExpr(q, c[0]), ConjunctionExpr(q, c[1..]))
  }

  function ConditionExpr(q: Quoting, c: Condition): Expr
    requires ValidCondition(c)
  {
    if |c| == 1 then ConjunctionExpr(q, c[0]) else Or(ConjunctionExpr(q, c[0]), ConditionExpr(q, c[1..]))
  }

  function OperandExprs(q: Quoting, os: seq<Operand>): seq<Expr>
    requires ValidOperands(os)
  {
    if os == [] then [] else [OperandExpr(q, os[0])] + OperandExprs(q, os[1..])
  }

  function FilterExprs(q: Quoting, fs: seq<FilterUse>): seq<Filter>
    requires ValidFilters(fs)
  {
    if fs == [] then [] else [Filter(fs[0].name, OperandExprs(q, fs[0].args))] + FilterExprs(q, fs[1..])
  }

  function OutputExpr(q: Quoting, o: OutputUse): Output
    requires ValidOutput(o)
  {
    Output(OperandExpr(q, o.base), FilterExprs(q, o.filters))
  }
}
