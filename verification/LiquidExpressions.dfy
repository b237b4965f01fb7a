/** The expression parser of the Liquid subset (internal/liquid/parse.go). */
module LiquidExpressions {
  import opened Options
  import opened LiquidSyntax
  import opened LiquidScanner
  import opened LiquidGrammar
  import LiquidValues

  // What a parsing function made of the front of the tokens, and the rest.
  datatype Parsed<+T> = Parsed(value: T, rest: seq<Token>) | Failed(fault: Fault)

  // A bracketed step: what it selects and how the path's name shows it.
  datatype Subscript = Subscript(seg: Seg, shown: string)

  ghost predicate Consumes<T>(r: Parsed<T>, toks: seq<Token>) {
    r.Parsed? ==> |r.rest| < |toks|
  }

  predicate Is(toks: seq<Token>, t: Token) {
    toks != [] && toks[0] == t
  }

  predicate IsText(toks: seq<Token>, kind: Kind, text: string) {
    Is(toks, Token(kind, text))
  }

  function ParseOperand(q: Quoting, toks: seq<Token>): (r: Parsed<Expr>)
    ensures Consumes(r, toks)
  {
    if toks == [] then Failed(EndOfExpression)
    else
      var t := toks[0];
      match t.kind
      case Quoted => Parsed(Lit(Str(t.text)), toks[1..])
      case Number => Parsed(Lit(Num(t.text)), toks[1..])
      case Ident =>
        if t.text in WORDS then Parsed(Lit(WordValue(t.text)), toks[1..])
        else ParsePath(q, t.text, [], t.text, toks[1..])
      case _ => Failed(UnexpectedToken(t.text))
  }

  // The path head.rest, named name so far, followed by toks.
  function ParsePath(q: Quoting, head: string, rest: seq<Seg>, name: string, toks: seq<Token>): (r: Parsed<Expr>)
    ensures r.Parsed? ==> |r.rest| <= |toks| && r.value.Var?
    decreases |toks|, 1
  {
    if IsText(toks, Punct, ".") then
      if |toks| < 2 || !toks[1].kind.Ident? then Failed(NoPropertyName)
      else ParsePath(q, head, rest + [Prop(toks[1].text)], name + ("." + toks[1].text), toks[2..])
    else if IsText(toks, Punct, "[") then
      match ParseIndex(q, toks)
      case Failed(fault) => Failed(fault)
      case Parsed(sub, after) =>
        if after == [] || after[0].text != "]" then Failed(NoBracket)
        else ParsePath(q, head, rest + [sub.seg], name + ("[" + sub.shown + "]"), after[1..])
    else Parsed(Var(head, rest, name), toks)
  }

  function ParseIndex(q: Quoting, toks: seq<Token>): (r: Parsed<Subscript>)
    requires toks != []
    ensures Consumes(r, toks)
    decreases |toks|, 0
  {
    if |toks| < 2 then Failed(NoIndex)
    else
      var t := toks[1];
      match t.kind
      case Number =>
        var n := Int64Of(t.text);
        if n.Some? then Parsed(Subscript(Index(n.value), LiquidValues.IntText(n.value)), toks[2..])
        else Failed(NotAnInteger)
      case Quoted => Parsed(Subscript(Prop(t.text), q(t.text)), toks[2..])
      case Ident =>
        (match ParsePath(q, t.text, [], t.text, toks[2..])
         case Failed(fault) => Failed(fault)
         case Parsed(e, after) => Parsed(Subscript(Dyn(e), e.name), after))
      case _ => Failed(UnsupportedIndex)
  }

  function ParseComparison(q: Quoting, toks: seq<Token>): (r: Parsed<Expr>)
    ensures Consumes(r, toks)
  {
    match ParseOperand(q, toks)
    case Failed(fault) => Failed(fault)
    case Parsed(l, after) =>
      if after == [] || !IsOp(after[0]) then Parsed(l, after)
      else match ParseOperand(q, after[1..])
        case Failed(fault) => Failed(fault)
        case Parsed(r, rest) => Parsed(Compare(OpOf(after[0]), l, r), rest)
  }

  function ParseAnd(q: Quoting, toks: seq<Token>): (r: Parsed<Expr>)
    ensures Consumes(r, toks)
    decreases |toks|
  {
    match ParseComparison(q, toks)
    case Failed(fault) => Failed(fault)
    case Parsed(l, after) =>
      if !IsText(after, Ident, "and") then Parsed(l, after)
      else match ParseAnd(q, after[1..])
        case Failed(fault) => Failed(fault)
        case Parsed(r, rest) => Parsed(And(l, r), rest)
  }

  function ParseOr(q: Quoting, toks: seq<Token>): (r: Parsed<Expr>)
    ensures Consumes(r, toks)
    decreases |toks|
  {
    match ParseAnd(q, toks)
    case Failed(fault) => Failed(fault)
    case Parsed(l, after) =>
      if !IsText(after, Ident, "or") then Parsed(l, after)
      else match ParseOr(q, after[1..])
        case Failed(fault) => Failed(fault)
        case Parsed(r, rest) => Parsed(Or(l, r), rest)
  }

  // The arguments of a filter after its colon.
  function ParseArgs(q: Quoting, toks: seq<Token>): (r: Parsed<seq<Expr>>)
    ensures Consumes(r, toks)
    decreases |toks|
  {
    match ParseOperand(q, toks)
    case Failed(fault) => Failed(fault)
    case Parsed(e, after) =>
      if !IsText(after, Punct, ",") then Parsed([e], after)
      else match ParseArgs(q, after[1..])
        case Failed(fault) => Failed(fault)
        case Parsed(es, rest) => Parsed([e] + es, rest)
  }

  function ParseFilter(q: Quoting, toks: seq<Token>): (r: Parsed<Filter>)
    requires toks != []
    ensures Consumes(r, toks)
  {
    if !IsText(toks, Punct, "|") then Failed(UnexpectedToken(toks[0].text))
    else if |toks| < 2 || !toks[1].kind.Ident? then Failed(NoFilterName)
    else if !IsText(toks[2..], Punct, ":") then Parsed(Filter(toks[1].text, []), toks[2..])
    else match ParseArgs(q, toks[3..])
      case Failed(fault) => Failed(fault)
      case Parsed(args, rest) => Parsed(Filter(toks[1].text, args), rest)
  }

  function ParseFilters(q: Quoting, toks: seq<Token>): Result<seq<Filter>>
    decreases |toks|
  {
    if toks == [] then Ok([])
    else match ParseFilter(q, toks)
      case Failed(fault) => Err(fault)
      case Parsed(f, rest) =>
        match ParseFilters(q, rest)
        case Err(fault) => Err(fault)
        case Ok(fs) => Ok([f] + fs)
  }

  /// Whole sources

  function Whole(r: Parsed<Expr>): Result<Expr> {
    match r
    case Failed(fault) => Err(fault)
    case Parsed(e, rest) => if rest == [] then Ok(e) else Err(TrailingTokens)
  }

  function ReadCondition(q: Quoting, toks: seq<Token>): Result<Expr> {
    if toks == [] then Err(EmptyExpression) else Whole(ParseOr(q, toks))
  }

  function ReadOperand(q: Quoting, toks: seq<Token>): Result<Expr> {
    if toks == [] then Err(EmptyExpression) else Whole(ParseOperand(q, toks))
  }

  function ReadOutput(q: Quoting, toks: seq<Token>): Result<Output> {
    if toks == [] then Err(EmptyExpression)
    else match ParseOperand(q, toks)
      case Failed(fault) => Err(fault)
      case Parsed(base, rest) =>
        match ParseFilters(q, rest)
        case Err(fault) => Err(fault)
        case Ok(filters) => Ok(Output(base, filters))
  }

  function ConditionOf(q: Quoting, src: string): Result<Expr> {
    match Scan(src)
    case Err(fault) => Err(fault)
    case Ok(toks) => ReadCondition(q, toks)
  }

  function OperandOf(q: Quoting, src: string): Result<Expr> {
    match Scan(src)
    case Err(fault) => Err(fault)
    case Ok(toks) => ReadOperand(q, toks)
  }

  function OutputOf(q: Quoting, src: string): Result<Output> {
    match Scan(src)
    case Err(fault) => Err(fault)
    case Ok(toks) => ReadOutput(q, toks)
  }

  /// The recursive-descent parser

  class ExprParser {
    const toks: seq<Token>
    var pos: nat

    constructor (toks: seq<Token>)
      ensures this.toks == toks && pos == 0
    {
      this.toks := toks;
      pos := 0;
    }

    ghost predicate Valid()
      reads this
    {
      pos <= |toks|
    }

    // What is left to read.
    ghost function Left(): seq<Token>
      requires Valid()
      reads this
    {
      toks[pos..]
    }

    // The parser stands after what r consumed, or r is the failure returned.
    ghost predicate Follows<T>(r: Parsed<T>, out: Result<T>)
      reads this
    {
      match r
      case Failed(fault) => out == Err(fault)
      case Parsed(value, rest) => out == Ok(value) && Valid() && Left() == rest
    }

    function Peek(): (t: Option<Token>)
      requires Valid()
      reads this
      ensures t == if Left() == [] then None else Some(Left()[0])
    {
      if pos < |toks| then Some(toks[pos]) else None
    }

    method Next() returns (t: Option<Token>)
      requires Valid()
      modifies this
      ensures Valid() && old(pos) <= pos
      ensures match t
        case None => old(Left()) == [] && pos == old(pos)
        case Some(tok) => old(Left()) == [tok] + Left() && pos == old(pos) + 1
    {
      t := Peek();
      if t.Some? {
        pos := pos + 1;
      }
    }

    method Or(q: Quoting) returns (r: Result<Expr>)
      requires Valid()
      modifies this
      ensures Follows(ParseOr(q, old(Left())), r)
      decreases |toks| - pos, 4
    {
      hide ParseAnd;
      var lhs := And(q);
      if lhs.Err? { return lhs; }
      var t := Peek();
      if t == Some(Token(Ident, "or")) {
        t := Next();
        var rhs := Or(q);
        if rhs.Err? { return rhs; }
        return Ok(Expr.Or(lhs.value, rhs.value));
      }
      return lhs;
    }

    method And(q: Quoting) returns (r: Result<Expr>)
      requires Valid()
      modifies this
      ensures Follows(ParseAnd(q, old(Left())), r)
      decreases |toks| - pos, 3
    {
      hide ParseComparison;
      var lhs := Comparison(q);
      if lhs.Err? { return lhs; }
      var t := Peek();
      if t == Some(Token(Ident, "and")) {
        t := Next();
        var rhs := And(q);
        if rhs.Err? { return rhs; }
        return Ok(Expr.And(lhs.value, rhs.value));
      }
      return lhs;
    }

    method Comparison(q: Quoting) returns (r: Result<Expr>)
      requires Valid()
      modifies this
      ensures Follows(ParseComparison(q, old(Left())), r)
      decreases |toks| - pos, 2
    {
      hide ParseOperand;
      var lhs := Operand(q);
      if lhs.Err? { return lhs; }
      var t := Peek();
      if t.None? || !IsOp(t.value) { return lhs; }
      var op := Next();
      var rhs := Operand(q);
      if rhs.Err? { return rhs; }
      return Ok(Compare(OpOf(op.value), lhs.value, rhs.value));
    }

    method Operand(q: Quoting) returns (r: Result<Expr>)
      requires Valid()
      modifies this
      ensures Follows(ParseOperand(q, old(Left())), r)
      decreases |toks| - pos, 1
    {
      hide ParsePath;
      var t := Next();
      if t.None? { return Err(EndOfExpression); }
      assert old(Left())[1..] == Left();
      var text := t.value.text;
      match t.value.kind {
        case Quoted => return Ok(Lit(Str(text)));
        case Number => return Ok(Lit(Num(text)));
        case Ident =>
          if text in WORDS { return Ok(Lit(WordValue(text))); }
          r := Path(q, text);
        case _ => return Err(UnexpectedToken(text));
      }
    }

    method Path(q: Quoting, head: string) returns (r: Result<Expr>)
      requires Valid()
      modifies this
      ensures old(pos) <= pos
      ensures Follows(ParsePath(q, head, [], head, old(Left())), r)
      decreases |toks| - pos, 1
    {
      var path, name := [], head;
      ghost var whole := ParsePath(q, head, [], head, Left());
      while true
        invariant Valid() && old(pos) <= pos
        invariant ParsePath(q, head, path, name, Left()) == whole
        decreases |toks| - pos
      {
        ghost var left := Left();
        var t := Peek();
        if t == Some(Token(Punct, ".")) {
          t := Next();
          var nt := Next();
          if nt.None? || !nt.value.kind.Ident? { return Err(NoPropertyName); }
          assert left[2..] == Left() && left[1] == nt.value;
          path := path + [Prop(nt.value.text)];
          name := name + ("." + nt.value.text);
        } else if t == Some(Token(Punct, "[")) {
          var seg := Index(q);
          if seg.Err? { return Err(seg.fault); }
          ghost var after := Left();
          var ct := Next();
          if ct.None? || ct.value.text != "]" { return Err(NoBracket); }
          assert after[1..] == Left();
          path := path + [seg.value.seg];
          name := name + ("[" + seg.value.shown + "]");
        } else {
          return Ok(Var(head, path, name));
        }
      }
    }

    method Index(q: Quoting) returns (r: Result<Subscript>)
      requires Valid() && Left() != []
      modifies this
      ensures old(pos) <= pos
      ensures Follows(ParseIndex(q, old(Left())), r)
      decreases |toks| - pos, 0
    {
      hide ParsePath;
      var open := Next();
      var t := Next();
      if t.None? { return Err(NoIndex); }
      assert old(Left())[2..] == Left() && old(Left())[1] == t.value;
      var text := t.value.text;
      match t.value.kind {
        case Number =>
          var n := Int64Of(text);
          if n.None? { return Err(NotAnInteger); }
          return Ok(Subscript(Seg.Index(n.value), LiquidValues.IntText(n.value)));
        case Quoted => return Ok(Subscript(Prop(text), q(text)));
        case Ident =>
          var sub := Path(q, text);
          if sub.Err? { return Err(sub.fault); }
          return Ok(Subscript(Dyn(sub.value), sub.value.name));
        case _ => return Err(UnsupportedIndex);
      }
    }

    // The filters after the base of an output, up to the end.
    method Filters(q: Quoting) returns (r: Result<seq<Filter>>)
      requires Valid()
      modifies this
      ensures r == ParseFilters(q, old(Left()))
    {
      hide ParseFilter;
      var filters := [];
      ghost var whole := ParseFilters(q, Left());
      assert whole.Ok? ==> [] + whole.value == whole.value;
      while true
        invariant Valid()
        invariant whole == match ParseFilters(q, Left())
          case Err(fault) => Err(fault)
          case Ok(fs) => Ok(filters + fs)
        decreases |toks| - pos
      {
        if Peek().None? {
          assert filters + [] == filters;
          return Ok(filters);
        }
        ghost var left := Left();
        var f := Filter(q);
        if f.Err? { return Err(f.fault); }
        ghost var later := ParseFilters(q, Left());
        assert later.Ok? ==> filters + ([f.value] + later.value) == filters + [f.value] + later.value;
        filters := filters + [f.value];
      }
    }

    method Filter(q: Quoting) returns (r: Result<Filter>)
      requires Valid() && Left() != []
      modifies this
      ensures Follows(ParseFilter(q, old(Left())), r)
    {
      hide ParseArgs;
      ghost var left := Left();
      var t := Peek();
      if t != Some(Token(Punct, "|")) { return Err(UnexpectedToken(t.value.text)); }
      t := Next();
      var nt := Next();
      if nt.None? || !nt.value.kind.Ident? { return Err(NoFilterName); }
      assert left[2..] == Left() && left[1] == nt.value;
      var args := [];
      if Peek() == Some(Token(Punct, ":")) {
        t := Next();
        assert left[3..] == Left();
        var more := Args(q);
        if more.Err? { return Err(more.fault); }
        args := more.value;
      }
      return Ok(LiquidSyntax.Filter(nt.value.text, args));
    }

    method Args(q: Quoting) returns (r: Result<seq<Expr>>)
      requires Valid()
      modifies this
      ensures Follows(ParseArgs(q, old(Left())), r)
    {
      hide ParseOperand;
      var args := [];
      ghost var whole := ParseArgs(q, Left());
      assert whole.Parsed? ==> [] + whole.value == whole.value;
      while true
        invariant Valid()
        invariant whole == match ParseArgs(q, Left())
          case Failed(fault) => Failed(fault)
          case Parsed(es, rest) => Parsed(args + es, rest)
        decreases |toks| - pos
      {
        ghost var left := Left();
        var arg := Operand(q);
        if arg.Err? { return Err(arg.fault); }
        if Peek() != Some(Token(Punct, ",")) { return Ok(args + [arg.value]); }
        ghost var after := Left();
        var comma := Next();
        assert after[1..] == Left();
        ghost var later := ParseArgs(q, Left());
        assert later.Parsed? ==> args + ([arg.value] + later.value) == args + [arg.value] + later.value;
        args := args + [arg.value];
      }
    }
  }

  method ParseCondition(q: Quoting, src: string) returns (r: Result<Expr>)
    ensures r == ConditionOf(q, src)
  {
    hide ParseOr, Scan;
    var toks := ScanExpr(src);
    if toks.Err? { return Err(toks.fault); }
    if toks.value == [] { return Err(EmptyExpression); }
    var p := new ExprParser(toks.value);
    assert toks.value[0..] == toks.value;
    var e := p.Or(q);
    if e.Err? { return e; }
    if p.pos != |p.toks| { return Err(TrailingTokens); }
    return e;
  }

  method ParseOperandString(q: Quoting, src: string) returns (r: Result<Expr>)
    ensures r == OperandOf(q, src)
  {
    hide ParseOperand, Scan;
    var toks := ScanExpr(src);
    if toks.Err? { return Err(toks.fault); }
    if toks.value == [] { return Err(EmptyExpression); }
    var p := new ExprParser(toks.value);
    assert toks.value[0..] == toks.value;
    var e := p.Operand(q);
    if e.Err? { return e; }
    if p.pos != |p.toks| { return Err(TrailingTokens); }
    return e;
  }

  method ParseOutputExpr(q: Quoting, src: string) returns (r: Result<Output>)
    ensures r == OutputOf(q, src)
  {
    hide ParseOperand, Scan, ParseFilters;
    var toks := ScanExpr(src);
    if toks.Err? { return Err(toks.fault); }
    if toks.value == [] { return Err(EmptyExpression); }
    var p := new ExprParser(toks.value);
    assert toks.value[0..] == toks.value;
    var base := p.Operand(q);
    if base.Err? { return Err(base.fault); }
    var filters := p.Filters(q);
    if filters.Err? { return Err(filters.fault); }
    return Ok(Output(base.value, filters.value));
  }
}
