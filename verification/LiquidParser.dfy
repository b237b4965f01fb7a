/** The template parser of the Liquid subset (internal/liquid/parse.go). */
module LiquidParser {
  import opened Options
  import opened LiquidSyntax
  import LiquidScanner
  import LiquidExpressions
  import opened LiquidGrammar
  import opened Spaces

  // What the lexer cuts a template into.
  datatype Piece = TextPiece(text: string) | OutPiece(body: string) | TagPiece(body: string)

  type Fault = LiquidScanner.Fault

  type Result<T> = LiquidScanner.Result<T>

  /// Library string functions

  // The index of the first character of s that p holds of, or |s|.
  function IndexOf(s: string, p: char -> bool): (i: nat)
    ensures i <= |s|
  {
    if s == "" || p(s[0]) then 0 else 1 + IndexOf(s[1..], p)
  }

  function Joined(fields: seq<string>): string {
    if fields == [] then "" else if |fields| == 1 then fields[0] else fields[0] + " " + Joined(fields[1..])
  }

  /// Tags

  datatype Split = Split(name: string, arg: string)

  function SplitTag(body: string): Split {
    var b := TrimSpace(body);
    var i := IndexOf(b, LiquidScanner.Blank);
    if i == |b| then Split(b, "") else Split(b[..i], TrimSpace(b[i..]))
  }

  predicate Identifier(s: string) {
    s != "" && forall i :: 0 <= i < |s| ==> LiquidScanner.IsLetter(s[i]) || (i > 0 && LiquidScanner.IsDigit(s[i]))
  }

  datatype Loop = Loop(varName: string, source: Expr)

  function ForOf(q: Quoting, arg: string): Result<Loop> {
    var fields := Fields(arg);
    if |fields| < 3 || fields[1] != "in" then LiquidScanner.Err(LiquidScanner.MalformedFor)
    else match LiquidExpressions.OperandOf(q, Joined(fields[2..]))
      case Err(fault) => LiquidScanner.Err(fault)
      case Ok(e) => LiquidScanner.Ok(Loop(fields[0], e))
  }

  function AssignOf(q: Quoting, arg: string): Result<Node> {
    var i := IndexOf(arg, c => c == '=');
    if i == |arg| then LiquidScanner.Err(LiquidScanner.MalformedAssign)
    else
      var target := TrimSpace(arg[..i]);
      if !Identifier(target) then LiquidScanner.Err(LiquidScanner.MalformedTarget)
      else match LiquidExpressions.OutputOf(q, arg[i + 1..])
        case Err(fault) => LiquidScanner.Err(fault)
        case Ok(o) => LiquidScanner.Ok(Assign(target, o))
  }

  /// Blank bodies

  predicate BlankNode(n: Node) {
    match n
    case Text(text) => TrimSpace(text) == ""
    case Assign(_, _) => true
    case _ => false
  }

  predicate AllBlank(body: seq<Node>) {
    forall i :: 0 <= i < |body| ==> BlankNode(body[i])
  }

  function WithoutText(body: seq<Node>): seq<Node> {
    if body == [] then [] else (if body[0].Text? then [] else [body[0]]) + WithoutText(body[1..])
  }

  function RemoveBlankText(body: seq<Node>): seq<Node> {
    if AllBlank(body) then WithoutText(body) else body
  }

  /// Blocks

  // The nodes up to one of the stop tags, that tag's name, and what starts
  // with it; the name is empty at the end of the template.
  datatype Block = Block(nodes: seq<Node>, stop: string, rest: seq<Piece>) | BadBlock(fault: Fault)

  datatype Tag = Tag(node: Node, rest: seq<Piece>) | BadTag(fault: Fault)

  datatype Ifs = Ifs(branches: seq<Branch>, elseBody: seq<Node>, rest: seq<Piece>) | BadIfs(fault: Fault)

  const IF_STOPS := {"elsif", "else", "endif"}
  const UNLESS_STOPS := {"else", "endunless"}
  const FOR_STOPS := {"else", "endfor"}

  predicate StandsAt(rest: seq<Piece>, stop: string, stops: set<string>) {
    if stop == "" then rest == []
    else stop in stops && rest != [] && rest[0].TagPiece? && SplitTag(rest[0].body).name == stop
  }

  function Cons(n: Node, b: Block): Block {
    if b.Block? then b.(nodes := [n] + b.nodes) else b
  }

  function ReadBlock(q: Quoting, toks: seq<Piece>, stops: set<string>): (r: Block)
    requires "" !in stops
    ensures r.Block? ==> StandsAt(r.rest, r.stop, stops) && |r.rest| <= |toks|
    decreases |toks|, 0
  {
    if toks == [] then Block([], "", [])
    else match toks[0]
      case TextPiece(text) => Cons(Text(text), ReadBlock(q, toks[1..], stops))
      case OutPiece(body) =>
        (match LiquidExpressions.OutputOf(q, body)
         case Err(fault) => BadBlock(fault)
         case Ok(o) => Cons(Out(o), ReadBlock(q, toks[1..], stops)))
      case TagPiece(body) =>
        var tag := SplitTag(body);
        if tag.name in stops then Block([], tag.name, toks)
        else match ReadTag(q, tag, toks[1..])
          case BadTag(fault) => BadBlock(fault)
          case Tag(n, rest) => Cons(n, ReadBlock(q, rest, stops))
  }

  // The node a tag starts; toks is what follows the tag.
  function ReadTag(q: Quoting, tag: Split, toks: seq<Piece>): (r: Tag)
    ensures r.Tag? ==> |r.rest| <= |toks|
    decreases |toks|, 3
  {
    if tag.name == "if" then
      match LiquidExpressions.ConditionOf(q, tag.arg) {
        case Err(fault) => BadTag(fault)
        case Ok(cond) =>
          match ReadBranches(q, cond, toks)
          case BadIfs(fault) => BadTag(fault)
          case Ifs(branches, elseBody, rest) => Tag(If(branches, elseBody), rest)
      }
    else if tag.name == "unless" then
      match LiquidExpressions.ConditionOf(q, tag.arg) {
        case Err(fault) => BadTag(fault)
        case Ok(cond) =>
          match ReadBodies(q, toks, UNLESS_STOPS, "endunless")
          case BadBodies(fault) => BadTag(fault)
          case Bodies(body, elseBody, rest) => Tag(Unless(cond, body, elseBody), rest)
      }
    else if tag.name == "for" then
      match ForOf(q, tag.arg) {
        case Err(fault) => BadTag(fault)
        case Ok(Loop(varName, source)) =>
          match ReadBodies(q, toks, FOR_STOPS, "endfor")
          case BadBodies(fault) => BadTag(fault)
          case Bodies(body, elseBody, rest) => Tag(For(varName, source, body, elseBody), rest)
      }
    else if tag.name == "assign" then
      match AssignOf(q, tag.arg) {
        case Err(fault) => BadTag(fault)
        case Ok(n) => Tag(n, toks)
      }
    else if tag.name == "break" then Tag(Break, toks)
    else if tag.name == "continue" then Tag(Continue, toks)
    else BadTag(LiquidScanner.UnexpectedTag(tag.name))
  }

  // The branches of an if from the one guarded by cond on, and its else body.
  function ReadBranches(q: Quoting, cond: Expr, toks: seq<Piece>): (r: Ifs)
    ensures r.Ifs? ==> |r.rest| <= |toks|
    decreases |toks|, 2
  {
    match ReadBlock(q, toks, IF_STOPS)
    case BadBlock(fault) => BadIfs(fault)
    case Block(body, stop, rest) =>
      var br := Branch(cond, RemoveBlankText(body));
      if stop == "" then BadIfs(LiquidScanner.Expected("endif"))
      else if stop == "endif" then Ifs([br], [], rest[1..])
      else if stop == "elsif" then
        match LiquidExpressions.ConditionOf(q, SplitTag(rest[0].body).arg) {
          case Err(fault) => BadIfs(fault)
          case Ok(next) => Also(br, ReadBranches(q, next, rest[1..]))
        }
      else match ReadElse(q, rest[1..], "endif")
        case BadBodies(fault) => BadIfs(fault)
        case Bodies(_, elseBody, after) => Ifs([br], elseBody, after)
  }

  function Also(br: Branch, r: Ifs): Ifs {
    if r.Ifs? then r.(branches := [br] + r.branches) else r
  }

  datatype Bodies = Bodies(body: seq<Node>, elseBody: seq<Node>, rest: seq<Piece>) | BadBodies(fault: Fault)

  // The body and the else body of an unless or a for.
  function ReadBodies(q: Quoting, toks: seq<Piece>, stops: set<string>, closer: string): (r: Bodies)
    requires stops == {"else", closer} && closer != ""
    ensures r.Bodies? ==> |r.rest| <= |toks|
    decreases |toks|, 2
  {
    match ReadBlock(q, toks, stops)
    case BadBlock(fault) => BadBodies(fault)
    case Block(body, stop, rest) =>
      if stop == closer then Bodies(RemoveBlankText(body), [], rest[1..])
      else if stop == "else" then
        match ReadElse(q, rest[1..], closer) {
          case BadBodies(fault) => BadBodies(fault)
          case Bodies(_, elseBody, after) => Bodies(RemoveBlankText(body), elseBody, after)
        }
      else BadBodies(LiquidScanner.Expected(closer))
  }

  // An else body up to its closing tag.
  function ReadElse(q: Quoting, toks: seq<Piece>, closer: string): (r: Bodies)
    requires closer != ""
    ensures r.Bodies? ==> |r.rest| <= |toks|
    decreases |toks|, 1
  {
    match ReadBlock(q, toks, {closer})
    case BadBlock(fault) => BadBodies(fault)
    case Block(body, stop, rest) =>
      if stop != closer then BadBodies(LiquidScanner.Expected(closer))
      else Bodies([], RemoveBlankText(body), rest[1..])
  }

  function ReadTemplate(q: Quoting, toks: seq<Piece>): Result<seq<Node>> {
    match ReadBlock(q, toks, {})
    case BadBlock(fault) => LiquidScanner.Err(fault)
    case Block(nodes, _, _) => LiquidScanner.Ok(nodes)
  }

  /// The recursive-descent parser

  method IsIdentifier(s: string) returns (r: bool)
    ensures r == Identifier(s)
  {
    if s == "" { return false; }
    for i := 0 to |s|
      invariant forall j :: 0 <= j < i ==> LiquidScanner.IsLetter(s[j]) || (j > 0 && LiquidScanner.IsDigit(s[j]))
    {
      if !(LiquidScanner.IsLetter(s[i]) || (i > 0 && LiquidScanner.IsDigit(s[i]))) { return false; }
    }
    return true;
  }

  method ParseAssign(q: Quoting, arg: string) returns (r: Result<Node>)
    ensures r == AssignOf(q, arg)
  {
    var i := IndexOf(arg, c => c == '=');
    if i == |arg| { return LiquidScanner.Err(LiquidScanner.MalformedAssign); }
    var target := TrimSpace(arg[..i]);
    var fine := IsIdentifier(target);
    if !fine { return LiquidScanner.Err(LiquidScanner.MalformedTarget); }
    var o := LiquidExpressions.ParseOutputExpr(q, arg[i + 1..]);
    if o.Err? { return LiquidScanner.Err(o.fault); }
    return LiquidScanner.Ok(Assign(target, o.value));
  }

  method RemoveBlank(body: seq<Node>) returns (out: seq<Node>)
    ensures out == RemoveBlankText(body)
  {
    hide BlankNode;
    for i := 0 to |body|
      invariant forall j :: 0 <= j < i ==> BlankNode(body[j])
    {
      if !BlankNode(body[i]) { return body; }
    }
    out := [];
    assert body[0..] == body;
    for i := 0 to |body|
      invariant out + WithoutText(body[i..]) == WithoutText(body)
    {
      assert body[i..][0] == body[i] && body[i..][1..] == body[i + 1..];
      if !body[i].Text? {
        assert out + ([body[i]] + WithoutText(body[i + 1..])) == out + [body[i]] + WithoutText(body[i + 1..]);
        out := out + [body[i]];
      }
    }
    assert out + [] == out;
  }

  class Parser {
    const toks: seq<Piece>
    var pos: nat

    constructor (toks: seq<Piece>)
      ensures this.toks == toks && pos == 0
    {
      this.toks := toks;
      pos := 0;
    }

    ghost predicate Valid()
      reads this
    {
      pos <= |toks|
    }

    ghost function Left(): seq<Piece>
      requires Valid()
      reads this
    {
      toks[pos..]
    }

    method ParseBlock(q: Quoting, stops: set<string>) returns (nodes: seq<Node>, stop: string, fault: Option<Fault>)
      requires Valid() && "" !in stops
      modifies this
      ensures Valid() && old(pos) <= pos
      ensures match ReadBlock(q, old(Left()), stops)
        case BadBlock(f) => fault == Some(f)
        case Block(ns, s, rest) => fault == None && nodes == ns && stop == s && Left() == rest
      decreases |toks| - pos, 0
    {
      hide ReadTag, SplitTag, Cons, Before, LiquidExpressions.OutputOf;
      nodes := [];
      ghost var whole := ReadBlock(q, Left(), stops);
      BeforeNone(whole);
      while pos < |toks|
        invariant Valid() && old(pos) <= pos
        invariant whole == Before(nodes, ReadBlock(q, Left(), stops))
        decreases |toks| - pos
      {
        ghost var left := Left();
        assert left[0] == toks[pos] && left[1..] == toks[pos + 1..];
        match toks[pos] {
          case TextPiece(text) =>
            BeforeCons(nodes, Text(text), ReadBlock(q, left[1..], stops));
            nodes := nodes + [Text(text)];
            pos := pos + 1;
          case OutPiece(body) =>
            var o := LiquidExpressions.ParseOutputExpr(q, body);
            if o.Err? {
              BeforeBad(nodes, o.fault);
              return [], "", Some(o.fault);
            }
            BeforeCons(nodes, Out(o.value), ReadBlock(q, left[1..], stops));
            nodes := nodes + [Out(o.value)];
            pos := pos + 1;
          case TagPiece(body) =>
            var tag := SplitTag(body);
            if tag.name in stops {
              BeforeEnd(nodes, tag.name, Left());
              return nodes, tag.name, None;
            }
            pos := pos + 1;
            var n := ParseTag(q, tag);
            if n.Err? {
              BeforeBad(nodes, n.fault);
              return [], "", Some(n.fault);
            }
            BeforeCons(nodes, n.value, ReadBlock(q, Left(), stops));
            nodes := nodes + [n.value];
        }
      }
      BeforeEnd(nodes, "", []);
      return nodes, "", None;
    }

    method ParseTag(q: Quoting, tag: Split) returns (r: Result<Node>)
      requires Valid()
      modifies this
      ensures Valid() && old(pos) <= pos
      ensures match ReadTag(q, tag, old(Left()))
        case BadTag(fault) => r == LiquidScanner.Err(fault)
        case Tag(n, rest) => r == LiquidScanner.Ok(n) && Left() == rest
      decreases |toks| - pos, 4
    {
      hide ReadBranches, ReadBodies, ForOf, AssignOf, LiquidExpressions.ConditionOf;
      match tag.name {
        case "if" => r := ParseIf(q, tag.arg);
        case "unless" => r := ParseUnless(q, tag.arg);
        case "for" => r := ParseFor(q, tag.arg);
        case "assign" => r := ParseAssign(q, tag.arg);
        case "break" => return LiquidScanner.Ok(Break);
        case "continue" => return LiquidScanner.Ok(Continue);
        case _ => return LiquidScanner.Err(LiquidScanner.UnexpectedTag(tag.name));
      }
    }

    method ParseIf(q: Quoting, arg: string) returns (r: Result<Node>)
      requires Valid()
      modifies this
      ensures Valid() && old(pos) <= pos
      ensures match ReadTag(q, Split("if", arg), old(Left()))
        case BadTag(fault) => r == LiquidScanner.Err(fault)
        case Tag(n, rest) => r == LiquidScanner.Ok(n) && Left() == rest
      decreases |toks| - pos, 3
    {
      hide ReadBranches, LiquidExpressions.ConditionOf;
      var cond := LiquidExpressions.ParseCondition(q, arg);
      if cond.Err? { return LiquidScanner.Err(cond.fault); }
      r := ParseBranches(q, cond.value);
    }

    method ParseBranches(q: Quoting, first: Expr) returns (r: Result<Node>)
      requires Valid()
      modifies this
      ensures Valid() && old(pos) <= pos
      ensures match ReadBranches(q, first, old(Left()))
        case BadIfs(fault) => r == LiquidScanner.Err(fault)
        case Ifs(branches, elseBody, rest) => r == LiquidScanner.Ok(If(branches, elseBody)) && Left() == rest
      decreases |toks| - pos, 2
    {
      hide ReadBlock, ReadElse, SplitTag, AlsoAll, Also, RemoveBlankText, LiquidExpressions.ConditionOf;
      var branches, cond := [], first;
      ghost var whole := ReadBranches(q, first, Left());
      AlsoNone(whole);
      while true
        invariant Valid() && old(pos) <= pos
        invariant whole == AlsoAll(branches, ReadBranches(q, cond, Left()))
        decreases |toks| - pos
      {
        var body, stop, fault := ParseBlock(q, IF_STOPS);
        ghost var was := branches;
        if fault.Some? {
          AlsoBad(was, fault.value);
          return LiquidScanner.Err(fault.value);
        }
        var trimmed := RemoveBlank(body);
        ghost var br := Branch(cond, trimmed);
        branches := branches + [Branch(cond, trimmed)];
        if stop == "" {
          AlsoBad(was, LiquidScanner.Expected("endif"));
          return LiquidScanner.Err(LiquidScanner.Expected("endif"));
        }
        assert Left()[1..] == toks[pos + 1..] && Left()[0] == toks[pos];
        pos := pos + 1;
        if stop == "endif" {
          AlsoLast(was, br, [], Left());
          return LiquidScanner.Ok(If(branches, []));
        } else if stop == "elsif" {
          var next := LiquidExpressions.ParseCondition(q, SplitTag(toks[pos - 1].body).arg);
          if next.Err? {
            AlsoBad(was, next.fault);
            return LiquidScanner.Err(next.fault);
          }
          cond := next.value;
          AlsoNext(was, br, ReadBranches(q, cond, Left()));
        } else {
          var elseBody := ParseElse(q, "endif");
          if elseBody.Err? {
            AlsoBad(was, elseBody.fault);
            return LiquidScanner.Err(elseBody.fault);
          }
          AlsoLast(was, br, elseBody.value, Left());
          return LiquidScanner.Ok(If(branches, elseBody.value));
        }
      }
    }

    method ParseElse(q: Quoting, closer: string) returns (r: Result<seq<Node>>)
      requires Valid() && closer != ""
      modifies this
      ensures Valid() && old(pos) <= pos
      ensures match ReadElse(q, old(Left()), closer)
        case BadBodies(fault) => r == LiquidScanner.Err(fault)
        case Bodies(_, elseBody, rest) => r == LiquidScanner.Ok(elseBody) && Left() == rest
      decreases |toks| - pos, 1
    {
      hide ReadBlock, SplitTag;
      var body, stop, fault := ParseBlock(q, {closer});
      if fault.Some? { return LiquidScanner.Err(fault.value); }
      if stop != closer { return LiquidScanner.Err(LiquidScanner.Expected(closer)); }
      assert Left()[1..] == toks[pos + 1..];
      pos := pos + 1;
      var trimmed := RemoveBlank(body);
      return LiquidScanner.Ok(trimmed);
    }

    method ParseBodies(q: Quoting, stops: set<string>, closer: string) returns (r: Result<(seq<Node>, seq<Node>)>)
      requires Valid() && stops == {"else", closer} && closer != ""
      modifies this
      ensures Valid() && old(pos) <= pos
      ensures match ReadBodies(q, old(Left()), stops, closer)
        case BadBodies(fault) => r == LiquidScanner.Err(fault)
        case Bodies(body, elseBody, rest) => r == LiquidScanner.Ok((body, elseBody)) && Left() == rest
      decreases |toks| - pos, 2
    {
      hide ReadBlock, ReadElse, SplitTag;
      var body, stop, fault := ParseBlock(q, stops);
      if fault.Some? { return LiquidScanner.Err(fault.value); }
      var trimmed := RemoveBlank(body);
      ghost var at := Left();
      if stop == closer {
        assert at[1..] == toks[pos + 1..];
        pos := pos + 1;
        return LiquidScanner.Ok((trimmed, []));
      } else if stop == "else" {
        assert at[1..] == toks[pos + 1..];
        pos := pos + 1;
        var elseBody := ParseElse(q, closer);
        if elseBody.Err? { return LiquidScanner.Err(elseBody.fault); }
        return LiquidScanner.Ok((trimmed, elseBody.value));
      }
      return LiquidScanner.Err(LiquidScanner.Expected(closer));
    }

    method ParseUnless(q: Quoting, arg: string) returns (r: Result<Node>)
      requires Valid()
      modifies this
      ensures Valid() && old(pos) <= pos
      ensures match ReadTag(q, Split("unless", arg), old(Left()))
        case BadTag(fault) => r == LiquidScanner.Err(fault)
        case Tag(n, rest) => r == LiquidScanner.Ok(n) && Left() == rest
      decreases |toks| - pos, 3
    {
      hide ReadBodies, LiquidExpressions.ConditionOf;
      var cond := LiquidExpressions.ParseCondition(q, arg);
      if cond.Err? { return LiquidScanner.Err(cond.fault); }
      var bodies := ParseBodies(q, UNLESS_STOPS, "endunless");
      if bodies.Err? { return LiquidScanner.Err(bodies.fault); }
      return LiquidScanner.Ok(Unless(cond.value, bodies.value.0, bodies.value.1));
    }

    method ParseFor(q: Quoting, arg: string) returns (r: Result<Node>)
      requires Valid()
      modifies this
      ensures Valid() && old(pos) <= pos
      ensures match ReadTag(q, Split("for", arg), old(Left()))
        case BadTag(fault) => r == LiquidScanner.Err(fault)
        case Tag(n, rest) => r == LiquidScanner.Ok(n) && Left() == rest
      decreases |toks| - pos, 3
    {
      hide ReadBodies, LiquidExpressions.OperandOf, Fields, Joined;
      var fields := Fields(arg);
      if |fields| < 3 || fields[1] != "in" { return LiquidScanner.Err(LiquidScanner.MalformedFor); }
      var source := LiquidExpressions.ParseOperandString(q, Joined(fields[2..]));
      if source.Err? { return LiquidScanner.Err(source.fault); }
      var bodies := ParseBodies(q, FOR_STOPS, "endfor");
      if bodies.Err? { return LiquidScanner.Err(bodies.fault); }
      return LiquidScanner.Ok(For(fields[0], source.value, bodies.value.0, bodies.value.1));
    }
  }

  ghost function Before(nodes: seq<Node>, b: Block): Block {
    if b.Block? then b.(nodes := nodes + b.nodes) else b
  }

  lemma BeforeNone(b: Block)
    ensures Before([], b) == b
  {
    if b.Block? {
      assert [] + b.nodes == b.nodes;
    }
  }

  lemma BeforeBad(nodes: seq<Node>, fault: Fault)
    ensures Before(nodes, BadBlock(fault)) == BadBlock(fault)
  {
  }

  lemma BeforeEnd(nodes: seq<Node>, stop: string, rest: seq<Piece>)
    ensures Before(nodes, Block([], stop, rest)) == Block(nodes, stop, rest)
  {
    assert nodes + [] == nodes;
  }

  lemma BeforeCons(nodes: seq<Node>, n: Node, b: Block)
    ensures Before(nodes, Cons(n, b)) == Before(nodes + [n], b)
  {
    if b.Block? {
      assert nodes + ([n] + b.nodes) == nodes + [n] + b.nodes;
    }
  }

  ghost function AlsoAll(branches: seq<Branch>, r: Ifs): Ifs {
    if r.Ifs? then r.(branches := branches + r.branches) else r
  }

  lemma AlsoNone(r: Ifs)
    ensures AlsoAll([], r) == r
  {
    if r.Ifs? {
      assert [] + r.branches == r.branches;
    }
  }

  lemma AlsoBad(branches: seq<Branch>, fault: Fault)
    ensures AlsoAll(branches, BadIfs(fault)) == BadIfs(fault)
  {
  }

  lemma AlsoLast(branches: seq<Branch>, br: Branch, elseBody: seq<Node>, rest: seq<Piece>)
    ensures AlsoAll(branches, Ifs([br], elseBody, rest)) == Ifs(branches + [br], elseBody, rest)
  {
  }

  lemma AlsoNext(branches: seq<Branch>, br: Branch, r: Ifs)
    ensures AlsoAll(branches, Also(br, r)) == AlsoAll(branches + [br], r)
  {
    if r.Ifs? {
      assert branches + ([br] + r.branches) == branches + [br] + r.branches;
    }
  }

  method ParsePieces(q: Quoting, toks: seq<Piece>) returns (r: Result<seq<Node>>)
    ensures r == ReadTemplate(q, toks)
  {
    hide ReadBlock;
    var p := new Parser(toks);
    assert toks[0..] == toks;
    var nodes, stop, fault := p.ParseBlock(q, {});
    if fault.Some? { return LiquidScanner.Err(fault.value); }
    return LiquidScanner.Ok(nodes);
  }
}
