/**
 The template parser accepts exactly the well-nested templates: the pieces
 parse to some nodes just when they are the flattening of a tree, and the
 nodes are that tree with the text of its blank bodies removed.
 */
module LiquidNesting {
  import opened Options
  import opened LiquidSyntax
  import LiquidSemantics
  import opened LiquidGrammar
  import opened LiquidParser
  import LiquidScanner
  import LiquidExpressions
  import LiquidValues

  // What one piece says on its own.
  datatype Item =
    | TextItem(text: string) | OutItem(o: Output) | AssignItem(n: Node) | BreakItem | ContinueItem
    | IfItem(cond: Expr) | ElsifItem(cond: Expr) | ElseItem | EndIf
    | UnlessItem(cond: Expr) | EndUnless | ForItem(loop: Loop) | EndFor

  // A template before blank bodies lose their text; only here can an else body
  // that is empty be told from one that is not there.
  datatype Tree =
    | Plain(item: Item)
    | IfTree(first: Arm, more: seq<Arm>, other: Other)
    | UnlessTree(cond: Expr, body: seq<Tree>, other: Other)
    | ForTree(loop: Loop, body: seq<Tree>, other: Other)

  datatype Arm = Arm(cond: Expr, body: seq<Tree>)

  datatype Other = Absent | Else(body: seq<Tree>)

  predicate PlainItem(i: Item) {
    i.TextItem? || i.OutItem? || (i.AssignItem? && i.n.Assign?) || i.BreakItem? || i.ContinueItem?
  }

  predicate Valid(t: Tree)
    decreases t, 1
  {
    match t
    case Plain(item) => PlainItem(item)
    case IfTree(first, more, other) => ValidAll(first.body) && ValidArms(more) && ValidOther(other)
    case UnlessTree(_, body, other) => ValidAll(body) && ValidOther(other)
    case ForTree(_, body, other) => ValidAll(body) && ValidOther(other)
  }

  predicate ValidAll(ts: seq<Tree>)
    decreases ts, 0
  {
    ts == [] || (Valid(ts[0]) && ValidAll(ts[1..]))
  }

  predicate ValidArms(arms: seq<Arm>)
    decreases arms, 0
  {
    arms == [] || (ValidArm(arms[0]) && ValidArms(arms[1..]))
  }

  predicate ValidArm(a: Arm)
    decreases a, 1
  {
    ValidAll(a.body)
  }

  predicate ValidOther(o: Other)
    decreases o, 1
  {
    o.Else? ==> ValidAll(o.body)
  }

  /// Flattening

  function Flat(t: Tree): seq<Item>
    decreases t, 1
  {
    match t
    case Plain(item) => [item]
    case IfTree(first, more, other) =>
      [IfItem(first.cond)] + FlatAll(first.body) + FlatArms(more) + FlatOther(other) + [EndIf]
    case UnlessTree(cond, body, other) => [UnlessItem(cond)] + FlatAll(body) + FlatOther(other) + [EndUnless]
    case ForTree(loop, body, other) => [ForItem(loop)] + FlatAll(body) + FlatOther(other) + [EndFor]
  }

  function FlatAll(ts: seq<Tree>): seq<Item>
    decreases ts, 0
  {
    if ts == [] then [] else Flat(ts[0]) + FlatAll(ts[1..])
  }

  function FlatArms(arms: seq<Arm>): seq<Item>
    decreases arms, 0
  {
    if arms == [] then [] else FlatArm(arms[0]) + FlatArms(arms[1..])
  }

  function FlatArm(a: Arm): seq<Item>
    decreases a, 1
  {
    [ElsifItem(a.cond)] + FlatAll(a.body)
  }

  function FlatOther(o: Other): seq<Item>
    decreases o, 1
  {
    if o.Else? then [ElseItem] + FlatAll(o.body) else []
  }

  /// The nodes of a tree

  function PlainNode(i: Item): Node
    requires PlainItem(i)
  {
    match i
    case TextItem(text) => Text(text)
    case OutItem(o) => Out(o)
    case AssignItem(n) => n
    case BreakItem => Break
    case ContinueItem => Continue
  }

  function Trim(t: Tree): Node
    requires Valid(t)
    decreases t, 1
  {
    match t
    case Plain(item) => PlainNode(item)
    case IfTree(first, more, other) =>
      If([Branch(first.cond, RemoveBlankText(TrimAll(first.body)))] + TrimArms(more), TrimOther(other))
    case UnlessTree(cond, body, other) => Unless(cond, RemoveBlankText(TrimAll(body)), TrimOther(other))
    case ForTree(loop, body, other) => For(loop.varName, loop.source, RemoveBlankText(TrimAll(body)), TrimOther(other))
  }

  function TrimAll(ts: seq<Tree>): seq<Node>
    requires ValidAll(ts)
    decreases ts, 0
  {
    if ts == [] then [] else [Trim(ts[0])] + TrimAll(ts[1..])
  }

  function TrimArms(arms: seq<Arm>): seq<Branch>
    requires ValidArms(arms)
    decreases arms, 0
  {
    if arms == [] then [] else [TrimArm(arms[0])] + TrimArms(arms[1..])
  }

  function TrimArm(a: Arm): Branch
    requires ValidArm(a)
    decreases a, 1
  {
    Branch(a.cond, RemoveBlankText(TrimAll(a.body)))
  }

  function TrimOther(o: Other): seq<Node>
    requires ValidOther(o)
    decreases o, 1
  {
    if o.Else? then RemoveBlankText(TrimAll(o.body)) else []
  }

  /// Reading pieces one by one

  function FromResult<T, U>(r: Result<T>, f: T -> U): Option<U> {
    if r.Ok? then Some(f(r.value)) else None
  }

  function TagItem(q: Quoting, tag: Split): Option<Item> {
    match tag.name
    case "if" => FromResult(LiquidExpressions.ConditionOf(q, tag.arg), e => IfItem(e))
    case "elsif" => FromResult(LiquidExpressions.ConditionOf(q, tag.arg), e => ElsifItem(e))
    case "else" => Some(ElseItem)
    case "endif" => Some(EndIf)
    case "unless" => FromResult(LiquidExpressions.ConditionOf(q, tag.arg), e => UnlessItem(e))
    case "endunless" => Some(EndUnless)
    case "for" => FromResult(ForOf(q, tag.arg), l => ForItem(l))
    case "endfor" => Some(EndFor)
    case "assign" => FromResult(AssignOf(q, tag.arg), n => AssignItem(n))
    case "break" => Some(BreakItem)
    case "continue" => Some(ContinueItem)
    case _ => None
  }

  function ItemOf(q: Quoting, p: Piece): Option<Item> {
    match p
    case TextPiece(text) => Some(TextItem(text))
    case OutPiece(body) => FromResult(LiquidExpressions.OutputOf(q, body), o => OutItem(o))
    case TagPiece(body) => TagItem(q, SplitTag(body))
  }

  // The pieces, each read on its own, are these items.
  predicate Reads(q: Quoting, toks: seq<Piece>, items: seq<Item>) {
    |toks| == |items| && forall i :: 0 <= i < |toks| ==> ItemOf(q, toks[i]) == Some(items[i])
  }

  lemma ReadsConcat(q: Quoting, a: seq<Piece>, b: seq<Piece>, x: seq<Item>, y: seq<Item>)
    requires Reads(q, a, x) && Reads(q, b, y)
    ensures Reads(q, a + b, x + y)
  {
  }

  lemma ReadsSplit(q: Quoting, toks: seq<Piece>, x: seq<Item>, y: seq<Item>)
    requires Reads(q, toks, x + y)
    ensures Reads(q, toks[..|x|], x) && Reads(q, toks[|x|..], y) && toks == toks[..|x|] + toks[|x|..]
  {
    assert forall i :: 0 <= i < |x| ==> (x + y)[i] == x[i];
    assert forall i :: 0 <= i < |y| ==> (x + y)[|x| + i] == y[i];
  }

  lemma ReadsHead(q: Quoting, toks: seq<Piece>, item: Item, y: seq<Item>)
    requires Reads(q, toks, [item] + y)
    ensures toks != [] && ItemOf(q, toks[0]) == Some(item) && Reads(q, toks[1..], y)
  {
    hide ItemOf;
    assert ([item] + y)[0] == item;
    assert forall i :: 0 <= i < |y| ==> ([item] + y)[1 + i] == y[i];
  }

  // The tag names that end a body.
  const ENDS := {"elsif", "else", "endif", "endunless", "endfor"}

  predicate Named(p: Piece, name: string) {
    p.TagPiece? && SplitTag(p.body).name == name
  }

  lemma EndNames(q: Quoting, p: Piece)
    ensures ItemOf(q, p) == Some(EndIf) <==> Named(p, "endif")
    ensures ItemOf(q, p) == Some(EndUnless) <==> Named(p, "endunless")
    ensures ItemOf(q, p) == Some(EndFor) <==> Named(p, "endfor")
    ensures ItemOf(q, p) == Some(ElseItem) <==> Named(p, "else")
  {
    hide LiquidExpressions.ConditionOf, LiquidExpressions.OutputOf, ForOf, AssignOf, SplitTag;
  }

  lemma OpenNames(q: Quoting, p: Piece, cond: Expr, loop: Loop)
    ensures ItemOf(q, p) == Some(ElsifItem(cond)) <==>
      Named(p, "elsif") && LiquidExpressions.ConditionOf(q, SplitTag(p.body).arg) == LiquidScanner.Ok(cond)
    ensures ItemOf(q, p) == Some(IfItem(cond)) <==>
      Named(p, "if") && LiquidExpressions.ConditionOf(q, SplitTag(p.body).arg) == LiquidScanner.Ok(cond)
    ensures ItemOf(q, p) == Some(UnlessItem(cond)) <==>
      Named(p, "unless") && LiquidExpressions.ConditionOf(q, SplitTag(p.body).arg) == LiquidScanner.Ok(cond)
    ensures ItemOf(q, p) == Some(ForItem(loop)) <==>
      Named(p, "for") && ForOf(q, SplitTag(p.body).arg) == LiquidScanner.Ok(loop)
  {
    hide LiquidExpressions.ConditionOf, LiquidExpressions.OutputOf, ForOf, AssignOf, SplitTag;
  }

  /// Every well-nested template parses

  lemma FlatNonempty(t: Tree)
    ensures |Flat(t)| > 0
  {
    hide FlatAll, FlatArms, FlatOther;
  }

  // What a block stops at: the end, or a tag it was told to stop at.
  predicate Stopping(post: seq<Piece>, stops: set<string>) {
    post == [] || (post[0].TagPiece? && SplitTag(post[0].body).name in stops)
  }

  function StopName(post: seq<Piece>): string
    requires post == [] || post[0].TagPiece?
  {
    if post == [] then "" else SplitTag(post[0].body).name
  }

  lemma {:induction false} BlockComplete(q: Quoting, ts: seq<Tree>, a: seq<Piece>, post: seq<Piece>, stops: set<string>)
    requires ValidAll(ts) && Reads(q, a, FlatAll(ts)) && stops <= ENDS && Stopping(post, stops)
    ensures ReadBlock(q, a + post, stops) == Block(TrimAll(ts), StopName(post), post)
    decreases |a|, 2
  {
    if ts == [] {
      hide SplitTag, ReadTag, ItemOf, LiquidExpressions.OutputOf;
      assert a + post == post;
    } else {
      hide Valid, Flat, Trim, SplitTag, ReadBlock, Reads;
      FlatNonempty(ts[0]);
      ReadsSplit(q, a, Flat(ts[0]), FlatAll(ts[1..]));
      ReadsLength(q, a, Flat(ts[0]) + FlatAll(ts[1..]));
      var b, c := a[..|Flat(ts[0])|], a[|Flat(ts[0])|..];
      TreeComplete(q, ts[0], b, c + post, stops);
      BlockComplete(q, ts[1..], c, post, stops);
      Associates(a, b, c, post);
    }
  }

  lemma Associates(a: seq<Piece>, b: seq<Piece>, c: seq<Piece>, post: seq<Piece>)
    requires a == b + c
    ensures a + post == b + (c + post)
  {
  }

  lemma {:induction false} TreeComplete(q: Quoting, t: Tree, a: seq<Piece>, rest: seq<Piece>, stops: set<string>)
    requires Valid(t) && Reads(q, a, Flat(t)) && stops <= ENDS
    ensures ReadBlock(q, a + rest, stops) == Cons(Trim(t), ReadBlock(q, rest, stops))
    decreases |a|, 1
  {
    hide *;
    match t
    case Plain(_) => PlainTree(q, t, a, rest, stops);
    case IfTree(_, _, _) =>
      IfComplete(q, t, a, rest);
      BlockTag(q, a, rest, stops, t);
    case UnlessTree(_, _, _) =>
      UnlessComplete(q, t, a, rest);
      BlockTag(q, a, rest, stops, t);
    case ForTree(_, _, _) =>
      ForComplete(q, t, a, rest);
      BlockTag(q, a, rest, stops, t);
  }

  lemma PlainTree(q: Quoting, t: Tree, a: seq<Piece>, rest: seq<Piece>, stops: set<string>)
    requires Valid(t) && t.Plain? && Reads(q, a, Flat(t)) && stops <= ENDS
    ensures ReadBlock(q, a + rest, stops) == Cons(Trim(t), ReadBlock(q, rest, stops))
  {
    hide ReadBlock, ItemOf;
    assert a == [a[0]];
    PlainComplete(q, t.item, a[0], rest, stops);
  }

  // The tag a[0] opens t, which ends just before rest.
  ghost predicate Opens(q: Quoting, a: seq<Piece>, rest: seq<Piece>, t: Tree)
    requires Valid(t)
  {
    && a != [] && a[0].TagPiece? && SplitTag(a[0].body).name !in ENDS
    && ReadTag(q, SplitTag(a[0].body), a[1..] + rest) == LiquidParser.Tag(Trim(t), rest)
  }

  lemma BlockTag(q: Quoting, a: seq<Piece>, rest: seq<Piece>, stops: set<string>, t: Tree)
    requires Valid(t) && Opens(q, a, rest, t) && stops <= ENDS
    ensures ReadBlock(q, a + rest, stops) == Cons(Trim(t), ReadBlock(q, rest, stops))
  {
    hide ReadTag, SplitTag, Trim, Valid;
    assert (a + rest)[0] == a[0] && (a + rest)[1..] == a[1..] + rest;
  }

  lemma PlainComplete(q: Quoting, item: Item, p: Piece, rest: seq<Piece>, stops: set<string>)
    requires PlainItem(item) && ItemOf(q, p) == Some(item) && stops <= ENDS
    ensures ReadBlock(q, [p] + rest, stops) == Cons(PlainNode(item), ReadBlock(q, rest, stops))
  {
    hide SplitTag, AssignOf, ForOf, LiquidExpressions.OutputOf, LiquidExpressions.ConditionOf;
    assert ([p] + rest)[0] == p && ([p] + rest)[1..] == rest;
    if p.TagPiece? {
      var tag := SplitTag(p.body);
      assert tag.name in ["assign", "break", "continue"];
      assert tag.name !in ENDS;
      assert ReadTag(q, tag, rest) == LiquidParser.Tag(PlainNode(item), rest);
    }
  }

  lemma {:induction false} IfComplete(q: Quoting, t: Tree, a: seq<Piece>, rest: seq<Piece>)
    requires Valid(t) && t.IfTree? && Reads(q, a, Flat(t))
    ensures Opens(q, a, rest, t)
    decreases |a|, 0
  {
    hide ReadBranches, FlatAll, FlatArms, FlatOther, TrimAll, TrimArms, TrimOther, ValidAll, ValidArms, ValidOther;
    hide RemoveBlankText;
    hide ItemOf, SplitTag, LiquidExpressions.ConditionOf;
    var items := FlatAll(t.first.body) + FlatArms(t.more) + FlatOther(t.other) + [EndIf];
    assert Flat(t) == [IfItem(t.first.cond)] + items;
    ReadsSplit(q, a, [IfItem(t.first.cond)], items);
    OpenNames(q, a[0], t.first.cond, Loop("", t.first.cond));
    BranchesComplete(q, t.first, t.more, t.other, a[1..], rest);
  }

  lemma TailAssoc(x: seq<Item>, more: seq<Arm>, other: Other)
    ensures x + FlatArms(more) + FlatOther(other) + [EndIf] == x + (FlatArms(more) + FlatOther(other) + [EndIf])
  {
    hide FlatArms, FlatOther;
  }

  lemma TailElsif(more: seq<Arm>, other: Other)
    requires more != []
    ensures FlatArms(more) + FlatOther(other) + [EndIf]
      == [ElsifItem(more[0].cond)] + (FlatAll(more[0].body) + FlatArms(more[1..]) + FlatOther(other) + [EndIf])
  {
    hide FlatAll, FlatOther;
  }

  lemma TailElse(body: seq<Tree>)
    ensures FlatArms([]) + FlatOther(Else(body)) + [EndIf] == [ElseItem] + (FlatAll(body) + [EndIf])
  {
    hide FlatAll;
  }

  lemma TailEnd()
    ensures FlatArms([]) + FlatOther(Absent) + [EndIf] == [EndIf]
  {
  }

  lemma {:induction false} BranchesComplete(q: Quoting, first: Arm, more: seq<Arm>, other: Other, a: seq<Piece>,
      rest: seq<Piece>)
    requires ValidAll(first.body) && ValidArms(more) && ValidOther(other)
    requires Reads(q, a, FlatAll(first.body) + FlatArms(more) + FlatOther(other) + [EndIf])
    ensures ReadBranches(q, first.cond, a + rest)
      == Ifs([Branch(first.cond, RemoveBlankText(TrimAll(first.body)))] + TrimArms(more), TrimOther(other), rest)
    decreases |a|, 3
  {
    hide ReadBlock, ReadBranches, ReadElse, FlatAll, TrimAll, ValidAll, RemoveBlankText, ItemOf, Reads, SplitTag;
    hide LiquidExpressions.ConditionOf;
    hide FlatArms, FlatOther;
    var x, y := FlatAll(first.body), FlatArms(more) + FlatOther(other) + [EndIf];
    TailAssoc(x, more, other);
    ReadsSplit(q, a, x, y);
    ReadsLength(q, a, x + y);
    var b, c := a[..|x|], a[|x|..];
    assert a + rest == b + (c + rest);
    if more != [] {
      var next := more[0];
      var z := FlatAll(next.body) + FlatArms(more[1..]) + FlatOther(other) + [EndIf];
      TailElsif(more, other);
      ReadsHead(q, c, ElsifItem(next.cond), z);
      EndNames(q, c[0]);
      OpenNames(q, c[0], next.cond, Loop("", next.cond));
      assert Stopping(c + rest, IF_STOPS);
      BlockComplete(q, first.body, b, c + rest, IF_STOPS);
      BranchesComplete(q, next, more[1..], other, c[1..], rest);
      BranchesElsif(q, first.cond, a + rest, c[0], c[1..] + rest, next.cond);
    } else {
      LastBranchComplete(q, first, other, a + rest, b, c, rest);
    }
  }

  // The last branch of an if, with the else body and the closing tag.
  lemma {:induction false} LastBranchComplete(q: Quoting, first: Arm, other: Other, toks: seq<Piece>, b: seq<Piece>,
      c: seq<Piece>, rest: seq<Piece>)
    requires ValidAll(first.body) && ValidOther(other)
    requires Reads(q, b, FlatAll(first.body)) && Reads(q, c, FlatArms([]) + FlatOther(other) + [EndIf])
    requires toks == b + (c + rest)
    ensures ReadBranches(q, first.cond, toks)
      == Ifs([Branch(first.cond, RemoveBlankText(TrimAll(first.body)))] + TrimArms([]), TrimOther(other), rest)
    decreases |b| + |c|, 2, 1
  {
    hide ReadBlock, ReadBranches, ReadElse, FlatAll, TrimAll, ValidAll, RemoveBlankText, ItemOf, Reads, SplitTag;
    hide LiquidExpressions.ConditionOf, FlatArms, FlatOther;
    ReadsLength(q, c, FlatArms([]) + FlatOther(other) + [EndIf]);
    if other.Else? {
      var z := FlatAll(other.body) + [EndIf];
      TailElse(other.body);
      ReadsHead(q, c, ElseItem, z);
      EndNames(q, c[0]);
      BlockComplete(q, first.body, b, c + rest, IF_STOPS);
      ElseComplete(q, other.body, c[1..], rest, EndIf, "endif");
    } else {
      TailEnd();
      assert FlatArms([]) + FlatOther(other) + [EndIf] == [EndIf] + [];
      ReadsHead(q, c, EndIf, []);
      ReadsLength(q, c[1..], []);
      EndNames(q, c[0]);
      BlockComplete(q, first.body, b, c + rest, IF_STOPS);
      assert c[1..] + rest == rest;
    }
    BranchesLast(q, first.cond, toks, c[0], c[1..] + rest);
  }

  lemma ReadsLength(q: Quoting, a: seq<Piece>, x: seq<Item>)
    requires Reads(q, a, x)
    ensures |a| == |x|
  {
  }

  lemma BranchesElsif(q: Quoting, cond: Expr, toks: seq<Piece>, p: Piece, after: seq<Piece>, next: Expr)
    requires var r := ReadBlock(q, toks, IF_STOPS); r.Block? && r.rest[..] == [p] + after && r.stop == "elsif"
    requires LiquidExpressions.ConditionOf(q, SplitTag(p.body).arg) == LiquidScanner.Ok(next)
    ensures ReadBranches(q, cond, toks)
      == Also(Branch(cond, RemoveBlankText(ReadBlock(q, toks, IF_STOPS).nodes)), ReadBranches(q, next, after))
  {
    hide ReadBlock, RemoveBlankText, SplitTag, LiquidExpressions.ConditionOf;
    assert ReadBlock(q, toks, IF_STOPS).rest[1..] == after;
  }

  lemma BranchesLast(q: Quoting, cond: Expr, toks: seq<Piece>, p: Piece, after: seq<Piece>)
    requires var r := ReadBlock(q, toks, IF_STOPS);
      r.Block? && r.rest[..] == [p] + after && r.stop != "" && r.stop != "elsif"
    requires ReadBlock(q, toks, IF_STOPS).stop == "else" ==> ReadElse(q, after, "endif").Bodies?
    ensures var br := Branch(cond, RemoveBlankText(ReadBlock(q, toks, IF_STOPS).nodes));
      ReadBranches(q, cond, toks) ==
        if ReadBlock(q, toks, IF_STOPS).stop == "endif" then Ifs([br], [], after)
        else Ifs([br], ReadElse(q, after, "endif").elseBody, ReadElse(q, after, "endif").rest)
  {
    hide ReadBlock, ReadElse, RemoveBlankText, SplitTag;
    assert ReadBlock(q, toks, IF_STOPS).rest[1..] == after;
  }

  // The item a closing tag reads as.
  predicate Closes(end: Item, closer: string) {
    (end, closer) in {(EndIf, "endif"), (EndUnless, "endunless"), (EndFor, "endfor")}
  }

  lemma {:induction false} ElseComplete(q: Quoting, body: seq<Tree>, a: seq<Piece>, rest: seq<Piece>, end: Item,
      closer: string)
    requires ValidAll(body) && Reads(q, a, FlatAll(body) + [end]) && Closes(end, closer)
    ensures ReadElse(q, a + rest, closer) == Bodies([], RemoveBlankText(TrimAll(body)), rest)
    decreases |a|, 0
  {
    hide ReadBlock, FlatAll, TrimAll, ValidAll, RemoveBlankText, ItemOf, SplitTag;
    ReadsSplit(q, a, FlatAll(body), [end]);
    var b, c := a[..|FlatAll(body)|], a[|FlatAll(body)|..];
    EndNames(q, c[0]);
    var post := c + rest;
    assert a + rest == b + post && post[0] == c[0] && post[1..] == rest;
    BlockComplete(q, body, b, post, {closer});
  }

  lemma {:induction false} BodiesComplete(q: Quoting, body: seq<Tree>, other: Other, a: seq<Piece>, rest: seq<Piece>,
      stops: set<string>, end: Item, closer: string)
    requires ValidAll(body) && ValidOther(other) && Closes(end, closer) && stops == {"else", closer}
    requires Reads(q, a, FlatAll(body) + FlatOther(other) + [end])
    ensures ReadBodies(q, a + rest, stops, closer) == Bodies(RemoveBlankText(TrimAll(body)), TrimOther(other), rest)
    decreases |a|, 3
  {
    hide ReadBlock, ReadElse, FlatAll, TrimAll, ValidAll, RemoveBlankText, ItemOf, Reads, SplitTag;
    var x, y := FlatAll(body), FlatOther(other) + [end];
    assert FlatAll(body) + FlatOther(other) + [end] == x + y;
    ReadsSplit(q, a, x, y);
    ReadsLength(q, a, x + y);
    var b, c := a[..|x|], a[|x|..];
    assert a + rest == b + (c + rest);
    if other.Else? {
      var z := FlatAll(other.body) + [end];
      assert y == [ElseItem] + z;
      ReadsHead(q, c, ElseItem, z);
      EndNames(q, c[0]);
      BlockComplete(q, body, b, c + rest, stops);
      ElseComplete(q, other.body, c[1..], rest, end, closer);
    } else {
      assert y == [end] + [];
      ReadsHead(q, c, end, []);
      ReadsLength(q, c[1..], []);
      EndNames(q, c[0]);
      BlockComplete(q, body, b, c + rest, stops);
      assert c[1..] + rest == rest;
    }
    assert (c + rest)[1..] == c[1..] + rest;
  }

  lemma {:induction false} UnlessComplete(q: Quoting, t: Tree, a: seq<Piece>, rest: seq<Piece>)
    requires Valid(t) && t.UnlessTree? && Reads(q, a, Flat(t))
    ensures Opens(q, a, rest, t)
    decreases |a|, 0
  {
    hide ReadBodies, FlatAll, FlatOther, TrimAll, TrimOther, ValidAll, ValidOther, RemoveBlankText, ItemOf, SplitTag;
    hide LiquidExpressions.ConditionOf;
    var items := FlatAll(t.body) + FlatOther(t.other) + [EndUnless];
    assert Flat(t) == [UnlessItem(t.cond)] + items;
    ReadsSplit(q, a, [UnlessItem(t.cond)], items);
    OpenNames(q, a[0], t.cond, Loop("", t.cond));
    BodiesComplete(q, t.body, t.other, a[1..], rest, UNLESS_STOPS, EndUnless, "endunless");
  }

  lemma {:induction false} ForComplete(q: Quoting, t: Tree, a: seq<Piece>, rest: seq<Piece>)
    requires Valid(t) && t.ForTree? && Reads(q, a, Flat(t))
    ensures Opens(q, a, rest, t)
    decreases |a|, 0
  {
    hide ReadBodies, FlatAll, FlatOther, TrimAll, TrimOther, ValidAll, ValidOther, RemoveBlankText, ItemOf, SplitTag;
    hide ForOf;
    var items := FlatAll(t.body) + FlatOther(t.other) + [EndFor];
    assert Flat(t) == [ForItem(t.loop)] + items;
    ReadsSplit(q, a, [ForItem(t.loop)], items);
    OpenNames(q, a[0], t.loop.source, t.loop);
    BodiesComplete(q, t.body, t.other, a[1..], rest, FOR_STOPS, EndFor, "endfor");
  }

  /// Nothing else does

  lemma {:induction false} BlockSound(q: Quoting, toks: seq<Piece>, stops: set<string>)
    returns (ts: seq<Tree>, a: seq<Piece>)
    requires "" !in stops && ReadBlock(q, toks, stops).Block?
    ensures ValidAll(ts) && Reads(q, a, FlatAll(ts))
    ensures var r := ReadBlock(q, toks, stops); toks == a + r.rest && r.nodes == TrimAll(ts)
    decreases |toks|, 0, 1
  {
    if toks == [] || (toks[0].TagPiece? && SplitTag(toks[0].body).name in stops) {
      hide ReadTag, SplitTag, LiquidExpressions.OutputOf;
      ts, a := [], [];
      assert [] + toks == toks;
    } else {
      hide ReadBlock, ReadTag, SplitTag, Flat, FlatAll, Trim, TrimAll, Valid, ValidAll, Reads;
      var t, b, rest := FirstSound(q, toks, stops);
      var us, c := BlockSound(q, rest, stops);
      ts, a := [t] + us, b + c;
      Grow(q, t, us, b, c, rest, ReadBlock(q, rest, stops).rest);
    }
  }

  // The first tree of a block, what it was read from, and what is left.
  lemma {:induction false} FirstSound(q: Quoting, toks: seq<Piece>, stops: set<string>)
    returns (t: Tree, b: seq<Piece>, rest: seq<Piece>)
    requires "" !in stops && ReadBlock(q, toks, stops).Block?
    requires toks != [] && (toks[0].TagPiece? ==> SplitTag(toks[0].body).name !in stops)
    ensures Valid(t) && Reads(q, b, Flat(t)) && toks == b + rest && |rest| < |toks|
    ensures ReadBlock(q, rest, stops).Block?
    ensures ReadBlock(q, toks, stops) == Cons(Trim(t), ReadBlock(q, rest, stops))
    decreases |toks|, 0, 0
  {
    hide ReadTag, SplitTag, Flat, Trim, Valid, Reads, LiquidExpressions.OutputOf;
    if toks[0].TagPiece? {
      t, b := TagSound(q, toks[0], toks[1..]);
      rest := ReadTag(q, SplitTag(toks[0].body), toks[1..]).rest;
      b := [toks[0]] + b;
    } else {
      assert toks == [toks[0]] + toks[1..];
      t := TextSound(q, toks[0], toks[1..], stops);
      b, rest := [toks[0]], toks[1..];
    }
  }

  lemma Grow(q: Quoting, t: Tree, us: seq<Tree>, b: seq<Piece>, c: seq<Piece>, rest: seq<Piece>, last: seq<Piece>)
    requires Valid(t) && ValidAll(us) && Reads(q, b, Flat(t)) && Reads(q, c, FlatAll(us)) && rest == c + last
    ensures ValidAll([t] + us) && Reads(q, b + c, FlatAll([t] + us)) && TrimAll([t] + us) == [Trim(t)] + TrimAll(us)
    ensures b + rest == b + c + last
  {
    hide Valid, Flat, Trim, ItemOf, Reads;
    ReadsConcat(q, b, c, Flat(t), FlatAll(us));
    assert ([t] + us)[1..] == us;
  }

  lemma TextSound(q: Quoting, p: Piece, rest: seq<Piece>, stops: set<string>) returns (t: Tree)
    requires "" !in stops && !p.TagPiece? && ReadBlock(q, [p] + rest, stops).Block?
    ensures Valid(t) && Reads(q, [p], Flat(t))
    ensures ReadBlock(q, [p] + rest, stops) == Cons(Trim(t), ReadBlock(q, rest, stops))
  {
    hide LiquidExpressions.OutputOf, SplitTag;
    assert ([p] + rest)[1..] == rest;
    t := Plain(ItemOf(q, p).value);
  }

  // The tag p followed by a is t, and so it is parsed.
  ghost predicate Stands(q: Quoting, p: Piece, toks: seq<Piece>, t: Tree, a: seq<Piece>)
    requires p.TagPiece? && ReadTag(q, SplitTag(p.body), toks).Tag?
  {
    var r := ReadTag(q, SplitTag(p.body), toks);
    Valid(t) && Reads(q, [p] + a, Flat(t)) && toks == a + r.rest && r.node == Trim(t)
  }

  lemma {:induction false} TagSound(q: Quoting, p: Piece, toks: seq<Piece>) returns (t: Tree, a: seq<Piece>)
    requires p.TagPiece? && ReadTag(q, SplitTag(p.body), toks).Tag?
    ensures Stands(q, p, toks, t, a)
    decreases |toks|, 4
  {
    hide ReadTag, SplitTag, Flat, Trim, Valid, Reads, ItemOf, Stands;
    var tag := SplitTag(p.body);
    if tag.name == "if" {
      t, a := IfSound(q, p, toks);
    } else if tag.name == "unless" {
      t, a := UnlessSound(q, p, toks);
    } else if tag.name == "for" {
      t, a := ForSound(q, p, toks);
    } else {
      a := [];
      t := SimpleSound(q, p, toks);
    }
  }

  lemma {:induction false} IfSound(q: Quoting, p: Piece, toks: seq<Piece>) returns (t: Tree, a: seq<Piece>)
    requires Named(p, "if") && ReadTag(q, SplitTag(p.body), toks).Tag?
    ensures Stands(q, p, toks, t, a)
    decreases |toks|, 3
  {
    hide ReadBranches, ReadBodies, FlatAll, FlatArms, FlatOther, TrimAll, TrimArms, TrimOther, ValidAll, ValidArms;
    hide ValidOther, RemoveBlankText;
    hide SplitTag, LiquidExpressions.ConditionOf, ForOf, AssignOf, ItemOf, Reads;
    var cond := LiquidExpressions.ConditionOf(q, SplitTag(p.body).arg).value;
    var first, more, other, b := BranchesSound(q, cond, toks);
    OpenNames(q, p, cond, Loop("", cond));
    t, a := IfTree(first, more, other), b;
    var items := FlatAll(first.body) + FlatArms(more) + FlatOther(other) + [EndIf];
    assert Flat(t) == [IfItem(cond)] + items;
    ReadsOne(q, p, IfItem(cond));
    ReadsConcat(q, [p], a, [IfItem(cond)], items);
  }

  lemma {:induction false} UnlessSound(q: Quoting, p: Piece, toks: seq<Piece>) returns (t: Tree, a: seq<Piece>)
    requires Named(p, "unless") && ReadTag(q, SplitTag(p.body), toks).Tag?
    ensures Stands(q, p, toks, t, a)
    decreases |toks|, 3
  {
    hide ReadBranches, ReadBodies, FlatAll, FlatArms, FlatOther, TrimAll, TrimArms, TrimOther, ValidAll, ValidArms;
    hide ValidOther, RemoveBlankText;
    hide SplitTag, LiquidExpressions.ConditionOf, ForOf, AssignOf, ItemOf, Reads;
    var cond := LiquidExpressions.ConditionOf(q, SplitTag(p.body).arg).value;
    var body, other, b := BodiesSound(q, toks, UNLESS_STOPS, EndUnless, "endunless");
    OpenNames(q, p, cond, Loop("", cond));
    t, a := UnlessTree(cond, body, other), b;
    var items := FlatAll(body) + FlatOther(other) + [EndUnless];
    assert Flat(t) == [UnlessItem(cond)] + items;
    ReadsOne(q, p, UnlessItem(cond));
    ReadsConcat(q, [p], a, [UnlessItem(cond)], items);
  }

  lemma {:induction false} ForSound(q: Quoting, p: Piece, toks: seq<Piece>) returns (t: Tree, a: seq<Piece>)
    requires Named(p, "for") && ReadTag(q, SplitTag(p.body), toks).Tag?
    ensures Stands(q, p, toks, t, a)
    decreases |toks|, 3
  {
    hide ReadBranches, ReadBodies, FlatAll, FlatArms, FlatOther, TrimAll, TrimArms, TrimOther, ValidAll, ValidArms;
    hide ValidOther, RemoveBlankText;
    hide SplitTag, LiquidExpressions.ConditionOf, ForOf, AssignOf, ItemOf, Reads;
    var loop := ForOf(q, SplitTag(p.body).arg).value;
    var body, other, b := BodiesSound(q, toks, FOR_STOPS, EndFor, "endfor");
    OpenNames(q, p, loop.source, loop);
    t, a := ForTree(loop, body, other), b;
    var items := FlatAll(body) + FlatOther(other) + [EndFor];
    assert Flat(t) == [ForItem(loop)] + items;
    ReadsOne(q, p, ForItem(loop));
    ReadsConcat(q, [p], a, [ForItem(loop)], items);
  }

  lemma ReadsOne(q: Quoting, p: Piece, item: Item)
    requires ItemOf(q, p) == Some(item)
    ensures Reads(q, [p], [item])
  {
  }

  lemma SimpleSound(q: Quoting, p: Piece, toks: seq<Piece>) returns (t: Tree)
    requires p.TagPiece? && SplitTag(p.body).name !in ["if", "unless", "for"] && ReadTag(q, SplitTag(p.body), toks).Tag?
    ensures Stands(q, p, toks, t, [])
  {
    hide SplitTag, AssignOf, ForOf, LiquidExpressions.ConditionOf, Reads;
    AssignIsAssign(q, SplitTag(p.body).arg);
    var item := ItemOf(q, p).value;
    t := Plain(item);
    ReadsOne(q, p, item);
    assert [p] + [] == [p] && [] + toks == toks;
  }

  lemma AssignIsAssign(q: Quoting, arg: string)
    ensures AssignOf(q, arg).Ok? ==> AssignOf(q, arg).value.Assign?
  {
  }

  lemma {:induction false} BranchesSound(q: Quoting, cond: Expr, toks: seq<Piece>)
    returns (first: Arm, more: seq<Arm>, other: Other, a: seq<Piece>)
    requires ReadBranches(q, cond, toks).Ifs?
    ensures first.cond == cond && ValidAll(first.body) && ValidArms(more) && ValidOther(other)
    ensures Reads(q, a, FlatAll(first.body) + FlatArms(more) + FlatOther(other) + [EndIf])
    ensures var r := ReadBranches(q, cond, toks);
      && toks == a + r.rest && r.elseBody == TrimOther(other)
      && r.branches == [Branch(cond, RemoveBlankText(TrimAll(first.body)))] + TrimArms(more)
    decreases |toks|, 2
  {
    hide ReadBlock, ReadElse, FlatAll, TrimAll, ValidAll, RemoveBlankText, ItemOf, Reads, SplitTag;
    hide LiquidExpressions.ConditionOf;
    hide FlatArms, FlatOther;
    var body, b := BlockSound(q, toks, IF_STOPS);
    var block := ReadBlock(q, toks, IF_STOPS);
    first := Arm(cond, body);
    var p, after := block.rest[0], block.rest[1..];
    assert block.rest == [p] + after;
    EndNames(q, p);
    if block.stop == "elsif" {
      var next := LiquidExpressions.ConditionOf(q, SplitTag(p.body).arg).value;
      OpenNames(q, p, next, Loop("", next));
      BranchesElsif(q, cond, toks, p, after, next);
      hide ReadBranches;
      var arm, arms, o, c := BranchesSound(q, next, after);
      more, other, a := [arm] + arms, o, b + ([p] + c);
      assert more[1..] == arms;
      var z := FlatAll(arm.body) + FlatArms(arms) + FlatOther(o) + [EndIf];
      ReadsThree(q, b, p, c, FlatAll(body), ElsifItem(next), z);
      TailElsif(more, other);
    } else {
      more := [];
      if block.stop == "else" {
        var e, c := ElseSound(q, after, EndIf, "endif");
        other, a := Else(e), b + ([p] + c);
        ReadsThree(q, b, p, c, FlatAll(body), ElseItem, FlatAll(e) + [EndIf]);
        TailElse(e);
      } else {
        other, a := Absent, b + [p];
        ReadsOne(q, p, EndIf);
        ReadsConcat(q, b, [p], FlatAll(body), [EndIf]);
        TailEnd();
      }
      BranchesLast(q, cond, toks, p, after);
      hide ReadBranches;
    }
    TailAssoc(FlatAll(body), more, other);
  }

  lemma ReadsThree(q: Quoting, b: seq<Piece>, p: Piece, c: seq<Piece>, x: seq<Item>, item: Item, z: seq<Item>)
    requires Reads(q, b, x) && ItemOf(q, p) == Some(item) && Reads(q, c, z)
    ensures Reads(q, b + ([p] + c), x + ([item] + z))
  {
    hide ItemOf, Reads;
    ReadsOne(q, p, item);
    ReadsConcat(q, [p], c, [item], z);
    ReadsConcat(q, b, [p] + c, x, [item] + z);
  }

  lemma {:induction false} ElseSound(q: Quoting, toks: seq<Piece>, end: Item, closer: string)
    returns (body: seq<Tree>, a: seq<Piece>)
    requires Closes(end, closer) && ReadElse(q, toks, closer).Bodies?
    ensures ValidAll(body) && Reads(q, a, FlatAll(body) + [end])
    ensures var r := ReadElse(q, toks, closer); toks == a + r.rest && r.elseBody == RemoveBlankText(TrimAll(body))
    decreases |toks|, 1
  {
    hide ReadBlock, FlatAll, TrimAll, ValidAll, RemoveBlankText, ItemOf, Reads, SplitTag;
    var ts, b := BlockSound(q, toks, {closer});
    var block := ReadBlock(q, toks, {closer});
    var p := block.rest[0];
    EndNames(q, p);
    body, a := ts, b + [p];
    ReadsOne(q, p, end);
    ReadsConcat(q, b, [p], FlatAll(ts), [end]);
    assert block.rest == [p] + block.rest[1..];
  }

  lemma {:induction false} BodiesSound(q: Quoting, toks: seq<Piece>, stops: set<string>, end: Item, closer: string)
    returns (body: seq<Tree>, other: Other, a: seq<Piece>)
    requires Closes(end, closer) && stops == {"else", closer} && ReadBodies(q, toks, stops, closer).Bodies?
    ensures ValidAll(body) && ValidOther(other) && Reads(q, a, FlatAll(body) + FlatOther(other) + [end])
    ensures var r := ReadBodies(q, toks, stops, closer);
      toks == a + r.rest && r.body == RemoveBlankText(TrimAll(body)) && r.elseBody == TrimOther(other)
    decreases |toks|, 2
  {
    hide ReadBlock, ReadElse, ReadBodies, FlatAll, FlatOther, TrimAll, ValidAll, RemoveBlankText, ItemOf, Reads;
    hide SplitTag;
    BodiesFrom(q, toks, stops, closer);
    var ts, b := BlockSound(q, toks, stops);
    var block := ReadBlock(q, toks, stops);
    var p, after := block.rest[0], block.rest[1..];
    assert block.rest == [p] + after;
    EndNames(q, p);
    body := ts;
    if block.stop == "else" {
      var e, c := ElseSound(q, after, end, closer);
      other, a := Else(e), b + ([p] + c);
      ReadsThree(q, b, p, c, FlatAll(body), ElseItem, FlatAll(e) + [end]);
      WithElse(FlatAll(body), e, end);
    } else {
      other, a := Absent, b + [p];
      ReadsOne(q, p, end);
      ReadsConcat(q, b, [p], FlatAll(body), [end]);
      WithoutElse(FlatAll(body), end);
    }
  }

  // What a body with its else body was read from.
  lemma BodiesFrom(q: Quoting, toks: seq<Piece>, stops: set<string>, closer: string)
    requires stops == {"else", closer} && closer != "" && closer != "else"
    requires ReadBodies(q, toks, stops, closer).Bodies?
    ensures var block, r := ReadBlock(q, toks, stops), ReadBodies(q, toks, stops, closer);
      && block.Block? && block.stop in stops && block.rest != [] && r.body == RemoveBlankText(block.nodes)
      && if block.stop == closer then r.elseBody == [] && r.rest == block.rest[1..]
         else var e := ReadElse(q, block.rest[1..], closer); e.Bodies? && r.elseBody == e.elseBody && r.rest == e.rest
  {
    hide ReadBlock, ReadElse, RemoveBlankText;
  }

  lemma WithoutElse(x: seq<Item>, end: Item)
    ensures x + [end] == x + FlatOther(Absent) + [end]
  {
  }

  lemma WithElse(x: seq<Item>, e: seq<Tree>, end: Item)
    ensures x + ([ElseItem] + (FlatAll(e) + [end])) == x + FlatOther(Else(e)) + [end]
  {
    hide FlatAll;
  }

  /// Exactly the well-nested templates

  ghost predicate Nests(q: Quoting, toks: seq<Piece>, nodes: seq<Node>) {
    exists ts: seq<Tree> :: ValidAll(ts) && Reads(q, toks, FlatAll(ts)) && TrimAll(ts) == nodes
  }

  lemma TemplateExact(q: Quoting, toks: seq<Piece>, nodes: seq<Node>)
    ensures ReadTemplate(q, toks) == LiquidScanner.Ok(nodes) <==> Nests(q, toks, nodes)
  {
    hide ReadBlock, ValidAll, FlatAll, TrimAll, Reads;
    if ReadTemplate(q, toks) == LiquidScanner.Ok(nodes) {
      var ts, a := BlockSound(q, toks, {});
      assert a + [] == a;
      assert toks == a;
    }
    if Nests(q, toks, nodes) {
      var ts: seq<Tree> :| ValidAll(ts) && Reads(q, toks, FlatAll(ts)) && TrimAll(ts) == nodes;
      BlockComplete(q, ts, toks, [], {});
      assert toks + [] == toks;
    }
  }

  /// Blank bodies

  // Dropping the text of a blank body changes nothing else: the same
  // assignments, the same error, and no output.
  lemma {:induction false} BlankBodyQuiet(lib: LiquidValues.Library, body: seq<Node>, globals: LiquidSemantics.Vars,
      locals: seq<LiquidSemantics.Vars>)
    requires AllBlank(body)
    ensures LiquidSemantics.RenderNodes(lib, RemoveBlankText(body), globals, locals)
      == LiquidSemantics.RenderNodes(lib, body, globals, locals).(text := "")
  {
    if body != [] {
      assert AllBlank(body[1..]);
      var a := LiquidSemantics.RenderNode(lib, body[0], globals, locals);
      BlankBodyQuiet(lib, body[1..], a.globals, locals);
      var out := WithoutText(body[1..]);
      hide LiquidSemantics.EvalOutput;
      if body[0].Assign? {
        assert ([body[0]] + out)[1..] == out && ([body[0]] + out)[0] == body[0];
        assert WithoutText(body) == [body[0]] + out;
      } else {
        assert WithoutText(body) == [] + out == out;
      }
    }
  }
}
