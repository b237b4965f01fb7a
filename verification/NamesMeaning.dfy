/** Which names the analysis reports: where they stand in the template (internal/liquid/lint.go). */
module NamesMeaning {
  import opened LiquidSyntax
  import opened LiquidNames
  import SortedStrings

  /// Where a node stands

  // n is one of the nodes, or in a body of one, at any depth.
  ghost predicate Among(n: Node, nodes: seq<Node>)
    decreases nodes, 0
  {
    exists i :: 0 <= i < |nodes| && (nodes[i] == n || InBodies(n, nodes[i]))
  }

  ghost predicate InBodies(n: Node, m: Node)
    decreases m, 1
  {
    match m
    case If(branches, elseBody) => (exists i :: 0 <= i < |branches| && Among(n, branches[i].body)) || Among(n, elseBody)
    case Unless(_, body, elseBody) => Among(n, body) || Among(n, elseBody)
    case For(_, _, body, elseBody) => Among(n, body) || Among(n, elseBody)
    case _ => false
  }

  /// Names bound

  predicate BindsName(n: Node, x: string) {
    (n.Assign? && n.target == x) || (n.For? && n.varName == x)
  }

  // A name is bound when some assignment or loop has it, wherever it stands.
  lemma {:induction false} BoundMeans(nodes: seq<Node>, x: string)
    ensures x in BoundNodes(nodes) <==> exists n :: Among(n, nodes) && BindsName(n, x)
    decreases nodes, 0
  {
    hide BoundNode, InBodies;
    if nodes != [] {
      NodeBoundMeans(nodes[0], x);
      BoundMeans(nodes[1..], x);
      AmongSplit(nodes);
    }
  }

  lemma AmongSplit(nodes: seq<Node>)
    requires nodes != []
    ensures forall n :: Among(n, nodes) <==> n == nodes[0] || InBodies(n, nodes[0]) || Among(n, nodes[1..])
  {
    hide InBodies;
    forall n ensures Among(n, nodes) <==> n == nodes[0] || InBodies(n, nodes[0]) || Among(n, nodes[1..]) {
      if i :| 0 <= i < |nodes| && (nodes[i] == n || InBodies(n, nodes[i])) {
        if i > 0 { assert nodes[1..][i - 1] == nodes[i]; }
      }
      if i :| 0 <= i < |nodes[1..]| && (nodes[1..][i] == n || InBodies(n, nodes[1..][i])) {
        assert nodes[i + 1] == nodes[1..][i];
      }
    }
  }

  lemma {:induction false} NodeBoundMeans(m: Node, x: string)
    ensures x in BoundNode(m) <==> BindsName(m, x) || exists n :: InBodies(n, m) && BindsName(n, x)
    decreases m, 2
  {
    hide BoundNodes, Among, BoundBranches;
    match m
    case If(branches, elseBody) =>
      BranchesBoundMeans(branches, x);
      BoundMeans(elseBody, x);
    case Unless(_, body, elseBody) =>
      BoundMeans(body, x);
      BoundMeans(elseBody, x);
    case For(_, _, body, elseBody) =>
      BoundMeans(body, x);
      BoundMeans(elseBody, x);
    case _ =>
  }

  lemma {:induction false} BranchesBoundMeans(branches: seq<Branch>, x: string)
    ensures x in BoundBranches(branches) <==>
      exists i, n :: 0 <= i < |branches| && Among(n, branches[i].body) && BindsName(n, x)
    decreases branches, 0
  {
    hide BoundNodes, Among;
    if branches != [] {
      BranchBoundMeans(branches[0], x);
      BranchesBoundMeans(branches[1..], x);
      assert forall i :: 0 < i < |branches| ==> branches[i] == branches[1..][i - 1];
    }
  }

  lemma {:induction false} BranchBoundMeans(b: Branch, x: string)
    ensures x in BoundBranch(b) <==> exists n :: Among(n, b.body) && BindsName(n, x)
    decreases b, 1
  {
    BoundMeans(b.body, x);
  }

  /// Names read

  // The expression reads the name, in a subscript if not at its head.
  ghost predicate ExprReads(e: Expr, x: string)
    decreases e
  {
    match e
    case Lit(_) => false
    case Var(head, rest, _) => head == x || exists i :: 0 <= i < |rest| && rest[i].Dyn? && ExprReads(rest[i].e, x)
    case And(l, r) => ExprReads(l, x) || ExprReads(r, x)
    case Or(l, r) => ExprReads(l, x) || ExprReads(r, x)
    case Compare(_, l, r) => ExprReads(l, x) || ExprReads(r, x)
  }

  ghost predicate OutputReads(o: Output, x: string) {
    || ExprReads(o.base, x)
    || exists i, j :: 0 <= i < |o.filters| && 0 <= j < |o.filters[i].args| && ExprReads(o.filters[i].args[j], x)
  }

  // The node itself reads the name, its bodies aside.
  ghost predicate ReadsName(n: Node, x: string) {
    match n
    case Out(o) => OutputReads(o, x)
    case Assign(_, o) => OutputReads(o, x)
    case If(branches, _) => exists i :: 0 <= i < |branches| && ExprReads(branches[i].cond, x)
    case Unless(cond, _, _) => ExprReads(cond, x)
    case For(_, source, _, _) => ExprReads(source, x)
    case _ => false
  }

  lemma {:induction false} ExprMeans(e: Expr, x: string)
    ensures x in RefExpr(e) <==> ExprReads(e, x)
    decreases e, 1
  {
    hide RefSegs;
    match e
    case Lit(_) =>
    case Var(_, rest, _) => SegsMean(rest, x);
    case And(l, r) =>
      ExprMeans(l, x);
      ExprMeans(r, x);
    case Or(l, r) =>
      ExprMeans(l, x);
      ExprMeans(r, x);
    case Compare(_, l, r) =>
      ExprMeans(l, x);
      ExprMeans(r, x);
  }

  lemma {:induction false} SegsMean(segs: seq<Seg>, x: string)
    ensures x in RefSegs(segs) <==> exists i :: 0 <= i < |segs| && segs[i].Dyn? && ExprReads(segs[i].e, x)
    decreases segs, 1
  {
    hide RefSeg, ExprReads;
    if segs != [] {
      SegMeans(segs[0], x);
      SegsMean(segs[1..], x);
      assert forall i :: 0 < i < |segs| ==> segs[i] == segs[1..][i - 1];
    }
  }

  lemma {:induction false} SegMeans(seg: Seg, x: string)
    ensures x in RefSeg(seg) <==> seg.Dyn? && ExprReads(seg.e, x)
    decreases seg, 0
  {
    if seg.Dyn? { ExprMeans(seg.e, x); }
  }

  lemma {:induction false} ArgsMean(args: seq<Expr>, x: string)
    ensures x in RefArgs(args) <==> exists j :: 0 <= j < |args| && ExprReads(args[j], x)
  {
    hide RefExpr, ExprReads;
    if args != [] {
      ExprMeans(args[0], x);
      ArgsMean(args[1..], x);
      assert forall j :: 0 < j < |args| ==> args[j] == args[1..][j - 1];
    }
  }

  lemma {:induction false} FiltersMean(filters: seq<Filter>, x: string)
    ensures x in RefFilters(filters) <==>
      exists i, j :: 0 <= i < |filters| && 0 <= j < |filters[i].args| && ExprReads(filters[i].args[j], x)
  {
    hide RefArgs, ExprReads;
    if filters != [] {
      ArgsMean(filters[0].args, x);
      FiltersMean(filters[1..], x);
      assert forall i :: 0 < i < |filters| ==> filters[i] == filters[1..][i - 1];
    }
  }

  lemma OutputMeans(o: Output, x: string)
    ensures x in RefOutput(o) <==> OutputReads(o, x)
  {
    hide RefExpr, RefFilters, ExprReads;
    ExprMeans(o.base, x);
    FiltersMean(o.filters, x);
  }

  // A name is referenced when some node reads it, wherever it stands.
  lemma {:induction false} ReferencedMeans(nodes: seq<Node>, x: string)
    ensures x in RefNodes(nodes) <==> exists n :: Among(n, nodes) && ReadsName(n, x)
    decreases nodes, 0
  {
    hide RefNode, InBodies, ReadsName;
    if nodes != [] {
      NodeMeans(nodes[0], x);
      ReferencedMeans(nodes[1..], x);
      AmongSplit(nodes);
    }
  }

  lemma {:induction false} NodeMeans(m: Node, x: string)
    ensures x in RefNode(m) <==> ReadsName(m, x) || exists n :: InBodies(n, m) && ReadsName(n, x)
    decreases m, 2
  {
    hide RefNodes, Among, RefBranches, RefOutput, RefExpr, ExprReads, OutputReads;
    match m
    case Out(o) => OutputMeans(o, x);
    case Assign(_, o) => OutputMeans(o, x);
    case If(branches, elseBody) =>
      BranchesMean(branches, x);
      ReferencedMeans(elseBody, x);
    case Unless(cond, body, elseBody) =>
      ExprMeans(cond, x);
      ReferencedMeans(body, x);
      ReferencedMeans(elseBody, x);
    case For(_, source, body, elseBody) =>
      ExprMeans(source, x);
      ReferencedMeans(body, x);
      ReferencedMeans(elseBody, x);
    case _ =>
  }

  lemma {:induction false} BranchesMean(branches: seq<Branch>, x: string)
    ensures x in RefBranches(branches) <==>
      || (exists i :: 0 <= i < |branches| && ExprReads(branches[i].cond, x))
      || (exists i, n :: 0 <= i < |branches| && Among(n, branches[i].body) && ReadsName(n, x))
    decreases branches, 0
  {
    hide RefBranch, Among, ExprReads, ReadsName;
    if branches != [] {
      BranchMeans(branches[0], x);
      BranchesMean(branches[1..], x);
      assert forall i :: 0 < i < |branches| ==> branches[i] == branches[1..][i - 1];
    }
  }

  lemma {:induction false} BranchMeans(b: Branch, x: string)
    ensures x in RefBranch(b) <==> ExprReads(b.cond, x) || exists n :: Among(n, b.body) && ReadsName(n, x)
    decreases b, 1
  {
    hide RefExpr, RefNodes, ExprReads, ReadsName, Among;
    ExprMeans(b.cond, x);
    ReferencedMeans(b.body, x);
  }

  /// The published list

  ghost predicate IsRead(nodes: seq<Node>, x: string) {
    exists n :: Among(n, nodes) && ReadsName(n, x)
  }

  ghost predicate IsBound(nodes: seq<Node>, x: string) {
    exists n :: Among(n, nodes) && BindsName(n, x)
  }

  // In order and once each, the names some node reads that no node binds.
  lemma VariablesMean(nodes: seq<Node>)
    ensures forall x :: x in Variables(nodes) <==> IsRead(nodes, x) && !IsBound(nodes, x) && x != "forloop"
    ensures var list := Variables(nodes); forall i, j :: 0 <= i < j < |list| ==> SortedStrings.Before(list[i], list[j])
  {
    hide IsRead, IsBound, RefNodes, BoundNodes, SortedStrings.Before, SortedStrings.SortedKeys;
    SortedStrings.SortedKeysInOrder(set x | x in RefNodes(nodes) && x !in BoundNodes(nodes) && x != "forloop");
    forall x ensures x in Variables(nodes) <==> IsRead(nodes, x) && !IsBound(nodes, x) && x != "forloop" {
      ReadIs(nodes, x);
      BoundIs(nodes, x);
    }
  }

  lemma ReadIs(nodes: seq<Node>, x: string)
    ensures IsRead(nodes, x) <==> x in RefNodes(nodes)
  {
    hide Among, ReadsName, RefNodes;
    ReferencedMeans(nodes, x);
  }

  lemma BoundIs(nodes: seq<Node>, x: string)
    ensures IsBound(nodes, x) <==> x in BoundNodes(nodes)
  {
    hide Among, BindsName, BoundNodes;
    BoundMeans(nodes, x);
  }

  /// The names a template takes from its caller

  // What is bound already is what is taken off.
  lemma {:induction false} FreeLess(nodes: seq<Node>, a: set<string>, b: set<string>)
    ensures FreeNodes(nodes, a + b) == FreeNodes(nodes, a) - b
    decreases nodes, 0
  {
    hide FreeNode, Binds;
    if nodes != [] {
      var c := Binds(nodes[0]);
      FreeNodeLess(nodes[0], a, b);
      FreeLess(nodes[1..], a + c, b);
      assert a + b + c == a + c + b;
    }
  }

  lemma {:induction false} FreeNodeLess(n: Node, a: set<string>, b: set<string>)
    ensures FreeNode(n, a + b) == FreeNode(n, a) - b
    decreases n, 1
  {
    hide FreeNodes, FreeBranches, RefExpr, RefOutput;
    match n
    case If(branches, elseBody) =>
      FreeBranchesLess(branches, a, b);
      FreeLess(elseBody, a, b);
    case Unless(_, body, elseBody) =>
      FreeLess(body, a, b);
      FreeLess(elseBody, a, b);
    case For(varName, _, body, elseBody) =>
      var c := {varName, "forloop"};
      FreeLess(body, a + c, b);
      FreeLess(elseBody, a, b);
      assert a + b + c == a + c + b;
    case _ =>
  }

  lemma {:induction false} FreeBranchesLess(branches: seq<Branch>, a: set<string>, b: set<string>)
    ensures FreeBranches(branches, a + b) == FreeBranches(branches, a) - b
    decreases branches, 0
  {
    hide FreeBranch;
    if branches != [] {
      FreeBranchLess(branches[0], a, b);
      FreeBranchesLess(branches[1..], a, b);
    }
  }

  lemma {:induction false} FreeBranchLess(br: Branch, a: set<string>, b: set<string>)
    ensures FreeBranch(br, a + b) == FreeBranch(br, a) - b
    decreases br, 1
  {
    hide FreeNodes, RefExpr;
    FreeLess(br.body, a, b);
  }

  // A name is taken by a node that takes it or by what follows, unless the node
  // has bound it by then.
  lemma FreeMeans(n: Node, rest: seq<Node>, x: string)
    ensures FreeNodes([], {}) == {}
    ensures x in FreeNodes([n] + rest, {}) <==> NodeTakes(n, x) || (x in FreeNodes(rest, {}) && x !in Binds(n))
  {
    hide FreeNode, Binds, NodeTakes;
    assert ([n] + rest)[1..] == rest;
    FreeLess(rest, {}, Binds(n));
    NodeTakesIs(n, x);
  }

  // The node reads the name, or one of its bodies takes it; a loop gives its
  // body the loop variable and forloop.
  ghost predicate NodeTakes(n: Node, x: string) {
    || ReadsName(n, x)
    || match n
       case If(branches, elseBody) =>
         (exists i :: 0 <= i < |branches| && x in FreeNodes(branches[i].body, {})) || x in FreeNodes(elseBody, {})
       case Unless(_, body, elseBody) => x in FreeNodes(body, {}) || x in FreeNodes(elseBody, {})
       case For(varName, _, body, elseBody) =>
         (x in FreeNodes(body, {}) && x != varName && x != "forloop") || x in FreeNodes(elseBody, {})
       case _ => false
  }

  lemma NodeTakesIs(n: Node, x: string)
    ensures x in FreeNode(n, {}) <==> NodeTakes(n, x)
  {
    hide FreeNodes, FreeBranches, RefExpr, RefOutput, ExprReads, OutputReads;
    match n
    case Out(o) => OutputMeans(o, x);
    case Assign(_, o) => OutputMeans(o, x);
    case If(branches, _) => BranchesTake(branches, x);
    case Unless(cond, _, _) => ExprMeans(cond, x);
    case For(varName, source, body, _) =>
      ExprMeans(source, x);
      FreeLess(body, {}, {varName, "forloop"});
    case _ =>
  }

  lemma {:induction false} BranchesTake(branches: seq<Branch>, x: string)
    ensures x in FreeBranches(branches, {}) <==>
      exists i :: 0 <= i < |branches| && (ExprReads(branches[i].cond, x) || x in FreeNodes(branches[i].body, {}))
  {
    hide FreeNodes, RefExpr, ExprReads;
    if branches != [] {
      ExprMeans(branches[0].cond, x);
      BranchesTake(branches[1..], x);
      assert forall i :: 0 < i < |branches| ==> branches[i] == branches[1..][i - 1];
    }
  }

  // A node has bound a name when it assigns it, or all its bodies have; a loop
  // may have run none.
  lemma BindsMean(n: Node, rest: seq<Node>, x: string)
    ensures x in BindsAll([n] + rest) <==> x in Binds(n) || x in BindsAll(rest)
    ensures x in Binds(n) <==>
      match n
      case Assign(target, _) => x == target
      case If(branches, elseBody) =>
        (forall i :: 0 <= i < |branches| ==> x in BindsAll(branches[i].body)) && x in BindsAll(elseBody)
      case Unless(_, body, elseBody) => x in BindsAll(body) && x in BindsAll(elseBody)
      case _ => false
  {
    assert ([n] + rest)[1..] == rest;
    if n.If? { BindsFromMeans(n, 0, x); }
  }

  lemma {:induction false} BindsFromMeans(n: Node, i: nat, x: string)
    requires n.If? && i <= |n.branches|
    ensures x in BindsFrom(n, i) <==>
      (forall k :: i <= k < |n.branches| ==> x in BindsAll(n.branches[k].body)) && x in BindsAll(n.elseBody)
    decreases |n.branches| - i
  {
    hide BindsAll;
    if i < |n.branches| { BindsFromMeans(n, i + 1, x); }
  }
}
