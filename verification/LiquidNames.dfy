/** Which names a template refers to and binds (internal/liquid/lint.go). */
module LiquidNames {
  import opened LiquidSyntax
  import SortedStrings

  /// The names, in the order the walk meets them

  function RefExpr(e: Expr): seq<string>
    decreases e, 1
  {
    match e
    case Lit(_) => []
    case Var(head, rest, _) => [head] + RefSegs(rest)
    case And(l, r) => RefExpr(l) + RefExpr(r)
    case Or(l, r) => RefExpr(l) + RefExpr(r)
    case Compare(_, l, r) => RefExpr(l) + RefExpr(r)
  }

  function RefSegs(segs: seq<Seg>): seq<string>
    decreases segs, 0
  {
    if segs == [] then [] else RefSeg(segs[0]) + RefSegs(segs[1..])
  }

  function RefSeg(seg: Seg): seq<string>
    decreases seg, 0
  {
    if seg.Dyn? then RefExpr(seg.e) else []
  }

  function RefArgs(args: seq<Expr>): seq<string> {
    if args == [] then [] else RefExpr(args[0]) + RefArgs(args[1..])
  }

  function RefFilters(filters: seq<Filter>): seq<string> {
    if filters == [] then [] else RefArgs(filters[0].args) + RefFilters(filters[1..])
  }

  function RefOutput(o: Output): seq<string> {
    RefExpr(o.base) + RefFilters(o.filters)
  }

  function RefNodes(nodes: seq<Node>): seq<string>
    decreases nodes, 0
  {
    if nodes == [] then [] else RefNode(nodes[0]) + RefNodes(nodes[1..])
  }

  function RefBranch(b: Branch): seq<string>
    decreases b, 1
  {
    RefExpr(b.cond) + RefNodes(b.body)
  }

  function RefBranches(branches: seq<Branch>): seq<string>
    decreases branches, 0
  {
    if branches == [] then [] else RefBranch(branches[0]) + RefBranches(branches[1..])
  }

  function RefNode(n: Node): seq<string>
    decreases n, 1
  {
    match n
    case Out(o) => RefOutput(o)
    case Assign(_, o) => RefOutput(o)
    case If(branches, elseBody) => RefBranches(branches) + RefNodes(elseBody)
    case Unless(cond, body, elseBody) => RefExpr(cond) + RefNodes(body) + RefNodes(elseBody)
    case For(_, source, body, elseBody) => RefExpr(source) + RefNodes(body) + RefNodes(elseBody)
    case _ => []
  }

  function BoundNodes(nodes: seq<Node>): set<string>
    decreases nodes, 0
  {
    if nodes == [] then {} else BoundNode(nodes[0]) + BoundNodes(nodes[1..])
  }

  function BoundBranch(b: Branch): set<string>
    decreases b, 1
  {
    BoundNodes(b.body)
  }

  function BoundBranches(branches: seq<Branch>): set<string>
    decreases branches, 0
  {
    if branches == [] then {} else BoundBranch(branches[0]) + BoundBranches(branches[1..])
  }

  function BoundNode(n: Node): set<string>
    decreases n, 1
  {
    match n
    case Assign(target, _) => {target}
    case If(branches, elseBody) => BoundBranches(branches) + BoundNodes(elseBody)
    case Unless(_, body, elseBody) => BoundNodes(body) + BoundNodes(elseBody)
    case For(varName, _, body, elseBody) => {varName} + BoundNodes(body) + BoundNodes(elseBody)
    case _ => {}
  }

  /// The names a template takes from its caller

  function Unbound(refs: seq<string>, bound: set<string>): set<string> {
    set x | x in refs && x !in bound
  }

  // The names read where nothing before them binds them: what a node has bound
  // is bound for those that follow, and a loop binds its variable and forloop
  // for its body.
  function FreeNodes(nodes: seq<Node>, bound: set<string>): set<string>
    decreases nodes, 0
  {
    if nodes == [] then {} else FreeNode(nodes[0], bound) + FreeNodes(nodes[1..], bound + Binds(nodes[0]))
  }

  // What a node has bound whenever it ends normally: an if and an unless what
  // every one of their bodies binds, with no else body nothing.  A loop may run
  // no round.
  function Binds(n: Node): set<string>
    decreases n, 1
  {
    match n
    case Assign(target, _) => {target}
    case If(_, _) => BindsFrom(n, 0)
    case Unless(_, body, elseBody) => BindsAll(body) * BindsAll(elseBody)
    case _ => {}
  }

  function BindsAll(nodes: seq<Node>): set<string>
    decreases nodes, 0
  {
    if nodes == [] then {} else Binds(nodes[0]) + BindsAll(nodes[1..])
  }

  // What every branch from i on and the else body bind.
  function BindsFrom(n: Node, i: nat): set<string>
    requires n.If? && i <= |n.branches|
    decreases n, 0, |n.branches| - i
  {
    if i == |n.branches| then BindsAll(n.elseBody) else BindsAll(n.branches[i].body) * BindsFrom(n, i + 1)
  }

  function FreeBranches(branches: seq<Branch>, bound: set<string>): set<string>
    decreases branches, 0
  {
    if branches == [] then {} else FreeBranch(branches[0], bound) + FreeBranches(branches[1..], bound)
  }

  function FreeBranch(b: Branch, bound: set<string>): set<string>
    decreases b, 1
  {
    Unbound(RefExpr(b.cond), bound) + FreeNodes(b.body, bound)
  }

  function FreeNode(n: Node, bound: set<string>): set<string>
    decreases n, 1
  {
    match n
    case Out(o) => Unbound(RefOutput(o), bound)
    case Assign(_, o) => Unbound(RefOutput(o), bound)
    case If(branches, elseBody) => FreeBranches(branches, bound) + FreeNodes(elseBody, bound)
    case Unless(cond, body, elseBody) =>
      Unbound(RefExpr(cond), bound) + FreeNodes(body, bound) + FreeNodes(elseBody, bound)
    case For(varName, source, body, elseBody) =>
      Unbound(RefExpr(source), bound) + FreeNodes(body, bound + {varName, "forloop"}) + FreeNodes(elseBody, bound)
    case _ => {}
  }

  // Variables: the referenced names a caller is asked for, sorted.
  function Variables(nodes: seq<Node>): seq<string> {
    SortedStrings.SortedKeys(set x | x in RefNodes(nodes) && x !in BoundNodes(nodes) && x != "forloop")
  }

  lemma Regrouped(s: seq<string>, a: seq<string>, b: seq<string>, c: seq<string>)
    ensures s + a + b == s + (a + b) && s + a + b + c == s + (a + b + c)
  {
  }

  /// The walk

  class Collector {
    var referenced: seq<string>
    var bound: set<string>

    constructor ()
      ensures referenced == [] && bound == {}
    {
      referenced, bound := [], {};
    }

    ghost predicate Grew(before: seq<string>, more: seq<string>, boundBefore: set<string>, moreBound: set<string>)
      reads this
    {
      referenced == before + more && bound == boundBefore + moreBound
    }

    method WalkExpr(e: Expr)
      modifies this
      ensures Grew(old(referenced), RefExpr(e), old(bound), {})
      decreases e, 1
    {
      hide RefSeg;
      match e {
        case Lit(_) =>
        case Var(head, rest, _) =>
          referenced := referenced + [head];
          var i := 0;
          assert rest[0..] == rest;
          while i < |rest|
            invariant i <= |rest| && bound == old(bound)
            invariant referenced + RefSegs(rest[i..]) == old(referenced) + RefExpr(e)
          {
            assert rest[i..][1..] == rest[i + 1..] && rest[i..][0] == rest[i];
            Regrouped(referenced, RefSeg(rest[i]), RefSegs(rest[i + 1..]), []);
            WalkSeg(rest[i]);
            i := i + 1;
          }
        case And(l, r) =>
          Regrouped(referenced, RefExpr(l), RefExpr(r), []);
          WalkExpr(l);
          WalkExpr(r);
        case Or(l, r) =>
          Regrouped(referenced, RefExpr(l), RefExpr(r), []);
          WalkExpr(l);
          WalkExpr(r);
        case Compare(_, l, r) =>
          Regrouped(referenced, RefExpr(l), RefExpr(r), []);
          WalkExpr(l);
          WalkExpr(r);
      }
    }

    method WalkSeg(seg: Seg)
      modifies this
      ensures Grew(old(referenced), RefSeg(seg), old(bound), {})
      decreases seg, 2
    {
      if seg.Dyn? { WalkExpr(seg.e); }
    }

    method WalkOutput(o: Output)
      modifies this
      ensures Grew(old(referenced), RefOutput(o), old(bound), {})
    {
      hide RefExpr, RefArgs;
      WalkExpr(o.base);
      ghost var whole := referenced + RefFilters(o.filters);
      var i := 0;
      assert o.filters[0..] == o.filters;
      while i < |o.filters|
        invariant i <= |o.filters| && bound == old(bound)
        invariant referenced + RefFilters(o.filters[i..]) == whole
      {
        assert o.filters[i..][1..] == o.filters[i + 1..] && o.filters[i..][0] == o.filters[i];
        WalkArgs(o.filters[i].args);
        i := i + 1;
      }
      assert o.filters[i..] == [] && referenced + [] == referenced;
    }

    method WalkArgs(args: seq<Expr>)
      modifies this
      ensures Grew(old(referenced), RefArgs(args), old(bound), {})
    {
      var i := 0;
      assert args[0..] == args;
      while i < |args|
        invariant i <= |args| && bound == old(bound)
        invariant referenced + RefArgs(args[i..]) == old(referenced) + RefArgs(args)
      {
        assert args[i..][1..] == args[i + 1..] && args[i..][0] == args[i];
        WalkExpr(args[i]);
        i := i + 1;
      }
    }

    method WalkNodes(nodes: seq<Node>)
      modifies this
      ensures Grew(old(referenced), RefNodes(nodes), old(bound), BoundNodes(nodes))
      decreases nodes, 0
    {
      hide RefNode, BoundNode;
      var i := 0;
      assert nodes[0..] == nodes;
      while i < |nodes|
        invariant i <= |nodes|
        invariant referenced + RefNodes(nodes[i..]) == old(referenced) + RefNodes(nodes)
        invariant bound + BoundNodes(nodes[i..]) == old(bound) + BoundNodes(nodes)
      {
        assert nodes[i..][1..] == nodes[i + 1..] && nodes[i..][0] == nodes[i];
        WalkNode(nodes[i]);
        i := i + 1;
      }
    }

    method WalkNode(n: Node)
      modifies this
      ensures Grew(old(referenced), RefNode(n), old(bound), BoundNode(n))
      decreases n, 1
    {
      hide RefExpr, RefOutput, RefNodes, BoundNodes, RefBranches, BoundBranches;
      match n {
        case Text(_) =>
        case Out(o) => WalkOutput(o);
        case Assign(target, o) =>
          bound := bound + {target};
          WalkOutput(o);
        case If(branches, elseBody) =>
          Regrouped(referenced, RefBranches(branches), RefNodes(elseBody), []);
          WalkBranches(branches);
          WalkNodes(elseBody);
        case Unless(cond, body, elseBody) =>
          Regrouped(referenced, RefExpr(cond), RefNodes(body), RefNodes(elseBody));
          WalkExpr(cond);
          WalkNodes(body);
          WalkNodes(elseBody);
        case For(varName, source, body, elseBody) =>
          Regrouped(referenced, RefExpr(source), RefNodes(body), RefNodes(elseBody));
          bound := bound + {varName};
          WalkExpr(source);
          WalkNodes(body);
          WalkNodes(elseBody);
        case Break =>
        case Continue =>
      }
    }

    method WalkBranches(branches: seq<Branch>)
      modifies this
      ensures Grew(old(referenced), RefBranches(branches), old(bound), BoundBranches(branches))
      decreases branches, 0
    {
      hide RefBranch, BoundBranch;
      var i := 0;
      assert branches[0..] == branches;
      while i < |branches|
        invariant i <= |branches|
        invariant referenced + RefBranches(branches[i..]) == old(referenced) + RefBranches(branches)
        invariant bound + BoundBranches(branches[i..]) == old(bound) + BoundBranches(branches)
      {
        assert branches[i..][1..] == branches[i + 1..] && branches[i..][0] == branches[i];
        WalkBranch(branches[i]);
        i := i + 1;
      }
    }

    method WalkBranch(b: Branch)
      modifies this
      ensures Grew(old(referenced), RefBranch(b), old(bound), BoundBranch(b))
      decreases b, 1
    {
      hide RefExpr, RefNodes, BoundNodes;
      WalkExpr(b.cond);
      WalkNodes(b.body);
    }
  }

  method VariableNames(nodes: seq<Node>) returns (referenced: seq<string>, bound: set<string>)
    ensures referenced == RefNodes(nodes) && bound == BoundNodes(nodes)
  {
    var c := new Collector();
    c.WalkNodes(nodes);
    assert [] + RefNodes(nodes) == RefNodes(nodes);
    return c.referenced, c.bound;
  }
}
