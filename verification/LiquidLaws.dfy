/** Laws of rendering (internal/liquid). */
module LiquidLaws {
  import opened Options
  import opened LiquidSyntax
  import opened LiquidValues
  import opened LiquidSemantics
  import opened LiquidNames

  /// Coincidence: a template reads no name the analysis does not report

  // The same of every name in `names`: absent from both, or the same value.
  ghost predicate Agree(a: Vars, b: Vars, names: set<string>) {
    forall x :: x in names ==> (x in a <==> x in b) && (x in a ==> a[x] == b[x])
  }

  predicate InFrames(x: string, locals: seq<Vars>) {
    exists i :: 0 <= i < |locals| && x in locals[i]
  }

  // Every name referred to is one of `names` or a local.
  ghost predicate Covered(refs: seq<string>, names: set<string>, locals: seq<Vars>) {
    forall x :: x in refs ==> x in names || InFrames(x, locals)
  }

  ghost predicate Backed(bound: set<string>, names: set<string>, locals: seq<Vars>) {
    forall x :: x in bound ==> x in names || InFrames(x, locals)
  }

  lemma CoveredConcat(r: seq<string>, s: seq<string>, names: set<string>, locals: seq<Vars>)
    ensures Covered(r + s, names, locals) <==> Covered(r, names, locals) && Covered(s, names, locals)
  {
    hide InFrames;
    assert forall x :: x in r ==> x in r + s;
    assert forall x :: x in s ==> x in r + s;
  }

  lemma CoveredBy(refs: seq<string>, bound: set<string>, names: set<string>, locals: seq<Vars>)
    requires Unbound(refs, bound) <= names && Backed(bound, names, locals)
    ensures Covered(refs, names, locals)
  {
    hide InFrames;
    forall x | x in refs ensures x in names || InFrames(x, locals) {
      if x !in bound { assert x in Unbound(refs, bound); }
    }
  }

  lemma {:induction false} LookupSame(a: Vars, b: Vars, locals: seq<Vars>, name: string, names: set<string>)
    requires Agree(a, b, names) && (name in names || InFrames(name, locals))
    ensures Lookup(a, locals, name) == Lookup(b, locals, name)
  {
    if locals != [] && name !in locals[|locals| - 1] {
      var outer := locals[..|locals| - 1];
      if name !in names {
        var i :| 0 <= i < |locals| && name in locals[i];
        assert outer[i] == locals[i];
      }
      LookupSame(a, b, outer, name, names);
    }
  }

  lemma {:induction false} EvalSame(lib: Library, e: Expr, a: Vars, b: Vars, locals: seq<Vars>, strict: bool,
      names: set<string>)
    requires Agree(a, b, names) && Covered(RefExpr(e), names, locals)
    ensures Eval(lib, e, a, locals, strict) == Eval(lib, e, b, locals, strict)
    decreases e, 1
  {
    hide Agree, Lookup, IndexValue, Compared, Covered, InFrames, EvalPath;
    match e
    case Lit(_) =>
    case Var(head, rest, _) =>
      CoveredConcat([head], RefSegs(rest), names, locals);
      CoveredOne(head, names, locals);
      LookupSame(a, b, locals, head, names);
      var cur := Lookup(a, locals, head);
      if cur.Some? { PathSame(lib, rest, cur.value, a, b, locals, strict, names); }
    case And(l, r) =>
      CoveredConcat(RefExpr(l), RefExpr(r), names, locals);
      EvalSame(lib, l, a, b, locals, strict, names);
      EvalSame(lib, r, a, b, locals, strict, names);
    case Or(l, r) =>
      CoveredConcat(RefExpr(l), RefExpr(r), names, locals);
      EvalSame(lib, l, a, b, locals, strict, names);
      EvalSame(lib, r, a, b, locals, strict, names);
    case Compare(_, l, r) =>
      CoveredConcat(RefExpr(l), RefExpr(r), names, locals);
      EvalSame(lib, l, a, b, locals, strict, names);
      EvalSame(lib, r, a, b, locals, strict, names);
  }

  lemma CoveredOne(x: string, names: set<string>, locals: seq<Vars>)
    requires Covered([x], names, locals)
    ensures x in names || InFrames(x, locals)
  {
    assert x in [x];
  }

  lemma {:induction false} PathSame(
    lib: Library, segs: seq<Seg>, cur: Value, a: Vars, b: Vars, locals: seq<Vars>, strict: bool, names: set<string>)
    requires Agree(a, b, names) && Covered(RefSegs(segs), names, locals)
    ensures EvalPath(lib, segs, cur, a, locals, strict) == EvalPath(lib, segs, cur, b, locals, strict)
    decreases segs, 1
  {
    hide Agree, IndexValue, Covered, EvalKey;
    if segs != [] {
      CoveredConcat(RefSeg(segs[0]), RefSegs(segs[1..]), names, locals);
      KeySame(lib, segs[0], a, b, locals, strict, names);
      var k := EvalKey(lib, segs[0], a, locals, strict);
      if k.Got? {
        var next := IndexValue(lib, cur, k.v);
        if next.Some? { PathSame(lib, segs[1..], next.value, a, b, locals, strict, names); }
      }
    }
  }

  lemma {:induction false} KeySame(lib: Library, seg: Seg, a: Vars, b: Vars, locals: seq<Vars>, strict: bool,
      names: set<string>)
    requires Agree(a, b, names) && Covered(RefSeg(seg), names, locals)
    ensures EvalKey(lib, seg, a, locals, strict) == EvalKey(lib, seg, b, locals, strict)
    decreases seg, 0
  {
    if seg.Dyn? { EvalSame(lib, seg.e, a, b, locals, strict, names); }
  }

  lemma {:induction false} ArgsSame(lib: Library, args: seq<Expr>, a: Vars, b: Vars, locals: seq<Vars>,
      names: set<string>)
    requires Agree(a, b, names) && Covered(RefArgs(args), names, locals)
    ensures EvalArgs(lib, args, a, locals) == EvalArgs(lib, args, b, locals)
  {
    hide Agree, Covered, Eval, RefExpr;
    if args != [] {
      CoveredConcat(RefExpr(args[0]), RefArgs(args[1..]), names, locals);
      EvalSame(lib, args[0], a, b, locals, true, names);
      ArgsSame(lib, args[1..], a, b, locals, names);
    }
  }

  lemma {:induction false} FiltersSame(
    lib: Library, filters: seq<Filter>, v: Value, a: Vars, b: Vars, locals: seq<Vars>, names: set<string>)
    requires Agree(a, b, names) && Covered(RefFilters(filters), names, locals)
    ensures EvalFilters(lib, filters, v, a, locals) == EvalFilters(lib, filters, v, b, locals)
  {
    hide Agree, Covered, EvalArgs, RefArgs, Filtered;
    if filters != [] {
      CoveredConcat(RefArgs(filters[0].args), RefFilters(filters[1..]), names, locals);
      ArgsSame(lib, filters[0].args, a, b, locals, names);
      var args := EvalArgs(lib, filters[0].args, a, locals);
      if args.Ok? {
        var next := Filtered(lib, filters[0].name, v, args.value);
        if next.Ok? { FiltersSame(lib, filters[1..], next.value, a, b, locals, names); }
      }
    }
  }

  lemma OutputSame(lib: Library, o: Output, a: Vars, b: Vars, locals: seq<Vars>, names: set<string>)
    requires Agree(a, b, names) && Covered(RefOutput(o), names, locals)
    ensures EvalOutput(lib, o, a, locals) == EvalOutput(lib, o, b, locals)
  {
    hide Agree, Covered, Eval, EvalFilters, RefExpr, RefFilters;
    CoveredConcat(RefExpr(o.base), RefFilters(o.filters), names, locals);
    EvalSame(lib, o.base, a, b, locals, true, names);
    var v := EvalStrict(lib, o.base, a, locals);
    if v.Ok? { FiltersSame(lib, o.filters, v.value, a, b, locals, names); }
  }

  // Two renderings nobody reading `names` can tell apart, nor what they have
  // bound when they end normally.
  ghost predicate Alike(r: Rendering, s: Rendering, names: set<string>, binds: set<string>) {
    && r.text == s.text && r.signal == s.signal && Agree(r.globals, s.globals, names)
    && (r.signal.Done? ==> Agree(r.globals, s.globals, names + binds))
  }

  lemma AlikeLess(r: Rendering, s: Rendering, names: set<string>, more: set<string>, binds: set<string>)
    requires Alike(r, s, names, more) && binds <= more
    ensures Alike(r, s, names, binds)
  {
    assert names + binds <= names + more;
  }

  // The globals agree on `names`, which hold every name the nodes take from
  // their caller; what is bound already is in there or a local.
  lemma {:induction false} NodesSame(
    lib: Library, nodes: seq<Node>, a: Vars, b: Vars, locals: seq<Vars>, names: set<string>, bound: set<string>)
    requires Agree(a, b, names) && FreeNodes(nodes, bound) <= names && Backed(bound, names, locals)
    ensures Alike(RenderNodes(lib, nodes, a, locals), RenderNodes(lib, nodes, b, locals), names, BindsAll(nodes))
    decreases nodes, 0
  {
    hide Agree, Backed, RenderNode, FreeNode, Binds, Alike;
    if nodes == [] {
      AlikeNothing(a, b, names);
    } else {
      var n := nodes[0];
      NodeSame(lib, n, a, b, locals, names, bound);
      var r, s := RenderNode(lib, n, a, locals), RenderNode(lib, n, b, locals);
      AlikeParts(r, s, names, Binds(n));
      if r.signal.Done? {
        BackedMore(bound, names, locals, Binds(n));
        NodesSame(lib, nodes[1..], r.globals, s.globals, locals, names + Binds(n), bound + Binds(n));
        AlikeJoined(r, s, RenderNodes(lib, nodes[1..], r.globals, locals),
                    RenderNodes(lib, nodes[1..], s.globals, locals), names, Binds(n), BindsAll(nodes[1..]));
      } else {
        AlikeCut(r, s, names, Binds(n), BindsAll(nodes));
      }
    }
  }

  lemma AlikeNothing(a: Vars, b: Vars, names: set<string>)
    requires Agree(a, b, names)
    ensures Alike(Rendering("", a, Done), Rendering("", b, Done), names, {})
  {
  }

  lemma AlikeParts(r: Rendering, s: Rendering, names: set<string>, binds: set<string>)
    requires Alike(r, s, names, binds)
    ensures r.signal == s.signal && (r.signal.Done? ==> Agree(r.globals, s.globals, names + binds))
  {
  }

  lemma AlikeCut(r: Rendering, s: Rendering, names: set<string>, binds: set<string>, more: set<string>)
    requires Alike(r, s, names, binds) && !r.signal.Done?
    ensures Alike(r, s, names, more)
  {
  }

  lemma AlikeJoined(r: Rendering, s: Rendering, t: Rendering, u: Rendering, names: set<string>, binds: set<string>,
      more: set<string>)
    requires Alike(r, s, names, binds) && r.signal.Done? && Alike(t, u, names + binds, more)
    ensures Alike(Rendering(r.text + t.text, t.globals, t.signal), Rendering(s.text + u.text, u.globals, u.signal),
                  names, binds + more)
  {
    assert names + (binds + more) == names + binds + more;
  }

  lemma BackedMore(bound: set<string>, names: set<string>, locals: seq<Vars>, more: set<string>)
    requires Backed(bound, names, locals)
    ensures Backed(bound + more, names + more, locals)
  {
    hide InFrames;
  }

  lemma AlikeAssigned(a: Vars, b: Vars, target: string, v: Value, names: set<string>)
    requires Agree(a, b, names)
    ensures Alike(Rendering("", a[target := v], Done), Rendering("", b[target := v], Done), names, {target})
  {
  }

  lemma AlikeHere(text: string, a: Vars, b: Vars, signal: Signal, names: set<string>)
    requires Agree(a, b, names)
    ensures Alike(Rendering(text, a, signal), Rendering(text, b, signal), names, {})
  {
    assert names + {} == names;
  }

  lemma AlikeRaised(a: Vars, b: Vars, error: Error, names: set<string>, binds: set<string>)
    requires Agree(a, b, names)
    ensures Alike(Rendering("", a, Raised(error)), Rendering("", b, Raised(error)), names, binds)
  {
  }

  lemma {:induction false} NodeSame(
    lib: Library, n: Node, a: Vars, b: Vars, locals: seq<Vars>, names: set<string>, bound: set<string>)
    requires Agree(a, b, names) && FreeNode(n, bound) <= names && Backed(bound, names, locals)
    ensures Alike(RenderNode(lib, n, a, locals), RenderNode(lib, n, b, locals), names, Binds(n))
    decreases n, 2
  {
    hide Agree, Backed, Covered, Unbound, RefExpr, RefOutput, FreeNodes, FreeBranches, RenderNodes, RenderItems;
    hide RenderBranches, EvalOutput, Condition, ToString, Iterable, Alike, BindsAll, BindsFrom;
    match n
    case Text(text) => AlikeHere(text, a, b, Done, names);
    case Out(o) =>
      CoveredBy(RefOutput(o), bound, names, locals);
      OutputSame(lib, o, a, b, locals, names);
      match EvalOutput(lib, o, a, locals) {
        case Ok(v) => AlikeHere(ToString(lib, v), a, b, Done, names);
        case Err(error) => AlikeRaised(a, b, error, names, {});
      }
    case Assign(target, o) =>
      CoveredBy(RefOutput(o), bound, names, locals);
      OutputSame(lib, o, a, b, locals, names);
      match EvalOutput(lib, o, a, locals) {
        case Ok(v) => AlikeAssigned(a, b, target, v, names);
        case Err(error) => AlikeRaised(a, b, error, names, {target});
      }
    case If(branches, _) =>
      assert branches[0..] == branches;
      BranchesSame(lib, n, 0, a, b, locals, names, bound);
    case Unless(_, _, _) => UnlessSame(lib, n, a, b, locals, names, bound);
    case For(_, _, _, _) => LoopSame(lib, n, a, b, locals, names, bound);
    case Break => AlikeHere("", a, b, Broke, names);
    case Continue => AlikeHere("", a, b, Continued, names);
  }

  lemma {:induction false} UnlessSame(
    lib: Library, n: Node, a: Vars, b: Vars, locals: seq<Vars>, names: set<string>, bound: set<string>)
    requires n.Unless? && Agree(a, b, names) && FreeNode(n, bound) <= names && Backed(bound, names, locals)
    ensures Alike(RenderNode(lib, n, a, locals), RenderNode(lib, n, b, locals), names, Binds(n))
    decreases n, 1
  {
    hide Agree, Backed, Covered, Unbound, RefExpr, FreeNodes, RenderNodes, Condition, Alike, BindsAll;
    CoveredBy(RefExpr(n.cond), bound, names, locals);
    ConditionSame(lib, n.cond, a, b, locals, names);
    var (holds, missing) := Condition(lib, n.cond, a, locals);
    if holds {
      NodesSame(lib, n.elseBody, a, b, locals, names, bound);
      var r, s := RenderNodes(lib, n.elseBody, a, locals), RenderNodes(lib, n.elseBody, b, locals);
      AlikeLess(r, s, names, BindsAll(n.elseBody), Binds(n));
    } else if missing.Some? {
      AlikeRaised(a, b, Missing(missing.value), names, Binds(n));
    } else {
      NodesSame(lib, n.body, a, b, locals, names, bound);
      var r, s := RenderNodes(lib, n.body, a, locals), RenderNodes(lib, n.body, b, locals);
      AlikeLess(r, s, names, BindsAll(n.body), Binds(n));
    }
  }

  lemma ConditionSame(lib: Library, cond: Expr, a: Vars, b: Vars, locals: seq<Vars>, names: set<string>)
    requires Agree(a, b, names) && Covered(RefExpr(cond), names, locals)
    ensures Condition(lib, cond, a, locals) == Condition(lib, cond, b, locals)
  {
    hide Agree, Covered, Eval, RefExpr;
    EvalSame(lib, cond, a, b, locals, false, names);
  }

  lemma {:induction false} BranchesSame(
    lib: Library, n: Node, i: nat, a: Vars, b: Vars, locals: seq<Vars>, names: set<string>, bound: set<string>)
    requires n.If? && i <= |n.branches| && Agree(a, b, names) && Backed(bound, names, locals)
    requires FreeBranches(n.branches[i..], bound) <= names && FreeNodes(n.elseBody, bound) <= names
    ensures Alike(RenderBranches(lib, n, i, a, locals), RenderBranches(lib, n, i, b, locals), names, BindsFrom(n, i))
    decreases n, 1, |n.branches| - i
  {
    hide Agree, Backed, Covered, Unbound, RefExpr, FreeNodes, RenderNodes, Condition, Alike, BindsAll;
    if i == |n.branches| {
      NodesSame(lib, n.elseBody, a, b, locals, names, bound);
    } else {
      var br := n.branches[i];
      assert n.branches[i..][1..] == n.branches[i + 1..] && n.branches[i..][0] == br;
      CoveredBy(RefExpr(br.cond), bound, names, locals);
      ConditionSame(lib, br.cond, a, b, locals, names);
      var (holds, missing) := Condition(lib, br.cond, a, locals);
      if !holds {
        BranchesSame(lib, n, i + 1, a, b, locals, names, bound);
        var r, s := RenderBranches(lib, n, i + 1, a, locals), RenderBranches(lib, n, i + 1, b, locals);
        AlikeLess(r, s, names, BindsFrom(n, i + 1), BindsFrom(n, i));
      } else if missing.Some? {
        AlikeRaised(a, b, Missing(missing.value), names, BindsFrom(n, i));
      } else {
        NodesSame(lib, br.body, a, b, locals, names, bound);
        var r, s := RenderNodes(lib, br.body, a, locals), RenderNodes(lib, br.body, b, locals);
        AlikeLess(r, s, names, BindsAll(br.body), BindsFrom(n, i));
      }
    }
  }

  lemma {:induction false} LoopSame(
    lib: Library, n: Node, a: Vars, b: Vars, locals: seq<Vars>, names: set<string>, bound: set<string>)
    requires n.For? && Agree(a, b, names) && FreeNode(n, bound) <= names && Backed(bound, names, locals)
    ensures Alike(RenderNode(lib, n, a, locals), RenderNode(lib, n, b, locals), names, {})
    decreases n, 1
  {
    hide Agree, Backed, Covered, Unbound, RefExpr, FreeNodes, RenderNodes, RenderItems, Iterable, Alike, BindsAll;
    CoveredBy(RefExpr(n.source), bound, names, locals);
    StrictSame(lib, n.source, a, b, locals, names);
    match EvalStrict(lib, n.source, a, locals)
    case Err(error) => AlikeRaised(a, b, error, names, {});
    case Ok(v) =>
      if Iterable(v) == [] {
        NodesSame(lib, n.elseBody, a, b, locals, names, bound);
        var r, s := RenderNodes(lib, n.elseBody, a, locals), RenderNodes(lib, n.elseBody, b, locals);
        AlikeLess(r, s, names, BindsAll(n.elseBody), {});
      } else {
        ItemsSame(lib, n, Iterable(v), 0, a, b, locals, names, bound);
      }
  }

  lemma StrictSame(lib: Library, e: Expr, a: Vars, b: Vars, locals: seq<Vars>, names: set<string>)
    requires Agree(a, b, names) && Covered(RefExpr(e), names, locals)
    ensures EvalStrict(lib, e, a, locals) == EvalStrict(lib, e, b, locals)
  {
    hide Agree, Covered, Eval, RefExpr;
    EvalSame(lib, e, a, b, locals, true, names);
  }

  lemma {:induction false} ItemsSame(
    lib: Library, n: Node, items: seq<Value>, i: nat, a: Vars, b: Vars, locals: seq<Vars>, names: set<string>,
    bound: set<string>)
    requires n.For? && i <= |items| && Agree(a, b, names) && Backed(bound, names, locals)
    requires FreeNodes(n.body, bound + {n.varName, "forloop"}) <= names
    ensures Alike(RenderItems(lib, n, items, i, a, locals), RenderItems(lib, n, items, i, b, locals), names, {})
    decreases n, 0, |items| - i
  {
    hide Agree, Backed, FreeNodes, RenderNodes, Frame, BindsAll;
    if i == |items| {
      AlikeNothing(a, b, names);
    } else {
      var inner := locals + [Frame(n.varName, items[i], i, |items|)];
      FrameBacks(n.varName, items, i, locals, names, bound);
      NodesSame(lib, n.body, a, b, inner, names, bound + {n.varName, "forloop"});
      var r, s := RenderNodes(lib, n.body, a, inner), RenderNodes(lib, n.body, b, inner);
      assert names + {} == names;
      ItemsSame(lib, n, items, i + 1, r.globals, s.globals, locals, names, bound);
    }
  }

  lemma FrameBacks(varName: string, items: seq<Value>, i: nat, locals: seq<Vars>, names: set<string>,
      bound: set<string>)
    requires i < |items| && Backed(bound, names, locals)
    ensures Backed(bound + {varName, "forloop"}, names, locals + [Frame(varName, items[i], i, |items|)])
  {
    var frame := Frame(varName, items[i], i, |items|);
    var inner := locals + [frame];
    assert varName in frame && "forloop" in frame && inner[|locals|] == frame;
    hide Frame;
    forall x | x in bound + {varName, "forloop"} ensures x in names || InFrames(x, inner) {
      if x in bound && InFrames(x, locals) {
        var k :| 0 <= k < |locals| && x in locals[k];
        assert inner[k] == locals[k];
      }
    }
  }

  // Variable maps that agree on every name the template takes from its caller
  // give the same text or the same error.
  lemma ScopedCoincidence(lib: Library, nodes: seq<Node>, a: Vars, b: Vars)
    requires Agree(a, b, FreeNodes(nodes, {}))
    ensures Render(lib, nodes, a) == Render(lib, nodes, b)
  {
    hide RenderNodes, FreeNodes;
    NodesSame(lib, nodes, a, b, [], FreeNodes(nodes, {}), {});
  }

  lemma {:induction false} FreeIsReferenced(nodes: seq<Node>, bound: set<string>)
    ensures forall x :: x in FreeNodes(nodes, bound) ==> x in RefNodes(nodes)
    decreases nodes, 0
  {
    hide FreeNode, RefNode;
    if nodes != [] {
      FreeNodeIsReferenced(nodes[0], bound);
      FreeIsReferenced(nodes[1..], bound + Binds(nodes[0]));
    }
  }

  lemma {:induction false} FreeNodeIsReferenced(n: Node, bound: set<string>)
    ensures forall x :: x in FreeNode(n, bound) ==> x in RefNode(n)
    decreases n, 1
  {
    hide FreeNodes, RefNodes, FreeBranches, RefBranches, RefExpr, RefOutput;
    match n
    case If(branches, elseBody) =>
      FreeBranchesReferenced(branches, bound);
      FreeIsReferenced(elseBody, bound);
    case Unless(_, body, elseBody) =>
      FreeIsReferenced(body, bound);
      FreeIsReferenced(elseBody, bound);
    case For(varName, _, body, elseBody) =>
      FreeIsReferenced(body, bound + {varName, "forloop"});
      FreeIsReferenced(elseBody, bound);
    case _ =>
  }

  lemma {:induction false} FreeBranchesReferenced(branches: seq<Branch>, bound: set<string>)
    ensures forall x :: x in FreeBranches(branches, bound) ==> x in RefBranches(branches)
    decreases branches, 0
  {
    hide FreeBranch, RefBranch;
    if branches != [] {
      FreeBranchReferenced(branches[0], bound);
      FreeBranchesReferenced(branches[1..], bound);
    }
  }

  lemma {:induction false} FreeBranchReferenced(b: Branch, bound: set<string>)
    ensures forall x :: x in FreeBranch(b, bound) ==> x in RefBranch(b)
    decreases b, 1
  {
    hide FreeNodes, RefNodes, RefExpr;
    FreeIsReferenced(b.body, bound);
  }

  // So do maps that agree on every name the analysis reports as referenced.
  lemma Coincidence(lib: Library, nodes: seq<Node>, a: Vars, b: Vars)
    requires Agree(a, b, set x | x in RefNodes(nodes))
    ensures Render(lib, nodes, a) == Render(lib, nodes, b)
  {
    hide RenderNodes, RefNodes, FreeNodes;
    FreeIsReferenced(nodes, {});
    ScopedCoincidence(lib, nodes, a, b);
  }

  /// The published list of variables

  ghost predicate AgreeOnList(nodes: seq<Node>, a: Vars, b: Vars) {
    Agree(a, b, set x | x in Variables(nodes))
  }

  // A free name the list leaves out, because the template binds it elsewhere.
  predicate Unlisted(nodes: seq<Node>, x: string) {
    x in FreeNodes(nodes, {}) && (x in BoundNodes(nodes) || x == "forloop")
  }

  lemma ListedUnless(nodes: seq<Node>, x: string)
    requires x in FreeNodes(nodes, {})
    ensures x in Variables(nodes) <==> !Unlisted(nodes, x)
  {
    hide FreeNodes, RefNodes, BoundNodes;
    FreeIsReferenced(nodes, {});
  }

  // The list is enough when no name is read before the template binds it: loop
  // variables, forloop and names assigned first may be read freely.
  lemma VariablesSuffice(lib: Library, nodes: seq<Node>, a: Vars, b: Vars)
    requires forall x :: x in FreeNodes(nodes, {}) ==> x !in BoundNodes(nodes) && x != "forloop"
    requires AgreeOnList(nodes, a, b)
    ensures Render(lib, nodes, a) == Render(lib, nodes, b)
  {
    hide Render, FreeNodes, BoundNodes, Variables;
    forall x | x in FreeNodes(nodes, {}) ensures x in Variables(nodes) {
      ListedUnless(nodes, x);
    }
    ScopedCoincidence(lib, nodes, a, b);
  }

  // The outcome depends on x: two maps that differ there only are told apart.
  ghost predicate DependsOn(lib: Library, nodes: seq<Node>, x: string) {
    exists a: Vars, b: Vars :: a - {x} == b - {x} && Render(lib, nodes, a) != Render(lib, nodes, b)
  }

  // The list is enough exactly when no outcome depends on an unlisted name.
  lemma VariablesExact(lib: Library, nodes: seq<Node>)
    ensures (forall a: Vars, b: Vars :: AgreeOnList(nodes, a, b) ==> Render(lib, nodes, a) == Render(lib, nodes, b))
      <==> forall x :: Unlisted(nodes, x) ==> !DependsOn(lib, nodes, x)
  {
    hide Render, Unlisted, Variables;
    if forall x :: Unlisted(nodes, x) ==> !DependsOn(lib, nodes, x) {
      forall a: Vars, b: Vars | AgreeOnList(nodes, a, b) ensures Render(lib, nodes, a) == Render(lib, nodes, b) {
        OneByOne(lib, nodes, a, b, a.Keys + b.Keys);
      }
    }
    if forall a: Vars, b: Vars :: AgreeOnList(nodes, a, b) ==> Render(lib, nodes, a) == Render(lib, nodes, b) {
      forall x | Unlisted(nodes, x) ensures !DependsOn(lib, nodes, x) {
        forall a: Vars, b: Vars | a - {x} == b - {x} ensures Render(lib, nodes, a) == Render(lib, nodes, b) {
          UnlistedAgree(nodes, a, b, x);
        }
      }
    }
  }

  lemma UnlistedAgree(nodes: seq<Node>, a: Vars, b: Vars, x: string)
    requires Unlisted(nodes, x) && a - {x} == b - {x}
    ensures AgreeOnList(nodes, a, b)
  {
    ListedUnless(nodes, x);
    hide Variables, Unlisted;
    forall y | y in Variables(nodes) ensures (y in a <==> y in b) && (y in a ==> a[y] == b[y]) {
      assert (y in a - {x} <==> y in a) && (y in b - {x} <==> y in b);
      assert y in a ==> (a - {x})[y] == a[y];
      assert y in b ==> (b - {x})[y] == b[y];
    }
  }

  // `a` with what b says of x.
  function Switched(a: Vars, b: Vars, x: string): Vars {
    if x in b then a[x := b[x]] else a - {x}
  }

  // From a to b one name at a time: `left` holds those that may still differ.
  lemma {:induction false} OneByOne(lib: Library, nodes: seq<Node>, a: Vars, b: Vars, left: set<string>)
    requires AgreeOnList(nodes, a, b) && forall x :: Unlisted(nodes, x) ==> !DependsOn(lib, nodes, x)
    requires forall y :: y !in left ==> (y in a <==> y in b) && (y in a ==> a[y] == b[y])
    ensures Render(lib, nodes, a) == Render(lib, nodes, b)
    decreases left
  {
    hide Render, Unlisted, Variables;
    if left == {} {
      assert a == b;
    } else {
      var x :| x in left;
      var c := Switched(a, b, x);
      OneSwitch(lib, nodes, a, b, x);
      OneByOne(lib, nodes, c, b, left - {x});
    }
  }

  lemma OneSwitch(lib: Library, nodes: seq<Node>, a: Vars, b: Vars, x: string)
    requires AgreeOnList(nodes, a, b) && (Unlisted(nodes, x) ==> !DependsOn(lib, nodes, x))
    ensures Render(lib, nodes, a) == Render(lib, nodes, Switched(a, b, x))
    ensures AgreeOnList(nodes, Switched(a, b, x), b)
  {
    hide Render, Variables, Unlisted, FreeNodes;
    var c := Switched(a, b, x);
    assert a - {x} == c - {x};
    if x in FreeNodes(nodes, {}) {
      ListedUnless(nodes, x);
      if !Unlisted(nodes, x) { assert c == a; }
    } else {
      ScopedCoincidence(lib, nodes, a, c);
    }
  }

  /// Break and continue stay inside loops

  // A loop that runs at all ends normally or in an error.
  lemma {:induction false} LoopsContain(lib: Library, n: Node, items: seq<Value>, i: nat, globals: Vars,
      locals: seq<Vars>)
    requires n.For? && i <= |items|
    ensures var r := RenderItems(lib, n, items, i, globals, locals); r.signal.Done? || r.signal.Raised?
    decreases |items| - i
  {
    hide RenderNodes, Frame;
    if i < |items| {
      var a := RenderNodes(lib, n.body, globals, locals + [Frame(n.varName, items[i], i, |items|)]);
      LoopsContain(lib, n, items, i + 1, a.globals, locals);
    }
  }

  // So a break or continue leaves a loop only from its else body, when there
  // was nothing to loop over.
  lemma LoopLeaves(lib: Library, n: Node, globals: Vars, locals: seq<Vars>)
    requires n.For?
    ensures var source := EvalStrict(lib, n.source, globals, locals);
      !Stays(RenderNode(lib, n, globals, locals).signal) <==>
        (source.Ok? && Iterable(source.value) == [] && !Stays(RenderNodes(lib, n.elseBody, globals, locals).signal))
  {
    hide RenderNodes, RenderItems, EvalStrict, Iterable;
    var source := EvalStrict(lib, n.source, globals, locals);
    if source.Ok? {
      LoopsContain(lib, n, Iterable(source.value), 0, globals, locals);
    }
  }

  // No break or continue stands outside the bodies of the loops below.  The
  // else body of a loop is outside.
  predicate Scoped(nodes: seq<Node>)
    decreases nodes, 0
  {
    nodes == [] || (ScopedNode(nodes[0]) && Scoped(nodes[1..]))
  }

  predicate ScopedNode(n: Node)
    decreases n, 1
  {
    match n
    case If(branches, elseBody) => ScopedBranches(branches) && Scoped(elseBody)
    case Unless(_, body, elseBody) => Scoped(body) && Scoped(elseBody)
    case For(_, _, _, elseBody) => Scoped(elseBody)
    case Break => false
    case Continue => false
    case _ => true
  }

  predicate ScopedBranches(branches: seq<Branch>)
    decreases branches, 0
  {
    branches == [] || (ScopedBranch(branches[0]) && ScopedBranches(branches[1..]))
  }

  predicate ScopedBranch(b: Branch)
    decreases b, 1
  {
    Scoped(b.body)
  }

  predicate Stays(s: Signal) {
    s.Done? || s.Raised?
  }

  lemma {:induction false} ScopedStays(lib: Library, nodes: seq<Node>, globals: Vars, locals: seq<Vars>)
    requires Scoped(nodes)
    ensures Stays(RenderNodes(lib, nodes, globals, locals).signal)
    decreases nodes, 0
  {
    hide RenderNode, ScopedNode;
    if nodes != [] {
      ScopedNodeStays(lib, nodes[0], globals, locals);
      ScopedStays(lib, nodes[1..], RenderNode(lib, nodes[0], globals, locals).globals, locals);
    }
  }

  lemma {:induction false} ScopedNodeStays(lib: Library, n: Node, globals: Vars, locals: seq<Vars>)
    requires ScopedNode(n)
    ensures Stays(RenderNode(lib, n, globals, locals).signal)
    decreases n, 2
  {
    hide RenderNodes, RenderItems, RenderBranches, EvalOutput, Condition, EvalStrict, Iterable, Scoped;
    match n
    case If(branches, elseBody) =>
      assert branches[0..] == branches;
      ScopedBranchesStay(lib, n, 0, globals, locals);
    case Unless(_, body, elseBody) =>
      ScopedStays(lib, body, globals, locals);
      ScopedStays(lib, elseBody, globals, locals);
    case For(_, source, body, elseBody) =>
      ScopedStays(lib, elseBody, globals, locals);
      var v := EvalStrict(lib, source, globals, locals);
      if v.Ok? { LoopsContain(lib, n, Iterable(v.value), 0, globals, locals); }
    case _ =>
  }

  lemma {:induction false} ScopedBranchesStay(lib: Library, n: Node, i: nat, globals: Vars, locals: seq<Vars>)
    requires n.If? && i <= |n.branches| && ScopedBranches(n.branches[i..]) && Scoped(n.elseBody)
    ensures Stays(RenderBranches(lib, n, i, globals, locals).signal)
    decreases n, 1, |n.branches| - i
  {
    hide RenderNodes, Condition, Scoped;
    if i == |n.branches| {
      ScopedStays(lib, n.elseBody, globals, locals);
    } else {
      assert n.branches[i..][1..] == n.branches[i + 1..] && n.branches[i..][0] == n.branches[i];
      ScopedStays(lib, n.branches[i].body, globals, locals);
      ScopedBranchesStay(lib, n, i + 1, globals, locals);
    }
  }

  // So a template with its breaks inside loops never fails on one.
  lemma ScopedRenders(lib: Library, nodes: seq<Node>, vars: Vars)
    requires Scoped(nodes)
    ensures var r := RenderNodes(lib, nodes, vars, []);
      Render(lib, nodes, vars) == if r.signal.Raised? then Err(r.signal.error) else Ok(r.text)
  {
    ScopedStays(lib, nodes, vars, []);
    hide RenderNodes;
  }

  /// Missing names in conditions

  // Only the condition of the branch taken can report a missing name; those
  // before it may miss any, and so may all of them when none holds.
  lemma {:induction false} FirstHolding(lib: Library, n: Node, i: nat, k: nat, globals: Vars, locals: seq<Vars>)
    requires n.If? && i <= k <= |n.branches|
    requires forall j :: i <= j < k ==> !Condition(lib, n.branches[j].cond, globals, locals).0
    requires k < |n.branches| ==> Condition(lib, n.branches[k].cond, globals, locals).0
    ensures RenderBranches(lib, n, i, globals, locals) ==
      if k == |n.branches| then RenderNodes(lib, n.elseBody, globals, locals)
      else match Condition(lib, n.branches[k].cond, globals, locals).1
        case Some(name) => Rendering("", globals, Raised(Missing(name)))
        case None => RenderNodes(lib, n.branches[k].body, globals, locals)
    decreases k - i
  {
    hide Condition, RenderNodes;
    if i < k {
      FirstHolding(lib, n, i + 1, k, globals, locals);
    }
  }

  // A name read only by an if condition is reported when that branch is taken:
  // here by a comparison that holds because the name is missing.
  lemma TakenConditionReports(lib: Library)
    ensures var cond := Compare(Ne, Var("absent", [], "absent"), Lit(Str("x")));
      Render(lib, [If([Branch(cond, [Text("a")])], [])], map[]) == Err(Missing("absent"))
  {
    var cond := Compare(Ne, Var("absent", [], "absent"), Lit(Str("x")));
    var n := If([Branch(cond, [Text("a")])], []);
    assert Eval(lib, cond, map[], [], false) == Got(Bool(true), Some("absent")) by {
      assert Eval(lib, Var("absent", [], "absent"), map[], [], false) == Got(Nil, Some("absent"));
      assert Eval(lib, Lit(Str("x")), map[], [], false) == Got(Str("x"), None);
      assert !ValuesEqual(lib, Nil, Str("x"));
    }
    assert Condition(lib, cond, map[], []) == (true, Some("absent"));
    hide Eval, Condition;
    FirstHolding(lib, n, 0, 0, map[], []);
    assert RenderNode(lib, n, map[], []) == Rendering("", map[], Raised(Missing("absent")));
  }
}
