/**
 Which names a rendering comes to and does not find (internal/liquid): in
 outputs, assignments, loop sources and taken conditions, in subscripts and
 filter arguments, at any depth of nesting.
 */
module LiquidReads {
  import opened Options
  import opened LiquidSyntax
  import opened LiquidValues
  import opened LiquidSemantics
  import opened LiquidNames
  import opened LiquidLaws
  import LiquidRender

  // A name nothing has, and the display name of the path that reads it.
  datatype Miss = Miss(head: string, name: string)

  /// The name a strict reading stops at

  function MissExpr(lib: Library, e: Expr, globals: Vars, locals: seq<Vars>): Option<Miss>
    decreases e, 1
  {
    match e
    case Lit(_) => None
    case Var(head, rest, name) =>
      (match Lookup(globals, locals, head)
       case None => Some(Miss(head, name))
       case Some(cur) => MissPath(lib, rest, cur, globals, locals))
    case And(l, r) =>
      (match Eval(lib, l, globals, locals, true)
       case Failed(_) => MissExpr(lib, l, globals, locals)
       case Got(v, _) => if Truthy(v) then MissExpr(lib, r, globals, locals) else None)
    case Or(l, r) =>
      (match Eval(lib, l, globals, locals, true)
       case Failed(_) => MissExpr(lib, l, globals, locals)
       case Got(v, _) => if Truthy(v) then None else MissExpr(lib, r, globals, locals))
    case Compare(_, l, r) =>
      (match Eval(lib, l, globals, locals, true)
       case Failed(_) => MissExpr(lib, l, globals, locals)
       case Got(_, _) => MissExpr(lib, r, globals, locals))
  }

  function MissPath(lib: Library, segs: seq<Seg>, cur: Value, globals: Vars, locals: seq<Vars>): Option<Miss>
    decreases segs, 1
  {
    if segs == [] then None
    else match EvalKey(lib, segs[0], globals, locals, true)
      case Failed(_) => MissKey(lib, segs[0], globals, locals)
      case Got(key, _) =>
        match IndexValue(lib, cur, key)
        case None => None
        case Some(next) => MissPath(lib, segs[1..], next, globals, locals)
  }

  function MissKey(lib: Library, seg: Seg, globals: Vars, locals: seq<Vars>): Option<Miss>
    decreases seg, 0
  {
    if seg.Dyn? then MissExpr(lib, seg.e, globals, locals) else None
  }

  function MissArgs(lib: Library, args: seq<Expr>, globals: Vars, locals: seq<Vars>): Option<Miss> {
    if args == [] then None
    else if EvalStrict(lib, args[0], globals, locals).Err? then MissExpr(lib, args[0], globals, locals)
    else MissArgs(lib, args[1..], globals, locals)
  }

  function MissFilters(lib: Library, filters: seq<Filter>, v: Value, globals: Vars, locals: seq<Vars>): Option<Miss> {
    if filters == [] then None
    else match EvalArgs(lib, filters[0].args, globals, locals)
      case Err(_) => MissArgs(lib, filters[0].args, globals, locals)
      case Ok(args) =>
        match Filtered(lib, filters[0].name, v, args)
        case Err(_) => None
        case Ok(next) => MissFilters(lib, filters[1..], next, globals, locals)
  }

  function MissOutput(lib: Library, o: Output, globals: Vars, locals: seq<Vars>): Option<Miss> {
    match EvalStrict(lib, o.base, globals, locals)
    case Err(_) => MissExpr(lib, o.base, globals, locals)
    case Ok(v) => MissFilters(lib, o.filters, v, globals, locals)
  }

  /// The name a rendering stops at

  function MissNodes(lib: Library, nodes: seq<Node>, globals: Vars, locals: seq<Vars>): Option<Miss>
    decreases nodes, 0
  {
    if nodes == [] then None
    else
      var a := RenderNode(lib, nodes[0], globals, locals);
      if a.signal.Done? then MissNodes(lib, nodes[1..], a.globals, locals)
      else MissNode(lib, nodes[0], globals, locals)
  }

  function MissNode(lib: Library, n: Node, globals: Vars, locals: seq<Vars>): Option<Miss>
    decreases n, 2
  {
    match n
    case Out(o) => MissOutput(lib, o, globals, locals)
    case Assign(_, o) => MissOutput(lib, o, globals, locals)
    case If(_, _) => MissBranches(lib, n, 0, globals, locals)
    case Unless(cond, body, elseBody) =>
      var (holds, missing) := Condition(lib, cond, globals, locals);
      if holds then MissNodes(lib, elseBody, globals, locals)
      else if missing.Some? then MissExpr(lib, cond, globals, locals)
      else MissNodes(lib, body, globals, locals)
    case For(_, source, _, elseBody) =>
      (match EvalStrict(lib, source, globals, locals)
       case Err(_) => MissExpr(lib, source, globals, locals)
       case Ok(v) =>
         if Iterable(v) == [] then MissNodes(lib, elseBody, globals, locals)
         else MissItems(lib, n, Iterable(v), 0, globals, locals))
    case _ => None
  }

  function MissBranches(lib: Library, n: Node, i: nat, globals: Vars, locals: seq<Vars>): Option<Miss>
    requires n.If? && i <= |n.branches|
    decreases n, 1, |n.branches| - i
  {
    if i == |n.branches| then MissNodes(lib, n.elseBody, globals, locals)
    else
      var (holds, missing) := Condition(lib, n.branches[i].cond, globals, locals);
      if !holds then MissBranches(lib, n, i + 1, globals, locals)
      else if missing.Some? then MissExpr(lib, n.branches[i].cond, globals, locals)
      else MissNodes(lib, n.branches[i].body, globals, locals)
  }

  function MissItems(lib: Library, n: Node, items: seq<Value>, i: nat, globals: Vars, locals: seq<Vars>): Option<Miss>
    requires n.For? && i <= |items|
    decreases n, 1, |items| - i
  {
    if i == |items| then None
    else
      var inner := locals + [Frame(n.varName, items[i], i, |items|)];
      var a := RenderNodes(lib, n.body, globals, inner);
      if a.signal.Broke? then None
      else if a.signal.Raised? then MissNodes(lib, n.body, globals, inner)
      else MissItems(lib, n, items, i + 1, a.globals, locals)
  }

  /// Stopping there is an error that shows the name

  lemma {:induction false} ExprFails(lib: Library, e: Expr, globals: Vars, locals: seq<Vars>)
    ensures var m := MissExpr(lib, e, globals, locals);
      m.Some? ==> Eval(lib, e, globals, locals, true) == Failed(m.value.name)
    decreases e, 1
  {
    hide Lookup, IndexValue, Compared, EvalPath, MissPath;
    match e
    case Lit(_) =>
    case Var(head, rest, _) =>
      var cur := Lookup(globals, locals, head);
      if cur.Some? { PathFails(lib, rest, cur.value, globals, locals); }
    case And(l, r) =>
      ExprFails(lib, l, globals, locals);
      ExprFails(lib, r, globals, locals);
    case Or(l, r) =>
      ExprFails(lib, l, globals, locals);
      ExprFails(lib, r, globals, locals);
    case Compare(_, l, r) =>
      ExprFails(lib, l, globals, locals);
      ExprFails(lib, r, globals, locals);
  }

  lemma {:induction false} PathFails(lib: Library, segs: seq<Seg>, cur: Value, globals: Vars, locals: seq<Vars>)
    ensures var m := MissPath(lib, segs, cur, globals, locals);
      m.Some? ==> EvalPath(lib, segs, cur, globals, locals, true) == PathFailed(m.value.name)
    decreases segs, 1
  {
    hide IndexValue, EvalKey, MissKey;
    if segs != [] {
      KeyFails(lib, segs[0], globals, locals);
      var k := EvalKey(lib, segs[0], globals, locals, true);
      if k.Got? {
        var next := IndexValue(lib, cur, k.v);
        if next.Some? { PathFails(lib, segs[1..], next.value, globals, locals); }
      }
    }
  }

  lemma {:induction false} KeyFails(lib: Library, seg: Seg, globals: Vars, locals: seq<Vars>)
    ensures var m := MissKey(lib, seg, globals, locals);
      m.Some? ==> EvalKey(lib, seg, globals, locals, true) == Failed(m.value.name)
    decreases seg, 0
  {
    if seg.Dyn? { ExprFails(lib, seg.e, globals, locals); }
  }

  lemma StrictFails(lib: Library, e: Expr, globals: Vars, locals: seq<Vars>)
    ensures var m := MissExpr(lib, e, globals, locals);
      m.Some? ==> EvalStrict(lib, e, globals, locals) == Err(Missing(m.value.name))
  {
    hide Eval, MissExpr;
    ExprFails(lib, e, globals, locals);
  }

  lemma {:induction false} ArgsFail(lib: Library, args: seq<Expr>, globals: Vars, locals: seq<Vars>)
    ensures var m := MissArgs(lib, args, globals, locals);
      m.Some? ==> EvalArgs(lib, args, globals, locals) == Err(Missing(m.value.name))
  {
    hide EvalStrict, MissExpr;
    if args != [] {
      StrictFails(lib, args[0], globals, locals);
      ArgsFail(lib, args[1..], globals, locals);
    }
  }

  lemma {:induction false} FiltersFail(lib: Library, filters: seq<Filter>, v: Value, globals: Vars, locals: seq<Vars>)
    ensures var m := MissFilters(lib, filters, v, globals, locals);
      m.Some? ==> EvalFilters(lib, filters, v, globals, locals) == Err(Missing(m.value.name))
  {
    hide EvalArgs, MissArgs, Filtered;
    if filters != [] {
      ArgsFail(lib, filters[0].args, globals, locals);
      var args := EvalArgs(lib, filters[0].args, globals, locals);
      if args.Ok? {
        var next := Filtered(lib, filters[0].name, v, args.value);
        if next.Ok? { FiltersFail(lib, filters[1..], next.value, globals, locals); }
      }
    }
  }

  lemma OutputFails(lib: Library, o: Output, globals: Vars, locals: seq<Vars>)
    ensures var m := MissOutput(lib, o, globals, locals);
      m.Some? ==> EvalOutput(lib, o, globals, locals) == Err(Missing(m.value.name))
  {
    hide EvalStrict, EvalFilters, MissExpr, MissFilters;
    StrictFails(lib, o.base, globals, locals);
    var v := EvalStrict(lib, o.base, globals, locals);
    if v.Ok? { FiltersFail(lib, o.filters, v.value, globals, locals); }
  }

  // A condition reports what a strict reading of it stops at.
  lemma ConditionReports(lib: Library, cond: Expr, globals: Vars, locals: seq<Vars>)
    ensures var m, missing := MissExpr(lib, cond, globals, locals), Condition(lib, cond, globals, locals).1;
      m.Some? && missing.Some? ==> missing == Some(m.value.name)
  {
    hide Eval, MissExpr;
    ExprFails(lib, cond, globals, locals);
    LiquidRender.EvalModes(lib, cond, globals, locals);
  }

  lemma {:induction false} NodesFail(lib: Library, nodes: seq<Node>, globals: Vars, locals: seq<Vars>)
    ensures var m := MissNodes(lib, nodes, globals, locals);
      m.Some? ==> RenderNodes(lib, nodes, globals, locals).signal == Raised(Missing(m.value.name))
    decreases nodes, 0
  {
    hide RenderNode, MissNode;
    if nodes != [] {
      NodeFails(lib, nodes[0], globals, locals);
      var a := RenderNode(lib, nodes[0], globals, locals);
      if a.signal.Done? { NodesFail(lib, nodes[1..], a.globals, locals); }
    }
  }

  lemma {:induction false} NodeFails(lib: Library, n: Node, globals: Vars, locals: seq<Vars>)
    ensures var m := MissNode(lib, n, globals, locals);
      m.Some? ==> RenderNode(lib, n, globals, locals).signal == Raised(Missing(m.value.name))
    decreases n, 2
  {
    hide RenderNodes, RenderBranches, RenderItems, MissNodes, MissBranches, MissItems, MissOutput, MissExpr;
    hide EvalOutput, EvalStrict, Condition, Iterable;
    match n
    case Out(o) => OutputFails(lib, o, globals, locals);
    case Assign(_, o) => OutputFails(lib, o, globals, locals);
    case If(_, _) => BranchesFail(lib, n, 0, globals, locals);
    case Unless(cond, body, elseBody) =>
      ConditionReports(lib, cond, globals, locals);
      NodesFail(lib, body, globals, locals);
      NodesFail(lib, elseBody, globals, locals);
    case For(_, source, _, elseBody) =>
      StrictFails(lib, source, globals, locals);
      NodesFail(lib, elseBody, globals, locals);
      var v := EvalStrict(lib, source, globals, locals);
      if v.Ok? { ItemsFail(lib, n, Iterable(v.value), 0, globals, locals); }
    case _ =>
  }

  lemma {:induction false} BranchesFail(lib: Library, n: Node, i: nat, globals: Vars, locals: seq<Vars>)
    requires n.If? && i <= |n.branches|
    ensures var m := MissBranches(lib, n, i, globals, locals);
      m.Some? ==> RenderBranches(lib, n, i, globals, locals).signal == Raised(Missing(m.value.name))
    decreases n, 1, |n.branches| - i
  {
    hide RenderNodes, MissNodes, MissExpr, Condition;
    if i == |n.branches| {
      NodesFail(lib, n.elseBody, globals, locals);
    } else {
      ConditionReports(lib, n.branches[i].cond, globals, locals);
      NodesFail(lib, n.branches[i].body, globals, locals);
      BranchesFail(lib, n, i + 1, globals, locals);
    }
  }

  lemma {:induction false} ItemsFail(
    lib: Library, n: Node, items: seq<Value>, i: nat, globals: Vars, locals: seq<Vars>)
    requires n.For? && i <= |items|
    ensures var m := MissItems(lib, n, items, i, globals, locals);
      m.Some? ==> RenderItems(lib, n, items, i, globals, locals).signal == Raised(Missing(m.value.name))
    decreases n, 1, |items| - i
  {
    hide RenderNodes, MissNodes, Frame;
    if i < |items| {
      var inner := locals + [Frame(n.varName, items[i], i, |items|)];
      NodesFail(lib, n.body, globals, inner);
      var a := RenderNodes(lib, n.body, globals, inner);
      ItemsFail(lib, n, items, i + 1, a.globals, locals);
    }
  }

  /// What a rendering has bound stays there

  lemma {:induction false} NodesBind(lib: Library, nodes: seq<Node>, globals: Vars, locals: seq<Vars>)
    ensures var r := RenderNodes(lib, nodes, globals, locals);
      globals.Keys <= r.globals.Keys && (r.signal.Done? ==> BindsAll(nodes) <= r.globals.Keys)
    decreases nodes, 0
  {
    hide RenderNode, Binds;
    if nodes != [] {
      NodeBinds(lib, nodes[0], globals, locals);
      var a := RenderNode(lib, nodes[0], globals, locals);
      if a.signal.Done? { NodesBind(lib, nodes[1..], a.globals, locals); }
    }
  }

  lemma {:induction false} NodeBinds(lib: Library, n: Node, globals: Vars, locals: seq<Vars>)
    ensures var r := RenderNode(lib, n, globals, locals);
      globals.Keys <= r.globals.Keys && (r.signal.Done? ==> Binds(n) <= r.globals.Keys)
    decreases n, 2
  {
    hide RenderNodes, RenderBranches, RenderItems, EvalOutput, EvalStrict, Condition, Iterable, BindsAll, BindsFrom;
    match n
    case If(_, _) => BranchesBind(lib, n, 0, globals, locals);
    case Unless(_, body, elseBody) =>
      NodesBind(lib, body, globals, locals);
      NodesBind(lib, elseBody, globals, locals);
    case For(_, source, _, elseBody) =>
      NodesBind(lib, elseBody, globals, locals);
      var v := EvalStrict(lib, source, globals, locals);
      if v.Ok? { ItemsKeep(lib, n, Iterable(v.value), 0, globals, locals); }
    case _ =>
  }

  lemma {:induction false} BranchesBind(lib: Library, n: Node, i: nat, globals: Vars, locals: seq<Vars>)
    requires n.If? && i <= |n.branches|
    ensures var r := RenderBranches(lib, n, i, globals, locals);
      globals.Keys <= r.globals.Keys && (r.signal.Done? ==> BindsFrom(n, i) <= r.globals.Keys)
    decreases n, 1, |n.branches| - i
  {
    hide RenderNodes, Condition, BindsAll;
    if i == |n.branches| {
      NodesBind(lib, n.elseBody, globals, locals);
    } else {
      NodesBind(lib, n.branches[i].body, globals, locals);
      BranchesBind(lib, n, i + 1, globals, locals);
    }
  }

  lemma {:induction false} ItemsKeep(
    lib: Library, n: Node, items: seq<Value>, i: nat, globals: Vars, locals: seq<Vars>)
    requires n.For? && i <= |items|
    ensures globals.Keys <= RenderItems(lib, n, items, i, globals, locals).globals.Keys
    decreases n, 1, |items| - i
  {
    hide RenderNodes, Frame;
    if i < |items| {
      var inner := locals + [Frame(n.varName, items[i], i, |items|)];
      NodesBind(lib, n.body, globals, inner);
      ItemsKeep(lib, n, items, i + 1, RenderNodes(lib, n.body, globals, inner).globals, locals);
    }
  }

  /// Only free names are missed

  // Every bound name has a value.
  ghost predicate Given(bound: set<string>, globals: Vars, locals: seq<Vars>) {
    forall x :: x in bound ==> x in globals || InFrames(x, locals)
  }

  // The name missed is read there and has no value.
  ghost predicate Absent(m: Option<Miss>, refs: seq<string>, globals: Vars, locals: seq<Vars>) {
    m.Some? ==> m.value.head in refs && m.value.head !in globals && !InFrames(m.value.head, locals)
  }

  lemma AbsentIn(m: Option<Miss>, refs: seq<string>, more: seq<string>, globals: Vars, locals: seq<Vars>)
    requires Absent(m, refs, globals, locals) && forall x :: x in refs ==> x in more
    ensures Absent(m, more, globals, locals)
  {
    hide InFrames;
  }

  lemma {:induction false} LookupNone(globals: Vars, locals: seq<Vars>, name: string)
    ensures Lookup(globals, locals, name) == None ==> name !in globals && !InFrames(name, locals)
  {
    if locals != [] && name !in locals[|locals| - 1] {
      LookupNone(globals, locals[..|locals| - 1], name);
      if InFrames(name, locals) {
        var i :| 0 <= i < |locals| && name in locals[i];
        assert locals[..|locals| - 1][i] == locals[i];
      }
    }
  }

  lemma {:induction false} ExprAbsent(lib: Library, e: Expr, globals: Vars, locals: seq<Vars>)
    ensures Absent(MissExpr(lib, e, globals, locals), RefExpr(e), globals, locals)
    decreases e, 1
  {
    hide Lookup, InFrames, Eval, MissPath, RefSegs;
    match e
    case Lit(_) =>
    case Var(head, rest, _) =>
      LookupNone(globals, locals, head);
      var cur := Lookup(globals, locals, head);
      if cur.Some? { PathAbsent(lib, rest, cur.value, globals, locals); }
    case And(l, r) =>
      ExprAbsent(lib, l, globals, locals);
      ExprAbsent(lib, r, globals, locals);
    case Or(l, r) =>
      ExprAbsent(lib, l, globals, locals);
      ExprAbsent(lib, r, globals, locals);
    case Compare(_, l, r) =>
      ExprAbsent(lib, l, globals, locals);
      ExprAbsent(lib, r, globals, locals);
  }

  lemma {:induction false} PathAbsent(lib: Library, segs: seq<Seg>, cur: Value, globals: Vars, locals: seq<Vars>)
    ensures Absent(MissPath(lib, segs, cur, globals, locals), RefSegs(segs), globals, locals)
    decreases segs, 1
  {
    hide InFrames, IndexValue, EvalKey, MissKey, RefSeg;
    if segs != [] {
      KeyAbsent(lib, segs[0], globals, locals);
      var k := EvalKey(lib, segs[0], globals, locals, true);
      if k.Got? {
        var next := IndexValue(lib, cur, k.v);
        if next.Some? { PathAbsent(lib, segs[1..], next.value, globals, locals); }
      }
    }
  }

  lemma {:induction false} KeyAbsent(lib: Library, seg: Seg, globals: Vars, locals: seq<Vars>)
    ensures Absent(MissKey(lib, seg, globals, locals), RefSeg(seg), globals, locals)
    decreases seg, 0
  {
    hide InFrames;
    if seg.Dyn? { ExprAbsent(lib, seg.e, globals, locals); }
  }

  lemma {:induction false} ArgsAbsent(lib: Library, args: seq<Expr>, globals: Vars, locals: seq<Vars>)
    ensures Absent(MissArgs(lib, args, globals, locals), RefArgs(args), globals, locals)
  {
    hide InFrames, EvalStrict, MissExpr, RefExpr;
    if args != [] {
      ExprAbsent(lib, args[0], globals, locals);
      ArgsAbsent(lib, args[1..], globals, locals);
    }
  }

  lemma {:induction false} FiltersAbsent(lib: Library, filters: seq<Filter>, v: Value, globals: Vars, locals: seq<Vars>)
    ensures Absent(MissFilters(lib, filters, v, globals, locals), RefFilters(filters), globals, locals)
  {
    hide InFrames, EvalArgs, MissArgs, Filtered, RefArgs;
    if filters != [] {
      ArgsAbsent(lib, filters[0].args, globals, locals);
      var args := EvalArgs(lib, filters[0].args, globals, locals);
      if args.Ok? {
        var next := Filtered(lib, filters[0].name, v, args.value);
        if next.Ok? { FiltersAbsent(lib, filters[1..], next.value, globals, locals); }
      }
    }
  }

  lemma OutputAbsent(lib: Library, o: Output, globals: Vars, locals: seq<Vars>)
    ensures Absent(MissOutput(lib, o, globals, locals), RefOutput(o), globals, locals)
  {
    hide InFrames, EvalStrict, MissExpr, MissFilters, RefExpr, RefFilters;
    ExprAbsent(lib, o.base, globals, locals);
    var v := EvalStrict(lib, o.base, globals, locals);
    if v.Ok? { FiltersAbsent(lib, o.filters, v.value, globals, locals); }
  }

  // Where the rendering stops at a name, the name is free there, and none of
  // the variables it started from has it.
  ghost predicate Free(m: Option<Miss>, free: set<string>, globals: Vars) {
    m.Some? ==> m.value.head in free && m.value.head !in globals
  }

  lemma FreeHere(m: Option<Miss>, refs: seq<string>, bound: set<string>, globals: Vars, locals: seq<Vars>)
    requires Absent(m, refs, globals, locals) && Given(bound, globals, locals)
    ensures Free(m, Unbound(refs, bound), globals)
  {
    hide InFrames;
  }

  lemma FreeIn(m: Option<Miss>, free: set<string>, globals: Vars, more: set<string>, fewer: Vars)
    requires Free(m, free, globals) && free <= more && fewer.Keys <= globals.Keys
    ensures Free(m, more, fewer)
  {
  }

  lemma GivenMore(bound: set<string>, globals: Vars, locals: seq<Vars>, more: set<string>, after: Vars)
    requires Given(bound, globals, locals) && globals.Keys + more <= after.Keys
    ensures Given(bound + more, after, locals)
  {
    hide InFrames;
  }

  lemma {:induction false} NodesMiss(
    lib: Library, nodes: seq<Node>, globals: Vars, locals: seq<Vars>, bound: set<string>)
    requires Given(bound, globals, locals)
    ensures Free(MissNodes(lib, nodes, globals, locals), FreeNodes(nodes, bound), globals)
    decreases nodes, 0
  {
    hide RenderNode, MissNode, FreeNode, Given, Binds, Free;
    var m := MissNodes(lib, nodes, globals, locals);
    if nodes == [] {
      FreeNone(FreeNodes(nodes, bound), globals);
    } else {
      var n := nodes[0];
      var a := RenderNode(lib, n, globals, locals);
      if a.signal.Done? {
        NodeBinds(lib, n, globals, locals);
        GivenMore(bound, globals, locals, Binds(n), a.globals);
        NodesMiss(lib, nodes[1..], a.globals, locals, bound + Binds(n));
        FreeIn(m, FreeNodes(nodes[1..], bound + Binds(n)), a.globals, FreeNodes(nodes, bound), globals);
      } else {
        NodeMiss(lib, n, globals, locals, bound);
        FreeIn(m, FreeNode(n, bound), globals, FreeNodes(nodes, bound), globals);
      }
    }
  }

  lemma FreeNone(free: set<string>, globals: Vars)
    ensures Free(None, free, globals)
  {
  }

  lemma {:induction false} NodeMiss(lib: Library, n: Node, globals: Vars, locals: seq<Vars>, bound: set<string>)
    requires Given(bound, globals, locals)
    ensures Free(MissNode(lib, n, globals, locals), FreeNode(n, bound), globals)
    decreases n, 2
  {
    hide MissNodes, MissBranches, MissItems, MissOutput, MissExpr, RefOutput, RefExpr, Unbound, FreeNodes;
    hide FreeBranches, EvalStrict, Condition, Iterable, Given, Absent;
    match n
    case Out(o) =>
      OutputAbsent(lib, o, globals, locals);
      FreeHere(MissOutput(lib, o, globals, locals), RefOutput(o), bound, globals, locals);
    case Assign(_, o) =>
      OutputAbsent(lib, o, globals, locals);
      FreeHere(MissOutput(lib, o, globals, locals), RefOutput(o), bound, globals, locals);
    case If(branches, _) =>
      assert branches[0..] == branches;
      BranchesMiss(lib, n, 0, globals, locals, bound);
    case Unless(cond, body, elseBody) =>
      ExprAbsent(lib, cond, globals, locals);
      FreeHere(MissExpr(lib, cond, globals, locals), RefExpr(cond), bound, globals, locals);
      NodesMiss(lib, body, globals, locals, bound);
      NodesMiss(lib, elseBody, globals, locals, bound);
    case For(_, source, _, elseBody) =>
      ExprAbsent(lib, source, globals, locals);
      FreeHere(MissExpr(lib, source, globals, locals), RefExpr(source), bound, globals, locals);
      NodesMiss(lib, elseBody, globals, locals, bound);
      var v := EvalStrict(lib, source, globals, locals);
      if v.Ok? { ItemsMiss(lib, n, Iterable(v.value), 0, globals, locals, bound); }
    case _ =>
  }

  lemma {:induction false} BranchesMiss(
    lib: Library, n: Node, i: nat, globals: Vars, locals: seq<Vars>, bound: set<string>)
    requires n.If? && i <= |n.branches| && Given(bound, globals, locals)
    ensures Free(MissBranches(lib, n, i, globals, locals),
                 FreeBranches(n.branches[i..], bound) + FreeNodes(n.elseBody, bound), globals)
    decreases n, 1, |n.branches| - i
  {
    hide MissNodes, MissExpr, Condition, Given, Absent, Unbound, RefExpr, FreeNodes;
    if i == |n.branches| {
      NodesMiss(lib, n.elseBody, globals, locals, bound);
    } else {
      var br := n.branches[i];
      assert n.branches[i..][1..] == n.branches[i + 1..] && n.branches[i..][0] == br;
      ExprAbsent(lib, br.cond, globals, locals);
      FreeHere(MissExpr(lib, br.cond, globals, locals), RefExpr(br.cond), bound, globals, locals);
      NodesMiss(lib, br.body, globals, locals, bound);
      BranchesMiss(lib, n, i + 1, globals, locals, bound);
    }
  }

  lemma {:induction false} ItemsMiss(
    lib: Library, n: Node, items: seq<Value>, i: nat, globals: Vars, locals: seq<Vars>, bound: set<string>)
    requires n.For? && i <= |items| && Given(bound, globals, locals)
    ensures Free(MissItems(lib, n, items, i, globals, locals), FreeNodes(n.body, bound + {n.varName, "forloop"}),
                 globals)
    decreases n, 1, |items| - i
  {
    hide MissNodes, Given, FreeNodes, RenderNodes, Frame;
    if i < |items| {
      var inner := locals + [Frame(n.varName, items[i], i, |items|)];
      var a := RenderNodes(lib, n.body, globals, inner);
      FrameGives(n.varName, items, i, globals, locals, bound);
      NodesMiss(lib, n.body, globals, inner, bound + {n.varName, "forloop"});
      NodesBind(lib, n.body, globals, inner);
      GivenMore(bound, globals, locals, {}, a.globals);
      assert bound + {} == bound;
      ItemsMiss(lib, n, items, i + 1, a.globals, locals, bound);
    }
  }

  lemma FrameGives(varName: string, items: seq<Value>, i: nat, globals: Vars, locals: seq<Vars>, bound: set<string>)
    requires i < |items| && Given(bound, globals, locals)
    ensures Given(bound + {varName, "forloop"}, globals, locals + [Frame(varName, items[i], i, |items|)])
  {
    hide Frame, InFrames;
    FrameBacks(varName, items, i, locals, globals.Keys, bound);
  }

  // What a rendering stops at is a free name it was not given, and its error
  // shows that name.
  lemma MissIsFree(lib: Library, nodes: seq<Node>, vars: Vars)
    ensures var m := MissNodes(lib, nodes, vars, []);
      m.Some? ==>
        && Render(lib, nodes, vars) == Err(Missing(m.value.name))
        && m.value.head in FreeNodes(nodes, {}) && m.value.head !in vars
  {
    hide MissNodes, RenderNodes, FreeNodes;
    NodesFail(lib, nodes, vars, []);
    NodesMiss(lib, nodes, vars, [], {});
  }

  // So a caller that gives every free name misses none.
  lemma FreeNamesSuffice(lib: Library, nodes: seq<Node>, vars: Vars)
    requires FreeNodes(nodes, {}) <= vars.Keys
    ensures MissNodes(lib, nodes, vars, []) == None
  {
    hide MissNodes, FreeNodes, Render;
    MissIsFree(lib, nodes, vars);
  }

  // A name the rendering stops at, bound somewhere else in the template, is not
  // listed and has to be given all the same.
  lemma ReadUnlisted(lib: Library, nodes: seq<Node>, vars: Vars, m: Miss)
    requires MissNodes(lib, nodes, vars, []) == Some(m) && (m.head in BoundNodes(nodes) || m.head == "forloop")
    ensures m.head !in Variables(nodes) && Unlisted(nodes, m.head) && m.head !in vars
    ensures Render(lib, nodes, vars) == Err(Missing(m.name))
  {
    hide MissNodes, FreeNodes, BoundNodes, RefNodes, Render;
    MissIsFree(lib, nodes, vars);
  }

  // So a template may list no variable and depend on one: x is read, then
  // assigned.
  lemma VariablesUndercount(lib: Library)
    ensures var x := Output(Var("x", [], "x"), []);
      var nodes := [Out(x), Assign("x", Output(Lit(Nil), []))];
      && Variables(nodes) == [] && Render(lib, nodes, map[]) == Err(Missing("x"))
      && Render(lib, nodes, map["x" := Str("1")]) == Ok("1") && Render(lib, nodes, map["x" := Str("2")]) == Ok("2")
  {
    var x := Output(Var("x", [], "x"), []);
    var last := Assign("x", Output(Lit(Nil), []));
    var nodes := [Out(x), last];
    assert nodes[1..] == [last];
    OneNode(last);
    assert RefNode(Out(x)) == ["x"] && RefNode(last) == [] && BoundNode(Out(x)) == {} && BoundNode(last) == {"x"} by {
      assert RefExpr(x.base) == ["x"];
      hide RefNodes, BoundNodes;
    }
    assert RefNodes(nodes) == ["x"] && BoundNodes(nodes) == {"x"} by { hide RefNode, BoundNode; }
    OneThenAssign(lib, "1");
    OneThenAssign(lib, "2");
    MissesFirst(lib, last);
    hide RefNodes, BoundNodes, Render, RenderNodes, MissNodes;
    ReadUnlisted(lib, nodes, map[], Miss("x", "x"));
    assert (set y | y in RefNodes(nodes) && y !in BoundNodes(nodes) && y != "forloop") == {};
  }

  lemma MissesFirst(lib: Library, last: Node)
    ensures MissNodes(lib, [Out(Output(Var("x", [], "x"), [])), last], map[], []) == Some(Miss("x", "x"))
  {
    var x := Output(Var("x", [], "x"), []);
    assert EvalOutput(lib, x, map[], []) == Err(Missing("x"));
    assert MissOutput(lib, x, map[], []) == Some(Miss("x", "x"));
    hide EvalOutput, MissOutput;
  }

  lemma OneNode(n: Node)
    ensures RefNodes([n]) == RefNode(n) && BoundNodes([n]) == BoundNode(n)
  {
    hide RefNode, BoundNode;
    assert [n][1..] == [] && RefNode(n) + [] == RefNode(n);
  }

  lemma OneThenAssign(lib: Library, s: string)
    ensures Render(lib, [Out(Output(Var("x", [], "x"), [])), Assign("x", Output(Lit(Nil), []))], map["x" := Str(s)])
      == Ok(s)
  {
    var x := Out(Output(Var("x", [], "x"), []));
    var last := Assign("x", Output(Lit(Nil), []));
    var g: Vars := map["x" := Str(s)];
    assert Eval(lib, x.expr.base, g, [], true) == Got(Str(s), None);
    assert EvalOutput(lib, x.expr, g, []) == Ok(Str(s));
    assert RenderNode(lib, x, g, []) == Rendering(s, g, Done);
    assert EvalOutput(lib, last.expr, g, []) == Ok(Nil);
    assert [x, last][1..] == [last] && [last][1..] == [];
    assert RenderNode(lib, last, g, []) == Rendering("", g["x" := Nil], Done);
    assert RenderNodes(lib, [last], g, []) == Rendering("" + "", g["x" := Nil], Done);
    assert RenderNodes(lib, [x, last], g, []) == Rendering(s + "", g["x" := Nil], Done) by {
      hide RenderNode;
    }
    assert s + "" == s;
  }
}
