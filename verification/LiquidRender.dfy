/**
 The renderer of internal/liquid/render.go: a scope with a stack of frames,
 assignable globals and a slot for a pending missing variable, an output
 builder, and break and continue travelling as errors.  Every method computes
 what LiquidSemantics says, and leaves the stack and the slot as it found them.
 */
module LiquidRender {
  import opened Options
  import opened LiquidSyntax
  import opened LiquidValues
  import opened LiquidSemantics

  class Builder {
    var text: string

    constructor ()
      ensures text == ""
    {
      text := "";
    }

    method Write(s: string)
      modifies this
      ensures text == old(text) + s
    {
      text := text + s;
    }
  }

  class Scope {
    var globals: Vars
    var locals: seq<Vars>
    var pending: Option<Error>

    constructor (vars: Vars)
      ensures globals == vars && locals == [] && pending == None
    {
      globals, locals, pending := vars, [], None;
    }

    method Push(frame: Vars)
      modifies this`locals
      ensures locals == old(locals) + [frame]
    {
      locals := locals + [frame];
    }

    method Pop()
      requires locals != []
      modifies this`locals
      ensures locals == old(locals)[..|old(locals)| - 1]
    {
      locals := locals[..|locals| - 1];
    }

    method LookupName(name: string) returns (v: Option<Value>)
      ensures v == Lookup(globals, locals, name)
    {
      var i := |locals|;
      assert locals[..i] == locals;
      while i > 0
        invariant i <= |locals|
        invariant Lookup(globals, locals, name) == Lookup(globals, locals[..i], name)
      {
        i := i - 1;
        assert locals[..i + 1][..i] == locals[..i];
        if name in locals[i] {
          return Some(locals[i][name]);
        }
      }
      return if name in globals then Some(globals[name]) else None;
    }

    method Assign(name: string, v: Value)
      modifies this`globals
      ensures globals == old(globals)[name := v]
    {
      globals := globals[name := v];
    }

    method TakePending() returns (p: Option<Error>)
      modifies this`pending
      ensures p == old(pending) && pending == None
    {
      p := pending;
      pending := None;
    }
  }

  // The sentinels and the errors a node can return.
  datatype Thrown = BreakErr | ContinueErr | TemplateErr(error: Error)

  function Thrower(s: Signal): Option<Thrown> {
    match s
    case Done => None
    case Broke => Some(BreakErr)
    case Continued => Some(ContinueErr)
    case Raised(error) => Some(TemplateErr(error))
  }

  // The pending slot after meeting `missing`: the first name stays.
  function Pend(p: Option<Error>, missing: Option<string>): Option<Error> {
    if p.Some? then p else if missing.Some? then Some(Missing(missing.value)) else None
  }

  /// The two readings: strict raises what lenient collects

  // A lenient reading never fails; it misses nothing just when the strict
  // reading succeeds, and then the two are one; otherwise the strict reading
  // fails with the first name the lenient one missed.
  ghost predicate SameReading(strict: Evaluation, lenient: Evaluation) {
    && lenient.Got?
    && match strict
       case Got(_, missing) => missing == None && lenient == strict
       case Failed(name) => lenient.missing == Some(name)
  }

  ghost predicate SamePath(strict: PathResult, lenient: PathResult) {
    && !lenient.PathFailed?
    && match strict
       case PathFailed(name) => lenient.missing == Some(name)
       case _ => strict.missing == None && lenient == strict
  }

  lemma {:induction false} EvalModes(lib: Library, e: Expr, globals: Vars, locals: seq<Vars>)
    ensures SameReading(Eval(lib, e, globals, locals, true), Eval(lib, e, globals, locals, false))
    decreases e, 1
  {
    hide IndexValue, Compared, Lookup, EvalPath;
    match e
    case Lit(_) =>
    case Var(head, rest, name) =>
      var cur := Lookup(globals, locals, head);
      if cur.Some? { PathModes(lib, rest, cur.value, globals, locals); }
    case And(l, r) =>
      EvalModes(lib, l, globals, locals);
      EvalModes(lib, r, globals, locals);
    case Or(l, r) =>
      EvalModes(lib, l, globals, locals);
      EvalModes(lib, r, globals, locals);
    case Compare(op, l, r) =>
      EvalModes(lib, l, globals, locals);
      EvalModes(lib, r, globals, locals);
  }

  lemma {:induction false} PathModes(lib: Library, segs: seq<Seg>, cur: Value, globals: Vars, locals: seq<Vars>)
    ensures SamePath(EvalPath(lib, segs, cur, globals, locals, true), EvalPath(lib, segs, cur, globals, locals, false))
    decreases segs, 1
  {
    hide IndexValue, EvalKey;
    if segs != [] {
      KeyModes(lib, segs[0], globals, locals);
      var k := EvalKey(lib, segs[0], globals, locals, false);
      var next := IndexValue(lib, cur, k.v);
      if next.Some? { PathModes(lib, segs[1..], next.value, globals, locals); }
    }
  }

  lemma {:induction false} KeyModes(lib: Library, seg: Seg, globals: Vars, locals: seq<Vars>)
    ensures SameReading(EvalKey(lib, seg, globals, locals, true), EvalKey(lib, seg, globals, locals, false))
    decreases seg, 0
  {
    if seg.Dyn? { EvalModes(lib, seg.e, globals, locals); }
  }

  /// Expressions

  // eval: in strict mode a missing name is the error, otherwise it goes to the
  // pending slot unless one is there already.
  method EvalExpr(lib: Library, e: Expr, sc: Scope, strict: bool) returns (v: Value, err: Option<Error>)
    modifies sc`pending
    ensures var r := Eval(lib, e, sc.globals, sc.locals, strict);
      && (r.Failed? ==> err == Some(Missing(r.name)) && sc.pending == old(sc.pending))
      && (r.Got? ==> err.None? && v == r.v && sc.pending == Pend(old(sc.pending), r.missing))
    decreases e, 1
  {
    hide IndexValue, Compared, Lookup, EvalPath;
    EvalModes(lib, e, sc.globals, sc.locals);
    err := None;
    v := Nil;
    match e {
      case Lit(value) => v := value;
      case Var(head, rest, name) =>
        var found;
        found, err := LookupPath(lib, e, sc, strict);
        if err.Some? { return; }
        if found.None? {
          if strict {
            err := Some(Missing(name));
          } else if sc.pending.None? {
            sc.pending := Some(Missing(name));
          }
          return;
        }
        v := found.value;
      case And(l, r) =>
        EvalModes(lib, l, sc.globals, sc.locals);
        var lv;
        lv, err := EvalExpr(lib, l, sc, strict);
        if err.Some? { return; }
        if !Truthy(lv) {
          v := Bool(false);
          return;
        }
        var rv;
        rv, err := EvalExpr(lib, r, sc, strict);
        v := Bool(Truthy(rv));
      case Or(l, r) =>
        EvalModes(lib, l, sc.globals, sc.locals);
        var lv;
        lv, err := EvalExpr(lib, l, sc, strict);
        if err.Some? { return; }
        if Truthy(lv) {
          v := Bool(true);
          return;
        }
        var rv;
        rv, err := EvalExpr(lib, r, sc, strict);
        v := Bool(Truthy(rv));
      case Compare(op, l, r) =>
        EvalModes(lib, l, sc.globals, sc.locals);
        var lv, rv;
        lv, err := EvalExpr(lib, l, sc, strict);
        if err.Some? { return; }
        rv, err := EvalExpr(lib, r, sc, strict);
        if err.Some? { return; }
        v := Bool(Compared(lib, op, lv, rv));
    }
  }

  lemma LaterTwice(a: Option<string>, b: Option<string>, r: PathResult)
    ensures Later(a, Later(b, r)) == Later(First(a, b), r)
  {
  }

  // lookupPath: nothing found and no error means an absent name.
  method LookupPath(lib: Library, e: Expr, sc: Scope, strict: bool) returns (found: Option<Value>, err: Option<Error>)
    requires e.Var?
    modifies sc`pending
    ensures var cur := Lookup(sc.globals, sc.locals, e.head);
      if cur.None? then found.None? && err.None? && sc.pending == old(sc.pending)
      else match EvalPath(lib, e.rest, cur.value, sc.globals, sc.locals, strict)
        case PathFailed(name) => err == Some(Missing(name)) && sc.pending == old(sc.pending)
        case Absent(missing) => err.None? && found.None? && sc.pending == Pend(old(sc.pending), missing)
        case Found(v, missing) => err.None? && found == Some(v) && sc.pending == Pend(old(sc.pending), missing)
    ensures strict ==> sc.pending == old(sc.pending)
    decreases e, 0
  {
    hide IndexValue, Lookup;
    var start := sc.LookupName(e.head);
    if start.None? {
      return None, None;
    }
    var cur := start.value;
    ghost var missing: Option<string> := None;
    var i := 0;
    assert e.rest[0..] == e.rest;
    while i < |e.rest|
      invariant i <= |e.rest|
      invariant sc.pending == Pend(old(sc.pending), missing) && (strict ==> missing.None?)
      invariant EvalPath(lib, e.rest, start.value, sc.globals, sc.locals, strict)
        == Later(missing, EvalPath(lib, e.rest[i..], cur, sc.globals, sc.locals, strict))
    {
      var seg := e.rest[i];
      KeyModes(lib, seg, sc.globals, sc.locals);
      assert e.rest[i..][1..] == e.rest[i + 1..] && e.rest[i..][0] == seg;
      var key;
      key, err := EvalSegment(lib, seg, sc, strict);
      if err.Some? {
        return None, err;
      }
      ghost var m := EvalKey(lib, seg, sc.globals, sc.locals, strict).missing;
      var next := IndexValue(lib, cur, key);
      if next.None? {
        return None, None;
      }
      LaterTwice(missing, m, EvalPath(lib, e.rest[i + 1..], next.value, sc.globals, sc.locals, strict));
      missing := First(missing, m);
      cur := next.value;
      i := i + 1;
    }
    return Some(cur), None;
  }

  method EvalSegment(lib: Library, seg: Seg, sc: Scope, strict: bool) returns (key: Value, err: Option<Error>)
    modifies sc`pending
    ensures var r := EvalKey(lib, seg, sc.globals, sc.locals, strict);
      && (r.Failed? ==> err == Some(Missing(r.name)) && sc.pending == old(sc.pending))
      && (r.Got? ==> err.None? && key == r.v && sc.pending == Pend(old(sc.pending), r.missing))
    decreases seg, 2
  {
    match seg {
      case Dyn(e) => key, err := EvalExpr(lib, e, sc, strict);
      case Index(i) => return Number(i), None;
      case Prop(name) => return Str(name), None;
    }
  }

  method EvalStrictly(lib: Library, e: Expr, sc: Scope) returns (v: Value, err: Option<Error>)
    modifies sc`pending
    ensures sc.pending == old(sc.pending)
    ensures match EvalStrict(lib, e, sc.globals, sc.locals)
      case Err(error) => err == Some(error)
      case Ok(w) => err.None? && v == w
  {
    hide Eval;
    EvalModes(lib, e, sc.globals, sc.locals);
    v, err := EvalExpr(lib, e, sc, true);
  }

  // evalCondition: afterwards the slot holds what this condition missed.
  method EvalCondition(lib: Library, e: Expr, sc: Scope) returns (holds: bool)
    modifies sc`pending
    ensures (holds, sc.pending) == (var (h, m) := Condition(lib, e, sc.globals, sc.locals); (h, Pend(None, m)))
  {
    hide Eval;
    sc.pending := None;
    EvalModes(lib, e, sc.globals, sc.locals);
    var v, _ := EvalExpr(lib, e, sc, false);
    holds := Truthy(v);
  }

  /// Outputs

  function Prefixed(vs: seq<Value>, r: Outcome<seq<Value>>): Outcome<seq<Value>> {
    match r
    case Err(error) => Err(error)
    case Ok(more) => Ok(vs + more)
  }

  lemma EvalArgsStep(lib: Library, args: seq<Expr>, i: nat, globals: Vars, locals: seq<Vars>, vs: seq<Value>)
    requires i < |args|
    ensures Prefixed(vs, EvalArgs(lib, args[i..], globals, locals)) ==
      match EvalStrict(lib, args[i], globals, locals)
      case Err(error) => Err(error)
      case Ok(v) => Prefixed(vs + [v], EvalArgs(lib, args[i + 1..], globals, locals))
  {
    hide EvalStrict;
    assert args[i..][1..] == args[i + 1..] && args[i..][0] == args[i];
    var first, rest := EvalStrict(lib, args[i], globals, locals), EvalArgs(lib, args[i + 1..], globals, locals);
    if first.Ok? && rest.Ok? {
      assert vs + ([first.value] + rest.value) == vs + [first.value] + rest.value;
    }
  }

  method EvalArguments(lib: Library, args: seq<Expr>, sc: Scope) returns (vs: seq<Value>, err: Option<Error>)
    modifies sc`pending
    ensures sc.pending == old(sc.pending)
    ensures match EvalArgs(lib, args, sc.globals, sc.locals)
      case Err(error) => err == Some(error)
      case Ok(ws) => err.None? && vs == ws
  {
    hide EvalStrict, EvalArgs;
    vs := [];
    err := None;
    var i := 0;
    ghost var whole := EvalArgs(lib, args, sc.globals, sc.locals);
    assert args[0..] == args;
    if whole.Ok? { assert [] + whole.value == whole.value; }
    while i < |args|
      invariant i <= |args| && sc.pending == old(sc.pending) && err.None?
      invariant whole == Prefixed(vs, EvalArgs(lib, args[i..], sc.globals, sc.locals))
    {
      EvalArgsStep(lib, args, i, sc.globals, sc.locals, vs);
      var v;
      v, err := EvalStrictly(lib, args[i], sc);
      if err.Some? { return; }
      vs := vs + [v];
      i := i + 1;
    }
    NoMoreArgs(lib, args, sc.globals, sc.locals);
    assert vs + [] == vs;
  }

  lemma NoMoreArgs(lib: Library, args: seq<Expr>, globals: Vars, locals: seq<Vars>)
    ensures EvalArgs(lib, args[|args|..], globals, locals) == Ok([])
  {
  }

  method ApplyFilter(lib: Library, f: Filter, v: Value, sc: Scope) returns (r: Value, err: Option<Error>)
    modifies sc`pending
    ensures sc.pending == old(sc.pending)
    ensures match EvalArgs(lib, f.args, sc.globals, sc.locals)
      case Err(error) => err == Some(error)
      case Ok(args) =>
        match Filtered(lib, f.name, v, args)
        case Err(error) => err == Some(error)
        case Ok(w) => err.None? && r == w
  {
    hide EvalArgs;
    r := Nil;
    var args;
    args, err := EvalArguments(lib, f.args, sc);
    if err.Some? { return; }
    match f.name {
      case "size" => return Number(SizeOf(v)), None;
      case "join" =>
        var sep := " ";
        if |args| > 0 { sep := ToString(lib, args[0]); }
        if !v.List? { return Str(ToString(lib, v)), None; }
        return Str(Joined(lib, v.items, sep)), None;
      case "default" =>
        if Blank(v) {
          if |args| > 0 { return args[0], None; }
          return Str(""), None;
        }
        return v, None;
      case _ => return Nil, Some(FilterError(f.name));
    }
  }

  method EvalOut(lib: Library, o: Output, sc: Scope) returns (v: Value, err: Option<Error>)
    modifies sc`pending
    ensures sc.pending == old(sc.pending)
    ensures match EvalOutput(lib, o, sc.globals, sc.locals)
      case Err(error) => err == Some(error)
      case Ok(w) => err.None? && v == w
  {
    hide EvalStrict, EvalArgs, Filtered;
    v, err := EvalStrictly(lib, o.base, sc);
    if err.Some? { return; }
    ghost var first := v;
    assert o.filters[0..] == o.filters;
    var i := 0;
    while i < |o.filters|
      invariant i <= |o.filters| && sc.pending == old(sc.pending) && err.None?
      invariant EvalFilters(lib, o.filters, first, sc.globals, sc.locals)
        == EvalFilters(lib, o.filters[i..], v, sc.globals, sc.locals)
    {
      assert o.filters[i..][1..] == o.filters[i + 1..] && o.filters[i..][0] == o.filters[i];
      v, err := ApplyFilter(lib, o.filters[i], v, sc);
      if err.Some? { return; }
      i := i + 1;
    }
  }

  /// Nodes

  // What rendering does to a scope and a builder that held `locals` and `text`.
  ghost predicate Renders(r: Rendering, text: string, locals: seq<Vars>, sc: Scope, sb: Builder, err: Option<Thrown>)
    reads sc, sb
  {
    && sb.text == text + r.text
    && sc.globals == r.globals
    && sc.locals == locals
    && sc.pending == None
    && err == Thrower(r.signal)
  }

  method RenderAll(lib: Library, nodes: seq<Node>, sc: Scope, sb: Builder) returns (err: Option<Thrown>)
    requires sc.pending == None
    modifies sc, sb
    ensures Renders(RenderNodes(lib, nodes, old(sc.globals), old(sc.locals)), old(sb.text), old(sc.locals), sc, sb, err)
    decreases nodes, 0
  {
    hide RenderNode;
    err := None;
    var i := 0;
    ghost var whole := RenderNodes(lib, nodes, sc.globals, sc.locals);
    assert nodes[0..] == nodes;
    assert sb.text + whole.text == old(sb.text) + whole.text;
    while i < |nodes|
      invariant i <= |nodes| && err.None? && sc.pending == None && sc.locals == old(sc.locals)
      invariant var r := RenderNodes(lib, nodes[i..], sc.globals, sc.locals);
        && sb.text + r.text == old(sb.text) + whole.text && r.globals == whole.globals && r.signal == whole.signal
    {
      NodesStep(lib, nodes, i, sc.globals, sc.locals, sb.text);
      err := RenderOne(lib, nodes[i], sc, sb);
      if err.Some? { return; }
      i := i + 1;
    }
    assert nodes[i..] == [];
    assert sb.text + "" == sb.text;
  }

  lemma NodesStep(lib: Library, nodes: seq<Node>, i: nat, globals: Vars, locals: seq<Vars>, text: string)
    requires i < |nodes|
    ensures var r := RenderNodes(lib, nodes[i..], globals, locals);
      var a := RenderNode(lib, nodes[i], globals, locals);
      if !a.signal.Done? then r == a
      else
        var b := RenderNodes(lib, nodes[i + 1..], a.globals, locals);
        r.globals == b.globals && r.signal == b.signal && text + r.text == text + a.text + b.text
  {
    hide RenderNode;
    assert nodes[i..][1..] == nodes[i + 1..] && nodes[i..][0] == nodes[i];
    var a := RenderNode(lib, nodes[i], globals, locals);
    if a.signal.Done? {
      var b := RenderNodes(lib, nodes[i + 1..], a.globals, locals);
      assert text + (a.text + b.text) == text + a.text + b.text;
    }
  }

  method RenderOne(lib: Library, n: Node, sc: Scope, sb: Builder) returns (err: Option<Thrown>)
    requires sc.pending == None
    modifies sc, sb
    ensures Renders(RenderNode(lib, n, old(sc.globals), old(sc.locals)), old(sb.text), old(sc.locals), sc, sb, err)
    decreases n, 2
  {
    hide EvalOutput, Condition, RenderItems, RenderBranches, RenderNodes, EvalStrict, Iterable, ToString;
    assert sb.text + "" == sb.text;
    match n {
      case Text(text) =>
        sb.Write(text);
        return None;
      case Out(o) =>
        var v, e := EvalOut(lib, o, sc);
        if e.Some? { return Some(TemplateErr(e.value)); }
        sb.Write(ToString(lib, v));
        return None;
      case Assign(target, o) =>
        var v, e := EvalOut(lib, o, sc);
        if e.Some? { return Some(TemplateErr(e.value)); }
        sc.Assign(target, v);
        return None;
      case If(_, _) => err := RenderIf(lib, n, sc, sb);
      case Unless(cond, body, elseBody) =>
        var holds := EvalCondition(lib, cond, sc);
        var p := sc.TakePending();
        if !holds {
          if p.Some? { return Some(TemplateErr(p.value)); }
          err := RenderAll(lib, body, sc, sb);
        } else {
          err := RenderAll(lib, elseBody, sc, sb);
        }
      case For(_, _, _, _) => err := RenderFor(lib, n, sc, sb);
      case Break => return Some(BreakErr);
      case Continue => return Some(ContinueErr);
    }
  }

  method RenderIf(lib: Library, n: Node, sc: Scope, sb: Builder) returns (err: Option<Thrown>)
    requires sc.pending == None && n.If?
    modifies sc, sb
    ensures Renders(RenderBranches(lib, n, 0, old(sc.globals), old(sc.locals)), old(sb.text), old(sc.locals),
      sc, sb, err)
    decreases n, 1
  {
    hide Condition, RenderNodes;
    var i := 0;
    while i < |n.branches|
      invariant i <= |n.branches|
      invariant sc.globals == old(sc.globals) && sc.locals == old(sc.locals) && sb.text == old(sb.text)
      invariant RenderBranches(lib, n, 0, sc.globals, sc.locals) == RenderBranches(lib, n, i, sc.globals, sc.locals)
    {
      var holds := EvalCondition(lib, n.branches[i].cond, sc);
      if holds {
        var p := sc.TakePending();
        if p.Some? {
          assert sb.text + "" == sb.text;
          return Some(TemplateErr(p.value));
        }
        err := RenderAll(lib, n.branches[i].body, sc, sb);
        return;
      }
      i := i + 1;
    }
    var _ := sc.TakePending();
    err := RenderAll(lib, n.elseBody, sc, sb);
  }

  method RenderFor(lib: Library, n: Node, sc: Scope, sb: Builder) returns (err: Option<Thrown>)
    requires sc.pending == None && n.For?
    modifies sc, sb
    ensures Renders(RenderNode(lib, n, old(sc.globals), old(sc.locals)), old(sb.text), old(sc.locals), sc, sb, err)
    decreases n, 1
  {
    hide EvalStrict, RenderNodes, RenderItems, Iterable;
    assert sb.text + "" == sb.text;
    var v, e := EvalStrictly(lib, n.source, sc);
    if e.Some? { return Some(TemplateErr(e.value)); }
    var items := Iterable(v);
    if |items| == 0 {
      err := RenderAll(lib, n.elseBody, sc, sb);
      return;
    }
    err := RenderRounds(lib, n, items, sc, sb);
  }

  lemma ItemsStep(lib: Library, n: Node, items: seq<Value>, i: nat, globals: Vars, locals: seq<Vars>, text: string)
    requires n.For? && i < |items|
    ensures var r := RenderItems(lib, n, items, i, globals, locals);
      var a := RenderNodes(lib, n.body, globals, locals + [Frame(n.varName, items[i], i, |items|)]);
      if a.signal.Broke? then r == a.(signal := Done)
      else if a.signal.Raised? then r == a
      else
        var b := RenderItems(lib, n, items, i + 1, a.globals, locals);
        r.globals == b.globals && r.signal == b.signal && text + r.text == text + a.text + b.text
  {
    hide RenderNodes, Frame;
    var a := RenderNodes(lib, n.body, globals, locals + [Frame(n.varName, items[i], i, |items|)]);
    if !a.signal.Broke? && !a.signal.Raised? {
      var b := RenderItems(lib, n, items, i + 1, a.globals, locals);
      assert text + (a.text + b.text) == text + a.text + b.text;
    }
  }

  method RenderRounds(lib: Library, n: Node, items: seq<Value>, sc: Scope, sb: Builder) returns (err: Option<Thrown>)
    requires sc.pending == None && n.For?
    modifies sc, sb
    ensures Renders(RenderItems(lib, n, items, 0, old(sc.globals), old(sc.locals)), old(sb.text), old(sc.locals),
      sc, sb, err)
    decreases n, 0
  {
    hide RenderNodes, RenderItems, Frame;
    ghost var whole := RenderItems(lib, n, items, 0, sc.globals, sc.locals);
    var i := 0;
    while i < |items|
      invariant i <= |items| && sc.pending == None && sc.locals == old(sc.locals)
      invariant var r := RenderItems(lib, n, items, i, sc.globals, sc.locals);
        && sb.text + r.text == old(sb.text) + whole.text && r.globals == whole.globals && r.signal == whole.signal
    {
      ItemsStep(lib, n, items, i, sc.globals, sc.locals, sb.text);
      var frame := Frame(n.varName, items[i], i, |items|);
      sc.Push(frame);
      err := RenderAll(lib, n.body, sc, sb);
      sc.Pop();
      if err.Some? {
        if err.value.BreakErr? { return None; }
        if !err.value.ContinueErr? { return; }
      }
      i := i + 1;
    }
    NoMoreItems(lib, n, items, sc.globals, sc.locals);
    assert sb.text + "" == sb.text;
    err := None;
  }

  lemma NoMoreItems(lib: Library, n: Node, items: seq<Value>, globals: Vars, locals: seq<Vars>)
    requires n.For?
    ensures RenderItems(lib, n, items, |items|, globals, locals) == Rendering("", globals, Done)
  {
  }

  // Template.Render: the text, or the error.
  method RenderTemplate(lib: Library, nodes: seq<Node>, vars: Vars) returns (text: string, err: Option<Error>)
    ensures match Render(lib, nodes, vars)
      case Ok(t) => err.None? && text == t
      case Err(error) => err == Some(error) && text == ""
  {
    hide RenderNodes;
    var sc := new Scope(vars);
    var sb := new Builder();
    var e := RenderAll(lib, nodes, sc, sb);
    if e.Some? {
      match e.value {
        case TemplateErr(error) => return "", Some(error);
        case BreakErr => return "", Some(RenderError("liquid: break"));
        case ContinueErr => return "", Some(RenderError("liquid: continue"));
      }
    }
    assert "" + sb.text == sb.text;
    return sb.text, None;
  }
}
