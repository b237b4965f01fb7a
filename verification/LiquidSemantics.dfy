/**
 What a template means, compositionally: no scope stack, no pending slot, no
 sentinel errors.  The locals are an argument, a condition returns the first
 missing name it met, and leaving a loop is an outcome like any other.
 */
module LiquidSemantics {
  import opened Options
  import opened LiquidSyntax
  import opened LiquidValues

  type Vars = map<string, Value>

  function Lookup(globals: Vars, locals: seq<Vars>, name: string): Option<Value> {
    if locals == [] then if name in globals then Some(globals[name]) else None
    else
      var inner := locals[|locals| - 1];
      if name in inner then Some(inner[name]) else Lookup(globals, locals[..|locals| - 1], name)
  }

  function First(a: Option<string>, b: Option<string>): Option<string> {
    if a.Some? then a else b
  }

  // An expression's value and the first missing name met on the way to it, or
  // the error of a strict reading.
  datatype Evaluation = Got(v: Value, missing: Option<string>) | Failed(name: string)

  datatype PathResult = Found(v: Value, missing: Option<string>) | Absent(missing: Option<string>)
    | PathFailed(name: string)

  function Eval(lib: Library, e: Expr, globals: Vars, locals: seq<Vars>, strict: bool): Evaluation
    decreases e, 1
  {
    match e
    case Lit(value) => Got(value, None)
    case Var(head, rest, name) =>
      (match Lookup(globals, locals, head)
       case None => NotThere(name, None, strict)
       case Some(cur) =>
         match EvalPath(lib, rest, cur, globals, locals, strict)
         case PathFailed(inner) => Failed(inner)
         case Absent(missing) => NotThere(name, missing, strict)
         case Found(v, missing) => Got(v, missing))
    case And(l, r) =>
      (match Eval(lib, l, globals, locals, strict)
       case Failed(name) => Failed(name)
       case Got(lv, m1) =>
         if Truthy(lv) then AsBool(m1, Eval(lib, r, globals, locals, strict)) else Got(Bool(false), m1))
    case Or(l, r) =>
      (match Eval(lib, l, globals, locals, strict)
       case Failed(name) => Failed(name)
       case Got(lv, m1) =>
         if Truthy(lv) then Got(Bool(true), m1) else AsBool(m1, Eval(lib, r, globals, locals, strict)))
    case Compare(op, l, r) =>
      (match Eval(lib, l, globals, locals, strict)
       case Failed(name) => Failed(name)
       case Got(lv, m1) =>
         match Eval(lib, r, globals, locals, strict)
         case Failed(name) => Failed(name)
         case Got(rv, m2) => Got(Bool(Compared(lib, op, lv, rv)), First(m1, m2)))
  }

  function NotThere(name: string, missing: Option<string>, strict: bool): Evaluation {
    if strict then Failed(name) else Got(Nil, First(missing, Some(name)))
  }

  function AsBool(missing: Option<string>, e: Evaluation): Evaluation {
    match e
    case Failed(name) => Failed(name)
    case Got(v, m) => Got(Bool(Truthy(v)), First(missing, m))
  }

  function EvalPath(lib: Library, segs: seq<Seg>, cur: Value, globals: Vars, locals: seq<Vars>,
      strict: bool): PathResult
    decreases segs, 1
  {
    if segs == [] then Found(cur, None)
    else match EvalKey(lib, segs[0], globals, locals, strict)
      case Failed(name) => PathFailed(name)
      case Got(key, missing) => Step(missing, lib, segs, IndexValue(lib, cur, key), globals, locals, strict)
  }

  function EvalKey(lib: Library, seg: Seg, globals: Vars, locals: seq<Vars>, strict: bool): Evaluation
    decreases seg, 0
  {
    match seg
    case Dyn(e) => Eval(lib, e, globals, locals, strict)
    case Index(i) => Got(Number(i), None)
    case Prop(key) => Got(Str(key), None)
  }

  // Goes on from what the first segment selected.
  function Step(missing: Option<string>, lib: Library, segs: seq<Seg>, next: Option<Value>, globals: Vars,
      locals: seq<Vars>, strict: bool)
    : PathResult
    requires segs != []
    decreases segs, 0
  {
    match next
    case None => Absent(missing)
    case Some(cur) => Later(missing, EvalPath(lib, segs[1..], cur, globals, locals, strict))
  }

  // A path result reached after `missing` was met.
  function Later(missing: Option<string>, r: PathResult): PathResult {
    match r
    case PathFailed(name) => PathFailed(name)
    case Absent(m) => Absent(First(missing, m))
    case Found(v, m) => Found(v, First(missing, m))
  }

  /// Outputs

  datatype Outcome<+T> = Ok(value: T) | Err(error: Error)

  function EvalStrict(lib: Library, e: Expr, globals: Vars, locals: seq<Vars>): Outcome<Value> {
    match Eval(lib, e, globals, locals, true)
    case Failed(name) => Err(Missing(name))
    case Got(v, _) => Ok(v)
  }

  function EvalArgs(lib: Library, args: seq<Expr>, globals: Vars, locals: seq<Vars>): Outcome<seq<Value>> {
    if args == [] then Ok([])
    else match EvalStrict(lib, args[0], globals, locals)
      case Err(error) => Err(error)
      case Ok(v) =>
        match EvalArgs(lib, args[1..], globals, locals)
        case Err(error) => Err(error)
        case Ok(vs) => Ok([v] + vs)
  }

  function FilterError(name: string): Error {
    RenderError("filter \"" + name + "\" is not allowed (allowed: size, join, default)")
  }

  function Filtered(lib: Library, name: string, v: Value, args: seq<Value>): Outcome<Value> {
    if name == "size" then Ok(Number(SizeOf(v)))
    else if name == "join" then
      var sep := if args != [] then ToString(lib, args[0]) else " ";
      Ok(Str(if v.List? then Joined(lib, v.items, sep) else ToString(lib, v)))
    else if name == "default" then Ok(if !Blank(v) then v else if args != [] then args[0] else Str(""))
    else Err(FilterError(name))
  }

  function EvalFilters(lib: Library, filters: seq<Filter>, v: Value, globals: Vars, locals: seq<Vars>): Outcome<Value> {
    if filters == [] then Ok(v)
    else match EvalArgs(lib, filters[0].args, globals, locals)
      case Err(error) => Err(error)
      case Ok(args) =>
        match Filtered(lib, filters[0].name, v, args)
        case Err(error) => Err(error)
        case Ok(next) => EvalFilters(lib, filters[1..], next, globals, locals)
  }

  function EvalOutput(lib: Library, o: Output, globals: Vars, locals: seq<Vars>): Outcome<Value> {
    match EvalStrict(lib, o.base, globals, locals)
    case Err(error) => Err(error)
    case Ok(v) => EvalFilters(lib, o.filters, v, globals, locals)
  }

  /// Nodes

  datatype Signal = Done | Broke | Continued | Raised(error: Error)

  datatype Rendering = Rendering(text: string, globals: Vars, signal: Signal)

  // A condition: whether it holds, and the first name it missed.
  function Condition(lib: Library, e: Expr, globals: Vars, locals: seq<Vars>): (bool, Option<string>) {
    match Eval(lib, e, globals, locals, false)
    case Got(v, missing) => (Truthy(v), missing)
    case Failed(_) => (false, None)
  }

  function Frame(varName: string, item: Value, i: nat, n: nat): Vars
    requires i < n
  {
    map[varName := item]["forloop" := Map(map[
      "index" := Number(i + 1), "index0" := Number(i),
      "rindex" := Number(n - i), "rindex0" := Number(n - i - 1),
      "first" := Bool(i == 0), "last" := Bool(i == n - 1), "length" := Number(n)])]
  }

  function RenderNodes(lib: Library, nodes: seq<Node>, globals: Vars, locals: seq<Vars>): Rendering
    decreases nodes, 0
  {
    if nodes == [] then Rendering("", globals, Done)
    else
      var a := RenderNode(lib, nodes[0], globals, locals);
      if !a.signal.Done? then a
      else
        var b := RenderNodes(lib, nodes[1..], a.globals, locals);
        Rendering(a.text + b.text, b.globals, b.signal)
  }

  function RenderNode(lib: Library, n: Node, globals: Vars, locals: seq<Vars>): Rendering
    decreases n, 2
  {
    match n
    case Text(text) => Rendering(text, globals, Done)
    case Out(o) =>
      (match EvalOutput(lib, o, globals, locals)
       case Err(error) => Rendering("", globals, Raised(error))
       case Ok(v) => Rendering(ToString(lib, v), globals, Done))
    case Assign(target, o) =>
      (match EvalOutput(lib, o, globals, locals)
       case Err(error) => Rendering("", globals, Raised(error))
       case Ok(v) => Rendering("", globals[target := v], Done))
    case If(_, _) => RenderBranches(lib, n, 0, globals, locals)
    case Unless(cond, body, elseBody) =>
      var (holds, missing) := Condition(lib, cond, globals, locals);
      if holds then RenderNodes(lib, elseBody, globals, locals)
      else if missing.Some? then Rendering("", globals, Raised(Missing(missing.value)))
      else RenderNodes(lib, body, globals, locals)
    case For(_, source, _, elseBody) =>
      (match EvalStrict(lib, source, globals, locals)
       case Err(error) => Rendering("", globals, Raised(error))
       case Ok(v) =>
         if Iterable(v) == [] then RenderNodes(lib, elseBody, globals, locals)
         else RenderItems(lib, n, Iterable(v), 0, globals, locals))
    case Break => Rendering("", globals, Broke)
    case Continue => Rendering("", globals, Continued)
  }

  // The first branch from i on whose condition holds is rendered, unless that
  // condition read a missing name; the ones that do not hold may miss any.
  function RenderBranches(lib: Library, n: Node, i: nat, globals: Vars, locals: seq<Vars>): Rendering
    requires n.If? && i <= |n.branches|
    decreases n, 1, |n.branches| - i
  {
    if i == |n.branches| then RenderNodes(lib, n.elseBody, globals, locals)
    else
      var (holds, missing) := Condition(lib, n.branches[i].cond, globals, locals);
      if !holds then RenderBranches(lib, n, i + 1, globals, locals)
      else if missing.Some? then Rendering("", globals, Raised(Missing(missing.value)))
      else RenderNodes(lib, n.branches[i].body, globals, locals)
  }

  // The rounds of a loop from item i on.
  function RenderItems(lib: Library, n: Node, items: seq<Value>, i: nat, globals: Vars, locals: seq<Vars>): Rendering
    requires n.For? && i <= |items|
    decreases n, 1, |items| - i
  {
    if i == |items| then Rendering("", globals, Done)
    else
      var a := RenderNodes(lib, n.body, globals, locals + [Frame(n.varName, items[i], i, |items|)]);
      if a.signal.Broke? then a.(signal := Done)
      else if a.signal.Raised? then a
      else
        var b := RenderItems(lib, n, items, i + 1, a.globals, locals);
        Rendering(a.text + b.text, b.globals, b.signal)
  }

  // A whole template; leaving a loop where there is none is an error.
  function Render(lib: Library, nodes: seq<Node>, vars: Vars): Outcome<string> {
    var r := RenderNodes(lib, nodes, vars, []);
    match r.signal
    case Done => Ok(r.text)
    case Broke => Err(RenderError("liquid: break"))
    case Continued => Err(RenderError("liquid: continue"))
    case Raised(error) => Err(error)
  }
}
