/** Templates of the Liquid subset (internal/liquid) once parsed. */
module LiquidSyntax {

  // A template value in the shapes the renderer works on.  Num carries the
  // literal number; Empty is the literal `empty` or `blank`.
  datatype Value =
    | Nil
    | Bool(b: bool)
    | Str(s: string)
    | Num(token: string)
    | List(items: seq<Value>)
    | Map(entries: map<string, Value>)
    | Empty

  datatype Op = Eq | Ne | Gt | Lt | Ge | Le | Contains

  datatype Seg = Prop(key: string) | Index(i: int) | Dyn(e: Expr)

  // Var: head.rest, with the dotted name missing-variable errors show.
  datatype Expr =
    | Lit(value: Value)
    | Var(head: string, rest: seq<Seg>, name: string)
    | And(l: Expr, r: Expr)
    | Or(l: Expr, r: Expr)
    | Compare(op: Op, l: Expr, r: Expr)

  datatype Filter = Filter(name: string, args: seq<Expr>)

  datatype Output = Output(base: Expr, filters: seq<Filter>)

  datatype Branch = Branch(cond: Expr, body: seq<Node>)

  datatype Node =
    | Text(text: string)
    | Out(expr: Output)
    | Assign(target: string, expr: Output)
    | If(branches: seq<Branch>, elseBody: seq<Node>)
    | Unless(cond: Expr, body: seq<Node>, elseBody: seq<Node>)
    | For(varName: string, source: Expr, body: seq<Node>, elseBody: seq<Node>)
    | Break
    | Continue

  datatype Error = Missing(name: string) | RenderError(message: string)
}
