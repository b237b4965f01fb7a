/** From template source to text (internal/liquid/render.go). */
module LiquidEngine {
  import opened LiquidSyntax
  import opened LiquidValues
  import opened LiquidSemantics
  import opened LiquidNames
  import LiquidGrammar
  import LiquidLaws
  import LiquidLexer
  import LiquidRender

  datatype Result = Rendered(text: string) | Unparsed | Failed(error: Error)

  function FromOutcome(o: Outcome<string>): Result {
    match o
    case Ok(text) => Rendered(text)
    case Err(error) => Result.Failed(error)
  }

  // The raw engine hands the source back; the other parses and renders it.
  function RenderSource(lib: Library, q: LiquidGrammar.Quoting, raw: bool, src: string, vars: Vars): Result {
    if raw then Rendered(src)
    else match LiquidLexer.TemplateOf(q, src)
      case Err(_) => Unparsed
      case Ok(nodes) => FromOutcome(LiquidSemantics.Render(lib, nodes, vars))
  }

  method Render(lib: Library, q: LiquidGrammar.Quoting, raw: bool, src: string, vars: Vars) returns (r: Result)
    ensures r == RenderSource(lib, q, raw, src, vars)
  {
    hide LiquidSemantics.Render, LiquidLexer.TemplateOf;
    if raw {
      return Rendered(src);
    }
    var nodes := LiquidLexer.Parse(q, src);
    if nodes.Err? {
      return Unparsed;
    }
    var text, err := LiquidRender.RenderTemplate(lib, nodes.value, vars);
    return if err.Some? then Result.Failed(err.value) else Rendered(text);
  }

  // The names a source takes from its caller: those its parsed template does.
  function Needs(q: LiquidGrammar.Quoting, src: string): set<string> {
    match LiquidLexer.TemplateOf(q, src)
    case Err(_) => {}
    case Ok(nodes) => FreeNodes(nodes, {})
  }

  // Whatever the source, a caller that gives the same values to the names it
  // takes gets the same text or the same error.
  lemma SourceCoincidence(lib: Library, q: LiquidGrammar.Quoting, raw: bool, src: string, a: Vars, b: Vars)
    requires LiquidLaws.Agree(a, b, Needs(q, src))
    ensures RenderSource(lib, q, raw, src, a) == RenderSource(lib, q, raw, src, b)
  {
    hide LiquidLexer.TemplateOf, LiquidSemantics.Render, FreeNodes, LiquidLaws.Agree;
    var nodes := LiquidLexer.TemplateOf(q, src);
    if nodes.Ok? {
      LiquidLaws.ScopedCoincidence(lib, nodes.value, a, b);
    }
  }
}
