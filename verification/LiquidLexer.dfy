/** The template lexer of the Liquid subset (internal/liquid/parse.go). */
module LiquidLexer {
  import opened LiquidParser
  import opened Spaces
  import LiquidNesting
  import LiquidGrammar
  import LiquidScanner
  import LiquidSyntax

  // An opening `{{` or `{%` stands at i.
  predicate OpensAt(s: string, i: nat) {
    i + 1 < |s| && s[i] == '{' && (s[i + 1] == '{' || s[i + 1] == '%')
  }

  // Where the first opening is, or |s|.
  function FindOpen(s: string): (i: nat)
    ensures i <= |s| && (i < |s| ==> OpensAt(s, i))
  {
    if s == "" || OpensAt(s, 0) then 0 else 1 + FindOpen(s[1..])
  }

  // Where c first stands before a closing brace, or |s|.
  function FindClose(s: string, c: char): (i: nat)
    ensures i <= |s| && (i < |s| ==> i + 1 < |s|)
  {
    if |s| < 2 then |s| else if s[0] == c && s[1] == '}' then 0 else 1 + FindClose(s[1..], c)
  }

  function DropBlanks(s: string): string {
    if s != "" && LiquidScanner.Blank(s[0]) then DropBlanks(s[1..]) else s
  }

  function DropLastBlanks(s: string): string {
    if s != "" && LiquidScanner.Blank(s[|s| - 1]) then DropLastBlanks(s[..|s| - 1]) else s
  }

  // The pieces a stretch of text gives: one, or none when nothing is left.
  function TextOf(text: string, trimLeading: bool, trimTrailing: bool): seq<Piece> {
    var a := if trimLeading then DropBlanks(text) else text;
    var b := if trimTrailing then DropLastBlanks(a) else a;
    if b == "" then [] else [TextPiece(b)]
  }

  function Dash(s: string): bool {
    s != "" && s[0] == '-'
  }

  function LastDash(s: string): bool {
    s != "" && s[|s| - 1] == '-'
  }

  // A tag's or an output's body without its markers and the space around it.
  function BodyOf(body: string, trimLeft: bool): string {
    var a := if LastDash(body) then body[..|body| - 1] else body;
    TrimSpace(if trimLeft && Dash(a) then a[1..] else a)
  }

  function MakePiece(tag: bool, body: string): Piece {
    if tag then TagPiece(body) else OutPiece(body)
  }

  function Closer(tag: bool): string {
    if tag then "%}" else "}}"
  }

  // What the front of a source gives up to its first closed opening: its
  // pieces, its length, and whether the text after it loses its blanks.
  datatype Front = Front(pieces: seq<Piece>, size: nat, trimNext: bool) | AllText(pieces: seq<Piece>)
    | Unclosed(closer: string)

  function FrontOf(src: string, trimNext: bool): (f: Front)
    ensures f.Front? ==> 0 < f.size <= |src|
  {
    var open := FindOpen(src);
    if open == |src| then AllText(TextOf(src, trimNext, false))
    else
      var tag, after := src[open + 1] == '%', src[open + 2..];
      var end := FindClose(after, Closer(tag)[0]);
      if end == |after| then Unclosed(Closer(tag))
      else
        var body := after[..end];
        Front(TextOf(src[..open], trimNext, Dash(after)) + [MakePiece(tag, BodyOf(body, Dash(after)))],
          open + 2 + end + 2, LastDash(body))
  }

  function LexFrom(src: string, trimNext: bool): Result<seq<Piece>>
    decreases |src|
  {
    if src == "" then LiquidScanner.Ok([])
    else match FrontOf(src, trimNext)
      case AllText(pieces) => LiquidScanner.Ok(pieces)
      case Unclosed(closer) => LiquidScanner.Err(LiquidScanner.NoCloser(closer))
      case Front(pieces, size, dash) => Join(pieces, LexFrom(src[size..], dash))
  }

  function Join(front: seq<Piece>, r: Result<seq<Piece>>): Result<seq<Piece>> {
    if r.Ok? then LiquidScanner.Ok(front + r.value) else r
  }

  lemma JoinTwice(a: seq<Piece>, b: seq<Piece>, r: Result<seq<Piece>>)
    ensures Join(a, Join(b, r)) == Join(a + b, r)
  {
    if r.Ok? {
      assert a + (b + r.value) == a + b + r.value;
    }
  }

  method FindOpening(src: string, i: nat) returns (open: nat)
    requires i <= |src|
    ensures open == i + FindOpen(src[i..])
  {
    open := i;
    while open + 1 < |src|
      invariant i <= open <= |src| && open + FindOpen(src[open..]) == i + FindOpen(src[i..])
    {
      if src[open] == '{' && (src[open + 1] == '{' || src[open + 1] == '%') {
        return;
      }
      assert src[open..][1..] == src[open + 1..];
      open := open + 1;
    }
    if open + 1 == |src| {
      assert src[open..][1..] == "";
      open := open + 1;
    }
  }

  method ReadFront(src: string, i: nat, trimNext: bool) returns (f: Front)
    requires i <= |src|
    ensures f == FrontOf(src[i..], trimNext)
  {
    hide TextOf, BodyOf, FindOpen, FindClose, Dash, LastDash;
    ghost var rest := src[i..];
    var open := FindOpening(src, i);
    assert rest[..open - i] == src[i..open];
    if open == |src| {
      assert rest[..open - i] == rest;
      return AllText(TextOf(src[i..open], trimNext, false));
    }
    var tag, after := src[open + 1] == '%', src[open + 2..];
    assert rest[open - i + 2..] == after && rest[open - i + 1] == src[open + 1];
    var end := FindClose(after, Closer(tag)[0]);
    if end == |after| {
      return Unclosed(Closer(tag));
    }
    var body := after[..end];
    return Front(TextOf(src[i..open], trimNext, Dash(after)) + [MakePiece(tag, BodyOf(body, Dash(after)))],
      open - i + 2 + end + 2, LastDash(body));
  }

  method Lex(src: string) returns (r: Result<seq<Piece>>)
    ensures r == LexFrom(src, false)
  {
    hide FrontOf, Join;
    var toks, trimNextText, i := [], false, 0;
    assert src[0..] == src;
    JoinNothing(LexFrom(src, false));
    while i < |src|
      invariant i <= |src|
      invariant LexFrom(src, false) == Join(toks, LexFrom(src[i..], trimNextText))
    {
      var front := ReadFront(src, i, trimNextText);
      match front {
        case AllText(pieces) =>
          JoinOk(toks, pieces);
          return LiquidScanner.Ok(toks + pieces);
        case Unclosed(closer) =>
          JoinErr(toks, LiquidScanner.NoCloser(closer));
          return LiquidScanner.Err(LiquidScanner.NoCloser(closer));
        case Front(pieces, size, dash) =>
          JoinTwice(toks, pieces, LexFrom(src[i..][size..], dash));
          assert src[i..][size..] == src[i + size..];
          toks, trimNextText, i := toks + pieces, dash, i + size;
      }
    }
    JoinOk(toks, []);
    assert toks + [] == toks;
    return LiquidScanner.Ok(toks);
  }

  lemma JoinNothing(r: Result<seq<Piece>>)
    ensures Join([], r) == r
  {
    if r.Ok? {
      assert [] + r.value == r.value;
    }
  }

  lemma JoinOk(a: seq<Piece>, b: seq<Piece>)
    ensures Join(a, LiquidScanner.Ok(b)) == LiquidScanner.Ok(a + b)
  {
  }

  lemma JoinErr(a: seq<Piece>, fault: Fault)
    ensures Join(a, LiquidScanner.Err(fault)) == LiquidScanner.Err(fault)
  {
  }

  /// Printing: every sequence of pieces a plain template can have

  predicate PrintableText(s: string) {
    s != "" && s[|s| - 1] != '{' && forall i :: 0 <= i < |s| ==> !OpensAt(s, i)
  }

  predicate PrintableBody(b: string, c: char) {
    TrimSpace(b) == b && forall i :: 0 <= i < |b| - 1 ==> !(b[i] == c && b[i + 1] == '}')
  }

  predicate Printable(ps: seq<Piece>) {
    && (forall i :: 0 <= i < |ps| ==> PrintablePiece(ps[i]))
    && (forall i :: 0 < i < |ps| ==> !ps[i - 1].TextPiece? || !ps[i].TextPiece?)
  }

  predicate PrintablePiece(p: Piece) {
    match p
    case TextPiece(text) => PrintableText(text)
    case OutPiece(body) => PrintableBody(body, '}')
    case TagPiece(body) => PrintableBody(body, '%')
  }

  function PrintPiece(p: Piece): string {
    match p
    case TextPiece(text) => text
    case OutPiece(body) => "{{ " + body + " }}"
    case TagPiece(body) => "{% " + body + " %}"
  }

  function Print(ps: seq<Piece>): string {
    if ps == [] then "" else PrintPiece(ps[0]) + Print(ps[1..])
  }

  lemma {:induction false} FindOpenExact(s: string, rest: string)
    requires forall i :: 0 <= i < |s| ==> !OpensAt(s, i)
    requires s == "" || s[|s| - 1] != '{'
    requires rest == "" || OpensAt(rest, 0)
    ensures FindOpen(s + rest) == |s|
  {
    if s == "" {
      assert s + rest == rest;
    } else {
      assert (s + rest)[1..] == s[1..] + rest;
      assert forall i :: 0 <= i < |s| - 1 ==> OpensAt(s[1..], i) == OpensAt(s, i + 1);
      assert !OpensAt(s, 0) && !OpensAt(s + rest, 0);
      FindOpenExact(s[1..], rest);
    }
  }

  lemma {:induction false} FindCloseExact(s: string, c: char, rest: string)
    requires forall i :: 0 <= i < |s| - 1 ==> !(s[i] == c && s[i + 1] == '}')
    requires s == "" || s[|s| - 1] != c
    ensures FindClose(s + ([c, '}'] + rest), c) == |s|
  {
    if s == "" {
      assert s + ([c, '}'] + rest) == [c, '}'] + rest;
    } else {
      assert (s + ([c, '}'] + rest))[1..] == s[1..] + ([c, '}'] + rest);
      FindCloseExact(s[1..], c, rest);
    }
  }

  lemma PaddedBody(b: string, c: char)
    requires PrintableBody(b, c)
    ensures BodyOf(" " + b + " ", false) == b
  {
    PaddedTrims(b);
  }

  // Lexing a print gives the pieces back.
  lemma {:induction false} LexPrinted(ps: seq<Piece>)
    requires Printable(ps)
    ensures LexFrom(Print(ps), false) == LiquidScanner.Ok(ps)
  {
    hide LexFrom, FrontOf, PrintPiece, PrintableText, PrintableBody;
    if ps == [] {
      LexNothing();
    } else {
      var rest := ps[1..];
      assert Printable(rest) && PrintablePiece(ps[0]);
      if !ps[0].TextPiece? {
        LexPrinted(rest);
        LexOne("", ps[0], Print(rest));
        assert "" + (PrintPiece(ps[0]) + Print(rest)) == Print(ps);
        assert [] + [ps[0]] + rest == ps;
      } else if rest == [] {
        LexText(ps[0].text);
        assert ps == [ps[0]] && ps[0].text + "" == ps[0].text;
        PrintText(ps[0].text);
      } else {
        LexPrinted(rest[1..]);
        assert PrintablePiece(ps[1]) && !ps[1].TextPiece?;
        LexOne(ps[0].text, rest[0], Print(rest[1..]));
        PrintText(ps[0].text);
        assert Print(rest) == PrintPiece(rest[0]) + Print(rest[1..]);
        assert Print(ps) == ps[0].text + (PrintPiece(rest[0]) + Print(rest[1..]));
        NotEmpty(ps[0].text);
        assert [ps[0]] + [rest[0]] + rest[1..] == ps;
      }
    }
  }

  lemma LexNothing()
    ensures LexFrom("", false) == LiquidScanner.Ok([])
  {
  }

  lemma NotEmpty(text: string)
    requires PrintableText(text)
    ensures text != ""
  {
  }

  lemma PrintText(text: string)
    ensures PrintPiece(TextPiece(text)) == text
  {
  }

  lemma LexText(text: string)
    requires PrintableText(text)
    ensures LexFrom(text, false) == LiquidScanner.Ok([TextPiece(text)])
  {
    hide FindOpen;
    FindOpenExact(text, "");
    assert text + "" == text;
  }

  lemma LexStep(src: string, pieces: seq<Piece>, size: nat)
    requires src != "" && FrontOf(src, false) == Front(pieces, size, false)
    ensures LexFrom(src, false) == Join(pieces, LexFrom(src[size..], false))
  {
    hide FrontOf, Join;
  }

  lemma FrontStep(src: string, open: nat, tag: bool, after: string, end: nat, body: string)
    requires FindOpen(src) == open < |src| && tag == (src[open + 1] == '%') && after == src[open + 2..]
    requires FindClose(after, Closer(tag)[0]) == end < |after| && body == after[..end]
    ensures FrontOf(src, false)
      == Front(TextOf(src[..open], false, Dash(after)) + [MakePiece(tag, BodyOf(body, Dash(after)))],
        open + 2 + end + 2, LastDash(body))
  {
    hide FindOpen, FindClose, BodyOf, TextOf, Dash, LastDash;
  }

  lemma LexOne(text: string, p: Piece, rest: string)
    requires !p.TextPiece? && PrintablePiece(p) && (text == "" || PrintableText(text))
    ensures LexFrom(text + (PrintPiece(p) + rest), false)
      == Join((if text == "" then [] else [TextPiece(text)]) + [p], LexFrom(rest, false))
  {
    PrintOpens(p, rest);
    hide *;
    LexTail(text, p, PrintPiece(p) + rest, " " + p.body + " ", rest);
  }

  lemma LexTail(text: string, p: Piece, tail: string, padded: string, rest: string)
    requires !p.TextPiece? && PrintablePiece(p) && (text == "" || PrintableText(text))
    requires 1 < |tail| && OpensAt(tail, 0) && (tail[1] == '%' <==> p.TagPiece?)
    requires padded == " " + p.body + " " && tail[2..] == padded + ([Closer(p.TagPiece?)[0], '}'] + rest)
    ensures LexFrom(text + tail, false)
      == Join((if text == "" then [] else [TextPiece(text)]) + [p], LexFrom(rest, false))
  {
    hide *;
    PieceParts(p);
    FrontPadded(text, p, tail, rest);
    SliceTwice(text, tail, padded, [Closer(p.TagPiece?)[0], '}'], rest);
    LexStep(text + tail, (if text == "" then [] else [TextPiece(text)]) + [p], |text| + 2 + |padded| + 2);
  }

  lemma FrontPadded(text: string, p: Piece, tail: string, rest: string)
    requires !p.TextPiece? && PrintablePiece(p) && (text == "" || PrintableText(text))
    requires 1 < |tail| && OpensAt(tail, 0) && (tail[1] == '%' <==> p.TagPiece?)
    requires tail[2..] == (" " + p.body + " ") + ([Closer(p.TagPiece?)[0], '}'] + rest)
    ensures FrontOf(text + tail, false)
      == Front((if text == "" then [] else [TextPiece(text)]) + [p], |text| + 2 + |" " + p.body + " "| + 2, false)
  {
    hide *;
    var padded := " " + p.body + " ";
    PieceParts(p);
    var c := Closer(p.TagPiece?)[0];
    TextBefore(text, tail);
    Slices(text, tail);
    PaddedCloses(p.body, c);
    FindCloseExact(padded, c, rest);
    Cut(padded, c, rest);
    FrontStep(text + tail, |text|, p.TagPiece?, tail[2..], |padded|, padded);
    PaddedBody(p.body, c);
    TextAlone(text);
  }

  lemma SliceTwice(a: string, b: string, x: string, y: string, z: string)
    requires 2 <= |b| && b[2..] == x + (y + z) && |y| == 2
    ensures (a + b)[|a| + 2 + |x| + 2..] == z
  {
    assert a + b == (a + b[..2] + x + y) + z;
  }

  lemma PieceParts(p: Piece)
    requires !p.TextPiece? && PrintablePiece(p)
    ensures Closer(p.TagPiece?) != "" && Closer(p.TagPiece?)[0] != ' ' && PrintableBody(p.body, Closer(p.TagPiece?)[0])
    ensures MakePiece(p.TagPiece?, p.body) == p
  {
    hide PrintableBody;
  }

  lemma Cut(padded: string, c: char, rest: string)
    requires |padded| > 1 && padded[0] == padded[|padded| - 1] == ' '
    ensures var after := padded + ([c, '}'] + rest);
      && |padded| < |after| && after[..|padded|] == padded && after[|padded| + 2..] == rest
      && !Dash(after) && !LastDash(padded)
  {
  }

  lemma Slices(a: string, b: string)
    requires 1 < |b|
    ensures (a + b)[..|a|] == a && (a + b)[|a| + 2..] == b[2..] && (a + b)[|a| + 1] == b[1]
  {
  }

  lemma TextBefore(text: string, tail: string)
    requires (text == "" || PrintableText(text)) && OpensAt(tail, 0)
    ensures FindOpen(text + tail) == |text|
  {
    FindOpenExact(text, tail);
  }

  lemma TextAlone(text: string)
    ensures TextOf(text, false, false) == if text == "" then [] else [TextPiece(text)]
  {
  }

  lemma PrintOpens(p: Piece, rest: string)
    requires !p.TextPiece?
    ensures var s := PrintPiece(p) + rest; 1 < |s| && OpensAt(s, 0) && (s[1] == '%' <==> p.TagPiece?)
    ensures (PrintPiece(p) + rest)[2..] == (" " + p.body + " ") + ([Closer(p.TagPiece?)[0], '}'] + rest)
  {
    var open, padded, close := if p.TagPiece? then "{%" else "{{", " " + p.body + " ", Closer(p.TagPiece?);
    assert close == [close[0], '}'];
    assert PrintPiece(p) == open + (padded + close);
    assert PrintPiece(p) + rest == open + (padded + (close + rest));
  }

  lemma PaddedCloses(b: string, c: char)
    requires PrintableBody(b, c) && c != ' '
    ensures var s := " " + b + " "; forall i :: 0 <= i < |s| - 1 ==> !(s[i] == c && s[i + 1] == '}')
  {
    var s := " " + b + " ";
    assert forall i :: 0 < i <= |b| ==> s[i] == b[i - 1];
  }

  /// From source to nodes

  function TemplateOf(q: LiquidGrammar.Quoting, src: string): Result<seq<LiquidSyntax.Node>> {
    match LexFrom(src, false)
    case Err(fault) => LiquidScanner.Err(fault)
    case Ok(pieces) => ReadTemplate(q, pieces)
  }

  method Parse(q: LiquidGrammar.Quoting, src: string) returns (r: Result<seq<LiquidSyntax.Node>>)
    ensures r == TemplateOf(q, src)
  {
    var toks := Lex(src);
    if toks.Err? {
      return LiquidScanner.Err(toks.fault);
    }
    r := ParsePieces(q, toks.value);
  }

  // A printed template parses exactly when its pieces are well nested.
  lemma PrintedParses(q: LiquidGrammar.Quoting, ps: seq<Piece>, nodes: seq<LiquidSyntax.Node>)
    requires Printable(ps)
    ensures TemplateOf(q, Print(ps)) == LiquidScanner.Ok(nodes) <==> LiquidNesting.Nests(q, ps, nodes)
  {
    hide Print, Printable, LexFrom;
    LexPrinted(ps);
    LiquidNesting.TemplateExact(q, ps, nodes);
  }
}
