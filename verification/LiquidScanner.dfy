/** The expression scanner of the Liquid subset (internal/liquid/parse.go). */
module LiquidScanner {
  import opened Options
  import Decimals

  datatype Kind = Ident | Quoted | Number | Operator | Punct

  datatype Token = Token(kind: Kind, text: string)

  // Why a template does not parse.  The messages themselves are not modelled.
  datatype Fault =
    | UnterminatedString | UnexpectedCharacter(c: char)
    | EndOfExpression | UnexpectedToken(text: string)
    | NoPropertyName | NoIndex | NotAnInteger | UnsupportedIndex | NoBracket
    | EmptyExpression | TrailingTokens | NoFilterName
    | UnexpectedTag(name: string) | Expected(name: string)
    | MalformedFor | MalformedAssign | MalformedTarget | NoCloser(closer: string)

  datatype Result<+T> = Ok(value: T) | Err(fault: Fault)

  predicate Blank(c: char) {
    c == ' ' || c == '\t' || c == '\r' || c == '\n'
  }

  predicate IsDigit(c: char) {
    '0' <= c <= '9'
  }

  predicate IsLetter(c: char) {
    c == '_' || 'a' <= c <= 'z' || 'A' <= c <= 'Z'
  }

  predicate NumberChar(c: char) {
    IsDigit(c) || c == '.'
  }

  predicate IdentChar(c: char) {
    IsLetter(c) || IsDigit(c) || c == '-'
  }

  function NumberRun(src: string): (n: nat)
    ensures n <= |src|
  {
    if src != "" && NumberChar(src[0]) then 1 + NumberRun(src[1..]) else 0
  }

  function IdentRun(src: string): (n: nat)
    ensures n <= |src|
  {
    if src != "" && IdentChar(src[0]) then 1 + IdentRun(src[1..]) else 0
  }

  // What a string literal holds after its opening quote, and how many bytes
  // it takes with its closing one; a backslash keeps the next byte as it is.
  datatype Body = Closed(text: string, size: nat) | Open

  function StringBody(src: string, quote: char): (r: Body)
    ensures r.Closed? ==> 0 < r.size <= |src|
  {
    if src == "" then Open
    else if src[0] == quote then Closed("", 1)
    else
      var k := if src[0] == '\\' && 1 < |src| then 1 else 0;
      match StringBody(src[k + 1..], quote)
      case Open => Open
      case Closed(text, size) => Closed([src[k]] + text, k + 1 + size)
  }

  datatype Lexeme = Lexeme(token: Token, size: nat) | Bad(fault: Fault)

  predicate StartsNumber(src: string) {
    src != "" && (IsDigit(src[0]) || (src[0] == '-' && 1 < |src| && IsDigit(src[1])))
  }

  function Op(src: string): (op: string)
    ensures |op| <= |src|
  {
    var c, eq := src != "" && src[0] in "=!><", 1 < |src| && src[1] == '=';
    if c && eq then src[..2]
    else if 1 < |src| && src[..2] == "<>" then src[..2]
    else if c && src[0] in "><" then src[..1]
    else ""
  }

  function Lex(src: string): (r: Lexeme)
    requires src != "" && !Blank(src[0])
    ensures r.Lexeme? ==> 0 < r.size <= |src|
  {
    var c := src[0];
    if c == '"' || c == '\'' then
      match StringBody(src[1..], c)
      case Open => Bad(UnterminatedString)
      case Closed(text, size) => Lexeme(Token(Quoted, text), 1 + size)
    else if StartsNumber(src) then
      var n := 1 + NumberRun(src[1..]);
      Lexeme(Token(Number, src[..n]), n)
    else if IsLetter(c) then
      var n := IdentRun(src);
      Lexeme(Token(Ident, src[..n]), n)
    else if Op(src) != "" then
      Lexeme(Token(Operator, if Op(src) == "<>" then "!=" else Op(src)), |Op(src)|)
    else if c in ".[]|:," then Lexeme(Token(Punct, [c]), 1)
    else Bad(UnexpectedCharacter(c))
  }

  function Scan(src: string): Result<seq<Token>>
    decreases |src|
  {
    if src == "" then Ok([])
    else if Blank(src[0]) then Scan(src[1..])
    else match Lex(src)
      case Bad(fault) => Err(fault)
      case Lexeme(token, size) => Prepend(token, Scan(src[size..]))
  }

  function Prepend(token: Token, r: Result<seq<Token>>): Result<seq<Token>> {
    if r.Ok? then Ok([token] + r.value) else r
  }

  /// The scanning loops

  // A literal whose first n bytes gave sb and whose rest is b.
  ghost function Grown(sb: string, n: int, b: Body): Body {
    match b
    case Open => Open
    case Closed(text, size) => if 0 <= n then Closed(sb + text, n + size) else Open
  }

  lemma StringStep(src: string, quote: char, sb: string, n: nat, k: nat)
    requires src != "" && src[0] != quote
    requires k == if src[0] == '\\' && 1 < |src| then 1 else 0
    ensures Grown(sb, n, StringBody(src, quote)) == Grown(sb + [src[k]], n + k + 1, StringBody(src[k + 1..], quote))
  {
    var b := StringBody(src[k + 1..], quote);
    if b.Closed? {
      assert sb + ([src[k]] + b.text) == sb + [src[k]] + b.text;
    }
  }

  method ScanString(src: string, i: nat) returns (r: Result<string>, j: nat)
    requires i < |src|
    ensures match StringBody(src[i + 1..], src[i])
      case Open => r == Err(UnterminatedString)
      case Closed(text, size) => r == Ok(text) && j == i + 1 + size <= |src|
  {
    hide StringBody, Grown;
    j := i + 1;
    var sb := "";
    GrownFromNothing(StringBody(src[i + 1..], src[i]));
    while j < |src| && src[j] != src[i]
      invariant i < j <= |src|
      invariant StringBody(src[i + 1..], src[i]) == Grown(sb, j - (i + 1), StringBody(src[j..], src[i]))
    {
      ghost var rest, from, was := src[j..], j, sb;
      if src[j] == '\\' && j + 1 < |src| {
        j := j + 1;
      }
      sb := sb + [src[j]];
      j := j + 1;
      StringStep(rest, src[i], was, from - (i + 1), j - 1 - from);
      assert rest[j - from..] == src[j..];
    }
    StringEnd(src[j..], src[i], sb, j - (i + 1));
    if j >= |src| {
      return Err(UnterminatedString), j;
    }
    return Ok(sb), j + 1;
  }

  lemma GrownFromNothing(b: Body)
    ensures Grown("", 0, b) == b
  {
    if b.Closed? {
      assert "" + b.text == b.text;
    }
  }

  lemma StringEnd(src: string, quote: char, sb: string, n: nat)
    requires src == "" || src[0] == quote
    ensures Grown(sb, n, StringBody(src, quote)) == if src == "" then Open else Closed(sb, n + 1)
  {
    assert sb + "" == sb;
  }

  method ScanToken(src: string, i: nat) returns (r: Result<Token>, j: nat)
    requires i < |src| && !Blank(src[i])
    ensures match Lex(src[i..])
      case Bad(fault) => r == Err(fault)
      case Lexeme(token, size) => r == Ok(token) && j == i + size
  {
    hide StringBody, NumberRun, IdentRun;
    var c := src[i];
    ghost var rest := src[i..];
    assert rest[0] == c && rest[1..] == src[i + 1..];
    if c == '"' || c == '\'' {
      var text, k := ScanString(src, i);
      return if text.Ok? then Ok(Token(Quoted, text.value)) else Err(text.fault), k;
    } else if StartsNumber(src[i..]) {
      j := NumberEnd(src, i + 1);
      assert src[i..j] == rest[..j - i];
      return Ok(Token(Number, src[i..j])), j;
    } else if IsLetter(c) {
      j := IdentEnd(src, i);
      assert src[i..j] == rest[..j - i];
      return Ok(Token(Ident, src[i..j])), j;
    } else if Op(src[i..]) != "" {
      var op := Op(src[i..]);
      return Ok(Token(Operator, if op == "<>" then "!=" else op)), i + |op|;
    } else if c in ".[]|:," {
      return Ok(Token(Punct, [c])), i + 1;
    } else {
      return Err(UnexpectedCharacter(c)), i;
    }
  }

  method ScanExpr(src: string) returns (r: Result<seq<Token>>)
    ensures r == Scan(src)
  {
    var out, i := [], 0;
    assert src[0..] == src && After([], Scan(src)) == Scan(src) by { AfterNothing(Scan(src)); }
    while i < |src|
      invariant i <= |src|
      invariant Scan(src) == After(out, Scan(src[i..]))
    {
      hide Lex, After;
      ghost var rest := src[i..];
      assert rest[0] == src[i];
      if Blank(src[i]) {
        assert rest[1..] == src[i + 1..];
        i := i + 1;
      } else {
        var token, j := ScanToken(src, i);
        if token.Err? {
          assert Scan(src) == After(out, Err(token.fault));
          AfterFault(out, token.fault);
          return Err(token.fault);
        }
        assert rest[j - i..] == src[j..];
        AfterNext(out, token.value, Scan(src[j..]));
        out := out + [token.value];
        i := j;
      }
    }
    assert Scan(src) == After(out, Ok([]));
    assert out + [] == out;
    return Ok(out);
  }

  lemma AfterNothing(r: Result<seq<Token>>)
    ensures After([], r) == r
  {
    if r.Ok? {
      assert [] + r.value == r.value;
    }
  }

  lemma AfterFault(out: seq<Token>, fault: Fault)
    ensures After(out, Err(fault)) == Err(fault)
  {
  }

  function After(out: seq<Token>, r: Result<seq<Token>>): Result<seq<Token>> {
    if r.Ok? then Ok(out + r.value) else r
  }

  lemma AfterNext(out: seq<Token>, token: Token, r: Result<seq<Token>>)
    ensures After(out, Prepend(token, r)) == After(out + [token], r)
  {
    if r.Ok? {
      assert out + ([token] + r.value) == out + [token] + r.value;
    }
  }

  method NumberEnd(src: string, i: nat) returns (j: nat)
    requires i <= |src|
    ensures j == i + NumberRun(src[i..])
  {
    j := i;
    while j < |src| && NumberChar(src[j])
      invariant i <= j <= |src| && j + NumberRun(src[j..]) == i + NumberRun(src[i..])
    {
      assert src[j..][1..] == src[j + 1..];
      j := j + 1;
    }
  }

  method IdentEnd(src: string, i: nat) returns (j: nat)
    requires i <= |src|
    ensures j == i + IdentRun(src[i..])
  {
    j := i;
    while j < |src| && IdentChar(src[j])
      invariant i <= j <= |src| && j + IdentRun(src[j..]) == i + IdentRun(src[i..])
    {
      assert src[j..][1..] == src[j + 1..];
      j := j + 1;
    }
  }

  /// Spelling: every token sequence the scanner can produce has a source

  // A string literal is spelled with every byte escaped, so that nothing in it
  // can end the literal or the tag around it.
  function Escaped(s: string): string {
    if s == "" then "" else ['\\', s[0]] + Escaped(s[1..])
  }

  predicate Spellable(t: Token) {
    match t.kind
    case Ident => t.text != "" && IsLetter(t.text[0]) && forall i :: 0 <= i < |t.text| ==> IdentChar(t.text[i])
    case Quoted => true
    case Number => StartsNumber(t.text) && forall i :: 1 <= i < |t.text| ==> NumberChar(t.text[i])
    case Operator => t.text in ["==", "!=", ">=", "<=", ">", "<"]
    case Punct => t.text in [".", "[", "]", "|", ":", ","]
  }

  function SpellToken(t: Token): string {
    if t.kind.Quoted? then "\"" + Escaped(t.text) + "\"" else t.text
  }

  function Spell(toks: seq<Token>): string {
    if toks == [] then "" else SpellToken(toks[0]) + " " + Spell(toks[1..])
  }

  lemma {:induction false} StringBodyEscaped(s: string, rest: string)
    ensures StringBody(Escaped(s) + "\"" + rest, '"') == Closed(s, |Escaped(s)| + 1)
  {
    var src := Escaped(s) + "\"" + rest;
    if s == "" {
      assert src[0] == '"';
    } else {
      assert src[0] == '\\' && src[1] == s[0] && src[2..] == Escaped(s[1..]) + "\"" + rest;
      StringBodyEscaped(s[1..], rest);
      assert [s[0]] + s[1..] == s;
    }
  }

  lemma {:induction false} IdentRunExact(s: string, rest: string)
    requires forall i :: 0 <= i < |s| ==> IdentChar(s[i])
    requires rest == "" || !IdentChar(rest[0])
    ensures IdentRun(s + rest) == |s|
  {
    if s == "" {
      assert s + rest == rest;
    } else {
      assert (s + rest)[1..] == s[1..] + rest;
      IdentRunExact(s[1..], rest);
    }
  }

  lemma {:induction false} NumberRunExact(s: string, rest: string)
    requires forall i :: 0 <= i < |s| ==> NumberChar(s[i])
    requires rest == "" || !NumberChar(rest[0])
    ensures NumberRun(s + rest) == |s|
  {
    if s == "" {
      assert s + rest == rest;
    } else {
      assert (s + rest)[1..] == s[1..] + rest;
      NumberRunExact(s[1..], rest);
    }
  }

  lemma LexSpelled(t: Token, rest: string)
    requires Spellable(t) && (rest == "" || rest[0] == ' ')
    ensures SpellToken(t) != "" && !Blank(SpellToken(t)[0])
    ensures Lex(SpellToken(t) + rest) == Lexeme(t, |SpellToken(t)|)
  {
    match t.kind
    case Quoted => LexQuoted(t, rest);
    case Number => LexNumber(t, rest);
    case Ident => LexIdent(t, rest);
    case Operator => LexOperator(t, rest);
    case Punct => LexPunct(t, rest);
  }

  lemma LexQuoted(t: Token, rest: string)
    requires t.kind.Quoted?
    ensures Lex(SpellToken(t) + rest) == Lexeme(t, |SpellToken(t)|)
  {
    hide StringBody, Escaped;
    StringBodyEscaped(t.text, rest);
    assert (SpellToken(t) + rest)[1..] == Escaped(t.text) + "\"" + rest;
  }

  lemma LexNumber(t: Token, rest: string)
    requires Spellable(t) && t.kind.Number? && (rest == "" || rest[0] == ' ')
    ensures Lex(t.text + rest) == Lexeme(t, |t.text|)
  {
    hide NumberRun;
    NumberRunExact(t.text[1..], rest);
    var src := t.text + rest;
    assert src[1..] == t.text[1..] + rest && src[..|t.text|] == t.text;
    assert StartsNumber(src);
  }

  lemma LexIdent(t: Token, rest: string)
    requires Spellable(t) && t.kind.Ident? && (rest == "" || rest[0] == ' ')
    ensures Lex(t.text + rest) == Lexeme(t, |t.text|)
  {
    hide IdentRun;
    IdentRunExact(t.text, rest);
    var src := t.text + rest;
    assert src[..|t.text|] == t.text && src[0] == t.text[0];
    assert !StartsNumber(src);
  }

  lemma LexOperator(t: Token, rest: string)
    requires Spellable(t) && t.kind.Operator? && (rest == "" || rest[0] == ' ')
    ensures Lex(t.text + rest) == Lexeme(t, |t.text|)
  {
    var src := t.text + rest;
    assert src[0] == t.text[0] && src[..1] == [src[0]] && !StartsNumber(src);
    if |src| > 1 {
      assert src[..2] == [src[0], src[1]];
    } else {
      assert src == t.text;
    }
    assert Op(src) == t.text;
  }

  lemma LexPunct(t: Token, rest: string)
    requires Spellable(t) && t.kind.Punct?
    ensures Lex(t.text + rest) == Lexeme(t, |t.text|)
  {
    var src := t.text + rest;
    assert src[0] == t.text[0] && t.text == [src[0]];
    assert !StartsNumber(src) && Op(src) == "";
  }

  // Scanning a spelling gives the tokens back.
  lemma {:induction false} ScanSpelled(toks: seq<Token>)
    requires forall i :: 0 <= i < |toks| ==> Spellable(toks[i])
    ensures Scan(Spell(toks)) == Ok(toks)
  {
    hide Lex, SpellToken, Spellable;
    if toks != [] {
      var a, rest := SpellToken(toks[0]), " " + Spell(toks[1..]);
      var src := Spell(toks);
      assert src == a + rest;
      LexSpelled(toks[0], rest);
      assert src[0] == a[0] && src[|a|..] == rest && rest[1..] == Spell(toks[1..]);
      ScanSpelled(toks[1..]);
      assert [toks[0]] + toks[1..] == toks;
    }
  }

  lemma {:induction false} RunsMatch(src: string)
    ensures forall i :: 0 <= i < IdentRun(src) ==> IdentChar(src[i])
    ensures forall i :: 0 <= i < NumberRun(src) ==> NumberChar(src[i])
  {
    if src != "" {
      RunsMatch(src[1..]);
      assert forall i :: 0 < i < |src| ==> src[i] == src[1..][i - 1];
    }
  }

  lemma LexSpellable(src: string)
    requires src != "" && !Blank(src[0])
    ensures Lex(src).Lexeme? ==> Spellable(Lex(src).token)
  {
    hide StringBody, NumberRun, IdentRun;
    RunsMatch(src);
    RunsMatch(src[1..]);
    assert forall i :: 0 < i < |src| ==> src[i] == src[1..][i - 1];
    RunsStart(src);
    if 1 < |src| {
      RunsStart(src[1..]);
    }
    OpsListed(src);
    hide Op;
    assert src[0] in ".[]|:," ==> [src[0]] in [".", "[", "]", "|", ":", ","];
  }

  lemma OpsListed(src: string)
    requires src != ""
    ensures Op(src) == "" || Op(src) == "<>" || Op(src) in ["==", "!=", ">=", "<=", ">", "<"]
  {
    assert src[..1] == [src[0]];
    if 1 < |src| {
      assert src[..2] == [src[0], src[1]];
    }
  }

  lemma RunsStart(src: string)
    requires src != ""
    ensures IsLetter(src[0]) ==> IdentRun(src) > 0
    ensures IsDigit(src[0]) ==> NumberRun(src) > 0
  {
  }

  // Every source that scans has a spelling of its own that scans alike.
  lemma {:induction false} ScanRespelled(src: string)
    ensures Scan(src).Ok? ==> Scan(Spell(Scan(src).value)) == Scan(src)
  {
    ScannedSpellable(src);
    if Scan(src).Ok? {
      ScanSpelled(Scan(src).value);
    }
  }

  lemma {:induction false} ScannedSpellable(src: string)
    ensures Scan(src).Ok? ==> forall i :: 0 <= i < |Scan(src).value| ==> Spellable(Scan(src).value[i])
    decreases |src|
  {
    hide Lex, Spellable;
    if src == "" {
    } else if Blank(src[0]) {
      ScannedSpellable(src[1..]);
    } else if Lex(src).Lexeme? {
      LexSpellable(src);
      ScannedSpellable(src[Lex(src).size..]);
    }
  }

  /// Whole numbers

  const MIN_INT64 := -0x8000_0000_0000_0000
  const MAX_INT64 := 0x7FFF_FFFF_FFFF_FFFF

  // strconv.ParseInt in base ten, on number tokens: they carry no plus sign.
  function Int64Of(text: string): (r: Option<int>)
    ensures r.Some? ==> MIN_INT64 <= r.value <= MAX_INT64
  {
    var negative := text != "" && text[0] == '-';
    var digits := if negative then text[1..] else text;
    if digits != "" && forall i :: 0 <= i < |digits| ==> '0' <= digits[i] <= '9' then
      var n := if negative then 0 - Decimals.ValueOf(digits) else Decimals.ValueOf(digits);
      if MIN_INT64 <= n <= MAX_INT64 then Some(n) else None
    else None
  }
}
