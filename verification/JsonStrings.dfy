/** What writeJSONString writes decodes to what it was given (canonjson.go). */
module JsonStrings {
  import opened Options
  import opened Utf8
  import opened CanonicalJson

  // One step's input as it comes back: an undecodable byte as U+FFFD.
  function StepValid(s: string): string
    requires s != ""
  {
    if RuneSize(s) == 0 then REPLACEMENT else s[..RuneSize(s)]
  }

  lemma ToValidStep(s: string)
    requires s != ""
    ensures ToValid(s) == StepValid(s) + ToValid(s[StepSize(s)..])
  {
  }

  lemma UnescapeControl(c: char, more: string)
    requires c as int < 0x20
    ensures var e := "u00" + [HexDigit(c as int / 16), HexDigit(c as int % 16)];
      Unescape(e + more) == Some(([c], 5))
  {
    var a, b := c as int / 16, c as int % 16;
    assert HexValue(HexDigit(a)) == a && HexValue(HexDigit(b)) == b;
    var t := ("u00" + [HexDigit(a), HexDigit(b)]) + more;
    assert t[1..][0] == '0' && t[1..][1] == '0' && t[1..][2] == HexDigit(a) && t[1..][3] == HexDigit(b);
    assert Hex4(t[1..]) == 16 * a + b == c as int;
    assert t[0] == 'u';
  }

  lemma UnquoteEscaped(c: char, more: string)
    requires c as int < 0x80
    ensures Unquote(Escaped(c) + more) == Prepend([c], Unquote(more))
  {
    hide Unquote, Escaped;
    if c in "\"\\\n\r\t\U{0008}\U{000C}" {
      UnquoteShort(c, more);
    } else if c as int < 0x20 {
      UnquoteControl(c, more);
    } else {
      UnquotePlain(c, more);
    }
  }

  lemma UnquoteShort(c: char, more: string)
    requires c in "\"\\\n\r\t\U{0008}\U{000C}"
    ensures Unquote(Escaped(c) + more) == Prepend([c], Unquote(more))
  {
    hide Hex4, RuneSize;
    var t := Escaped(c) + more;
    assert t[0] == '\\' && t[1..][0] == Escaped(c)[1];
    assert t[2..] == more;
    assert Unescape(t[1..]) == Some(([c], 1));
  }

  lemma UnquoteControl(c: char, more: string)
    requires c as int < 0x20 && c !in "\"\\\n\r\t\U{0008}\U{000C}"
    ensures Unquote(Escaped(c) + more) == Prepend([c], Unquote(more))
  {
    hide Unescape, RuneSize, HexDigit;
    var e := "u00" + [HexDigit(c as int / 16), HexDigit(c as int % 16)];
    var t := Escaped(c) + more;
    assert t[0] == '\\' && t[1..] == e + more;
    UnescapeControl(c, more);
    assert t[6..] == more;
  }

  lemma UnquotePlain(c: char, more: string)
    requires 0x20 <= c as int < 0x80 && c !in "\"\\"
    ensures Unquote(Escaped(c) + more) == Prepend([c], Unquote(more))
  {
    hide Unescape;
    var t := Escaped(c) + more;
    assert t[1..] == more && t[..1] == [c];
    assert RuneSize(t) == 1 by { assert ByteAt(t, 0) == c as int; }
  }

  lemma UnquoteRune(r: string, more: string)
    requires RuneSize(r) == |r| > 1
    ensures Unquote(r + more) == Prepend(r, Unquote(more))
  {
    RuneSizeConcat(r, more);
    assert (r + more)[..|r|] == r && (r + more)[|r|..] == more;
    assert (r + more)[0] == r[0] && r[0] as int >= 0x80 by { assert ByteAt(r, 0) == r[0] as int; }
  }

  lemma UnquoteStep(s: string, more: string)
    requires s != ""
    ensures Unquote(StepText(s) + more) == Prepend(StepValid(s), Unquote(more))
  {
    if s[0] as int < 0x80 {
      assert ByteAt(s, 0) == s[0] as int;
      assert s[..1] == [s[0]];
      UnquoteEscaped(s[0], more);
    } else if RuneSize(s) == 0 {
      assert RuneSize(REPLACEMENT) == 3;
      UnquoteRune(REPLACEMENT, more);
    } else {
      RuneSizeOfPrefix(s, RuneSize(s));
      assert RuneSize(s) > 1 by { assert ByteAt(s, 0) == s[0] as int; }
      UnquoteRune(s[..RuneSize(s)], more);
    }
  }

  // For any byte string, valid or not, the quoted form is a legal JSON string
  // that decodes to the input with every undecodable byte replaced by U+FFFD.
  lemma {:induction false} UnquoteQuoted(s: string, rest: string)
    ensures Unquote(QuoteBody(s) + "\"" + rest) == Some((ToValid(s), rest))
  {
    hide RuneSize, StepText, StepValid, ToValid, Unquote, REPLACEMENT;
    if s == "" {
      UnquoteEnd(rest);
    } else {
      var tail := s[StepSize(s)..];
      var more := QuoteBody(tail) + "\"" + rest;
      assert QuoteBody(s) + "\"" + rest == StepText(s) + more;
      UnquoteStep(s, more);
      UnquoteQuoted(tail, rest);
      ToValidStep(s);
    }
  }

  lemma UnquoteEnd(rest: string)
    ensures Unquote(QuoteBody("") + "\"" + rest) == Some((ToValid(""), rest))
  {
    var t := QuoteBody("") + "\"" + rest;
    assert t[0] == '"' && t[1..] == rest;
  }

  // Two strings are written alike exactly when they differ only in which
  // undecodable bytes they hold.
  lemma QuoteEqual(a: string, b: string)
    ensures Quote(a) == Quote(b) <==> ToValid(a) == ToValid(b)
  {
    UnquoteQuoted(a, "");
    UnquoteQuoted(b, "");
    assert Quote(a)[1..] == QuoteBody(a) + "\"" + "" && Quote(b)[1..] == QuoteBody(b) + "\"" + "";
    QuoteOfToValid(a);
    QuoteOfToValid(b);
  }

  lemma {:induction false} QuoteOfToValid(s: string)
    ensures QuoteBody(ToValid(s)) == QuoteBody(s)
  {
    if s != "" {
      var n := StepSize(s);
      var tail := s[n..];
      QuoteOfToValid(tail);
      var v := StepValid(s);
      ToValidStep(s);
      StepOfStepValid(s, ToValid(tail));
      assert (v + ToValid(tail))[|v|..] == ToValid(tail);
    }
  }

  lemma StepOfStepValid(s: string, more: string)
    requires s != ""
    ensures var v := StepValid(s);
      StepSize(v + more) == |v| && StepText(v + more) == StepText(s)
  {
    var v := StepValid(s);
    assert RuneSize(v) == |v| by {
      if RuneSize(s) == 0 { assert RuneSize(REPLACEMENT) == 3; } else { RuneSizeOfPrefix(s, RuneSize(s)); }
    }
    RuneSizeConcat(v, more);
    assert (v + more)[..|v|] == v && (v + more)[0] == v[0];
    assert ByteAt(s, 0) == s[0] as int;
  }

  lemma {:induction false} QuoteBodyIsValid(s: string)
    ensures Valid(QuoteBody(s))
  {
    if s != "" {
      QuoteBodyIsValid(s[StepSize(s)..]);
      StepTextIsValid(s);
      hide RuneSize, Valid, StepText;
      ValidConcat(StepText(s), QuoteBody(s[StepSize(s)..]));
    }
  }

  lemma StepTextIsValid(s: string)
    requires s != ""
    ensures Valid(StepText(s))
  {
    if s[0] as int < 0x80 {
      AsciiIsValid(Escaped(s[0]));
    } else if RuneSize(s) == 0 {
      assert REPLACEMENT[3..] == "";
    } else {
      RuneSizeOfPrefix(s, RuneSize(s));
      assert s[..RuneSize(s)][RuneSize(s)..] == "";
    }
  }

  lemma QuoteIsValid(s: string)
    ensures Valid(Quote(s))
  {
    AsciiIsValid("\"");
    QuoteBodyIsValid(s);
    hide RuneSize, Valid, QuoteBody;
    ValidConcat("\"", QuoteBody(s));
    ValidConcat("\"" + QuoteBody(s), "\"");
  }
}
