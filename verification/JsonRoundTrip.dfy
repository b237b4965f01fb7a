/** Canonical JSON has an inverse (canonjson.go). */
module JsonRoundTrip {
  import opened Options
  import opened Utf8
  import opened SortedStrings
  import opened CanonicalJson
  import opened JsonStrings

  // Values whose strings are valid UTF-8 and whose number tokens are numbers.
  predicate WellFormed(j: Json)
    decreases j
  {
    match j
    case Null => true
    case Bool(_) => true
    case Str(text) => Valid(text)
    case Num(token) => WellFormedNumber(token)
    case Arr(items) => forall i :: 0 <= i < |items| ==> WellFormed(items[i])
    case Obj(fields) => forall k :: k in fields ==> Valid(k) && WellFormed(fields[k])
  }

  // What may follow a value without changing where it ends.
  predicate Delimited(rest: string) {
    rest == "" || !NumberChar(rest[0])
  }

  /// Numbers

  lemma {:induction false} DigitsAreNumberChars(s: string)
    ensures forall i :: 0 <= i < DigitSpan(s) ==> NumberChar(s[i])
  {
    if s != "" && '0' <= s[0] <= '9' {
      DigitsAreNumberChars(s[1..]);
      forall i | 0 <= i < DigitSpan(s) ensures NumberChar(s[i]) {
        if i > 0 { assert s[i] == s[1..][i - 1]; }
      }
    }
  }

  lemma ExponentChars(s: string)
    requires Exponent(s)
    ensures forall i :: 0 <= i < |s| ==> NumberChar(s[i])
  {
    if s != "" {
      var skip := if |s| > 1 && s[1] in "+-" then 2 else 1;
      DigitsAreNumberChars(s[skip..]);
      assert forall i :: skip <= i < |s| ==> s[i] == s[skip..][i - skip];
    }
  }

  lemma FractionChars(s: string)
    requires Fraction(s)
    ensures forall i :: 0 <= i < |s| ==> NumberChar(s[i])
  {
    if s != "" && s[0] == '.' {
      var n := DigitSpan(s[1..]);
      DigitsAreNumberChars(s[1..]);
      ExponentChars(s[1 + n..]);
      assert forall i :: 1 <= i < 1 + n ==> s[i] == s[1..][i - 1];
      assert forall i :: 1 + n <= i < |s| ==> s[i] == s[1 + n..][i - 1 - n];
    } else {
      ExponentChars(s);
    }
  }

  lemma UnsignedChars(s: string)
    requires UnsignedNumber(s)
    ensures '0' <= s[0] <= '9' && forall i :: 0 <= i < |s| ==> NumberChar(s[i])
  {
    var n := DigitSpan(s);
    DigitsAreNumberChars(s);
    FractionChars(s[n..]);
    assert forall i :: n <= i < |s| ==> s[i] == s[n..][i - n];
  }

  lemma WellFormedNumberChars(s: string)
    requires WellFormedNumber(s)
    ensures s != "" && (s[0] == '-' || '0' <= s[0] <= '9')
    ensures forall i :: 0 <= i < |s| ==> NumberChar(s[i])
  {
    if s != "" && s[0] == '-' {
      UnsignedChars(s[1..]);
      assert forall i :: 1 <= i < |s| ==> s[i] == s[1..][i - 1];
    } else {
      UnsignedChars(s);
    }
  }

  lemma {:induction false} NumberSpanOf(token: string, rest: string)
    requires forall i :: 0 <= i < |token| ==> NumberChar(token[i])
    requires Delimited(rest)
    ensures NumberSpan(token + rest) == |token|
  {
    if token == "" {
      assert token + rest == rest;
    } else {
      assert (token + rest)[1..] == token[1..] + rest;
      NumberSpanOf(token[1..], rest);
    }
  }

  lemma ParseNumber(token: string, rest: string)
    requires WellFormedNumber(token) && Delimited(rest)
    ensures Parse(Encode(Num(token)) + rest) == Some((Num(token), rest))
  {
    hide WellFormedNumber, UnsignedNumber, NumberSpan, ParseItems, ParseFields, Unquote;
    WellFormedNumberChars(token);
    NumberSpanOf(token, rest);
    var s := token + rest;
    assert s[0] == token[0] && s[..|token|] == token && s[|token|..] == rest;
    NoWord(s);
  }

  // Neither a word nor a bracket starts with a digit or a minus sign.
  lemma NoWord(s: string)
    requires s != "" && (s[0] == '-' || '0' <= s[0] <= '9')
    ensures var n := NumberSpan(s);
      Parse(s) == if n > 0 && WellFormedNumber(s[..n]) then Some((Num(s[..n]), s[n..])) else None
  {
    hide WellFormedNumber, NumberSpan, ParseItems, ParseFields, Unquote;
  }

  /// Values

  // The first character decides which kind of value follows.
  lemma EncodeHead(j: Json)
    requires WellFormed(j)
    ensures Encode(j) != "" && Encode(j)[0] != ']' && Encode(j)[0] != '}'
  {
    if j.Num? { WellFormedNumberChars(j.token); }
  }

  lemma ParseWord(j: Json, rest: string)
    requires j.Null? || j.Bool?
    ensures Parse(Encode(j) + rest) == Some((j, rest))
  {
    var s := Encode(j) + rest;
    assert s[..|Encode(j)|] == Encode(j) && s[|Encode(j)|..] == rest;
    assert s[0] == Encode(j)[0];
  }

  lemma ParseStr(text: string, rest: string)
    requires Valid(text)
    ensures Parse(Encode(Str(text)) + rest) == Some((Str(text), rest))
  {
    hide QuoteBody, Unquote, Valid, RuneSize;
    var s := Quote(text) + rest;
    assert s[0] == '"' && s[1..] == QuoteBody(text) + "\"" + rest;
    UnquoteQuoted(text, rest);
    ToValidKeepsValid(text);
  }

  lemma {:induction false} ParseEncode(j: Json, rest: string)
    requires WellFormed(j) && Delimited(rest)
    ensures Parse(Encode(j) + rest) == Some((j, rest))
    decreases j, 1
  {
    hide Parse, ParseItems, ParseFields, Encode, EncodeItems, EncodeFields;
    match j
    case Null => ParseWord(j, rest);
    case Bool(_) => ParseWord(j, rest);
    case Str(text) => ParseStr(text, rest);
    case Num(token) => ParseNumber(token, rest);
    case Arr(items) =>
      if items != [] {
        ParseEncodeItems(items, rest, []);
        EncodeHead(items[0]);
        assert [] + items == items;
      }
      ParseArr(items, rest);
    case Obj(fields) =>
      var keys := SortedKeys(fields.Keys);
      if keys != [] {
        ParseEncodeFields(j, keys, rest, map[]);
        SelectedAll(j);
      } else {
        NoFields(j);
      }
      EncodeObj(j);
      ParseObj(j, keys, rest);
  }

  lemma SelectedAll(j: Json)
    requires j.Obj?
    ensures map[] + Selected(j, SortedKeys(j.fields.Keys)) == j.fields
  {
    var keys := SortedKeys(j.fields.Keys);
    assert forall k :: k in keys <==> k in j.fields;
  }

  lemma ParseArr(items: seq<Json>, rest: string)
    requires items != [] ==> Encode(items[0]) != "" && Encode(items[0])[0] != ']' && Encode(items[0])[0] != '}'
    requires items != [] ==> ParseItems(EncodeItems(items) + "]" + rest, []) == Some((Arr(items), rest))
    ensures Parse(Encode(Arr(items)) + rest) == Some((Arr(items), rest))
  {
    if items == [] {
      assert Encode(Arr(items)) == "[]";
      ParseEmpty(rest);
    } else {
      var body := EncodeItems(items) + "]" + rest;
      assert body[0] == Encode(items[0])[0] by { ItemsSplit(items, rest); }
      assert Encode(Arr(items)) == "[" + EncodeItems(items) + "]";
      hide *;
      Bracketed("[", EncodeItems(items), "]", rest);
      ParseBody("[", body);
    }
  }

  lemma ParseObj(j: Json, keys: seq<string>, rest: string)
    requires j.Obj? && forall i :: 0 <= i < |keys| ==> keys[i] in j.fields
    requires Encode(j) == if keys == [] then "{}" else "{" + EncodeFields(j, keys) + "}"
    requires if keys == [] then j == Obj(map[])
      else ParseFields(EncodeFields(j, keys) + "}" + rest, map[]) == Some((j, rest))
    ensures Parse(Encode(j) + rest) == Some((j, rest))
  {
    hide *;
    if keys == [] {
      ParseEmpty(rest);
    } else {
      StartsQuoted(j, keys, rest);
      ParseBraces(j, EncodeFields(j, keys), rest);
    }
  }

  lemma NoFields(j: Json)
    requires j.Obj? && SortedKeys(j.fields.Keys) == []
    ensures j == Obj(map[])
  {
    hide SortedKeys;
    assert j.fields == map[];
  }

  lemma StartsQuoted(j: Json, keys: seq<string>, rest: string)
    requires j.Obj? && keys != [] && forall i :: 0 <= i < |keys| ==> keys[i] in j.fields
    ensures (EncodeFields(j, keys) + "}" + rest)[0] == '"'
  {
    hide *;
    FieldsSplit(j, keys, rest);
  }

  lemma ParseBraces(j: Json, fields: string, rest: string)
    requires ParseFields(fields + "}" + rest, map[]) == Some((j, rest)) && (fields + "}" + rest)[0] == '"'
    ensures Parse("{" + fields + "}" + rest) == Some((j, rest))
  {
    hide *;
    Bracketed("{", fields, "}", rest);
    ParseBody("{", fields + "}" + rest);
  }

  lemma EncodeObj(j: Json)
    requires j.Obj?
    ensures var keys := SortedKeys(j.fields.Keys);
      Encode(j) == if keys == [] then "{}" else "{" + EncodeFields(j, keys) + "}"
  {
    hide Quote;
    var keys := SortedKeys(j.fields.Keys);
    assert keys == [] ==> EncodeFields(j, keys) == "";
  }

  lemma ParseEmpty(rest: string)
    ensures Parse("[]" + rest) == Some((Arr([]), rest))
    ensures Parse("{}" + rest) == Some((Obj(map[]), rest))
  {
    hide ParseItems, ParseFields, Unquote;
    var a, o := "[]" + rest, "{}" + rest;
    assert a[0] == '[' && a[2..] == rest && o[0] == '{' && o[2..] == rest;
  }

  lemma Bracketed(open: string, body: string, close: string, rest: string)
    ensures open + body + close + rest == open + (body + close + rest)
  {
  }

  lemma ParseBody(open: string, body: string)
    requires open == "[" || open == "{"
    requires body != "" && body[0] != ']' && body[0] != '}'
    ensures Parse(open + body) == if open == "[" then ParseItems(body, []) else ParseFields(body, map[])
  {
    hide ParseItems, ParseFields, Unquote;
    var s := open + body;
    assert s[0] == open[0] && s[1] == body[0] && s[1..] == body;
  }

  lemma {:induction false} ParseEncodeItems(items: seq<Json>, rest: string, before: seq<Json>)
    requires items != [] && forall i :: 0 <= i < |items| ==> WellFormed(items[i])
    ensures ParseItems(EncodeItems(items) + "]" + rest, before) == Some((Arr(before + items), rest))
    decreases items
  {
    hide *;
    var s := EncodeItems(items) + "]" + rest;
    var tail := ItemsTail(items, rest);
    ItemsSplit(items, rest);
    DelimitedTail(tail);
    ParseEncode(items[0], tail);
    ParseItem(s, items[0], tail, before);
    if |items| == 1 {
      assert before + items == before + [items[0]];
    } else {
      ParseEncodeItems(items[1..], rest, before + [items[0]]);
      assert before + [items[0]] + items[1..] == before + items;
    }
  }

  // What follows the first item of a list, or the first field of an object.
  function ItemsTail(items: seq<Json>, rest: string): string
    requires items != []
  {
    if |items| > 1 then "," + (EncodeItems(items[1..]) + "]" + rest) else "]" + rest
  }

  function FieldsTail(j: Json, keys: seq<string>, rest: string): string
    requires j.Obj? && keys != [] && forall i :: 0 <= i < |keys| ==> keys[i] in j.fields
  {
    if |keys| > 1 then "," + (EncodeFields(j, keys[1..]) + "}" + rest) else "}" + rest
  }

  lemma ItemsSplit(items: seq<Json>, rest: string)
    requires items != []
    ensures var tail := ItemsTail(items, rest);
      && EncodeItems(items) + "]" + rest == Encode(items[0]) + tail
      && tail != "" && tail[0] == (if |items| > 1 then ',' else ']')
      && tail[1..] == if |items| > 1 then EncodeItems(items[1..]) + "]" + rest else rest
  {
    hide Encode;
    var e := Encode(items[0]);
    if |items| > 1 {
      var more := EncodeItems(items[1..]);
      assert EncodeItems(items) == e + ("," + more);
      hide *;
      Glue(e, ",", more, "]", rest);
    } else {
      assert EncodeItems(items) == e + "";
      hide *;
      Glue(e, "", "", "]", rest);
    }
  }

  lemma Glue(head: string, comma: string, more: string, close: string, rest: string)
    ensures head + (comma + more) + close + rest == head + (comma + (more + close + rest))
    ensures head + "" + close + rest == head + (close + rest)
  {
  }

  lemma ParseItem(s: string, item: Json, tail: string, before: seq<Json>)
    requires s == Encode(item) + tail && tail != "" && tail[0] in ",]"
    requires Parse(Encode(item) + tail) == Some((item, tail))
    ensures ParseItems(s, before) ==
      if tail[0] == ',' then ParseItems(tail[1..], before + [item])
      else Some((Arr(before + [item]), tail[1..]))
  {
    hide Parse, Encode;
  }

  ghost function Selected(j: Json, keys: seq<string>): map<string, Json>
    requires j.Obj? && forall i :: 0 <= i < |keys| ==> keys[i] in j.fields
  {
    map k | k in keys :: j.fields[k]
  }

  lemma {:induction false} ParseEncodeFields(j: Json, keys: seq<string>, rest: string, before: map<string, Json>)
    requires j.Obj? && WellFormed(j)
    requires keys != [] && forall i :: 0 <= i < |keys| ==> keys[i] in j.fields
    ensures ParseFields(EncodeFields(j, keys) + "}" + rest, before) == Some((Obj(before + Selected(j, keys)), rest))
    decreases j, 0, keys
  {
    var key, value := keys[0], j.fields[keys[0]];
    assert Valid(key) && WellFormed(value);
    hide *;
    var s := EncodeFields(j, keys) + "}" + rest;
    var tail := FieldsTail(j, keys, rest);
    FieldsSplit(j, keys, rest);
    DelimitedTail(tail);
    ParseEncode(value, tail);
    ParseField(s, key, value, tail, before);
    if |keys| > 1 {
      ParseEncodeFields(j, keys[1..], rest, before[key := value]);
    }
    SelectedSplit(j, keys, before);
  }

  lemma DelimitedTail(tail: string)
    requires tail != "" && tail[0] in ",}]"
    ensures Delimited(tail)
  {
  }

  lemma ParseField(s: string, key: string, value: Json, tail: string, before: map<string, Json>)
    requires Valid(key) && tail != "" && tail[0] in ",}"
    requires s != "" && s[0] == '"' && s[1..] == QuoteBody(key) + "\"" + (":" + Encode(value) + tail)
    requires Parse(Encode(value) + tail) == Some((value, tail))
    ensures ParseFields(s, before) ==
      if tail[0] == ',' then ParseFields(tail[1..], before[key := value])
      else Some((Obj(before[key := value]), tail[1..]))
  {
    hide Unquote, Parse, Encode, Valid, QuoteBody, RuneSize, ToValid;
    UnquoteQuoted(key, ":" + Encode(value) + tail);
    ToValidKeepsValid(key);
    assert (":" + Encode(value) + tail)[1..] == Encode(value) + tail;
  }

  lemma FieldsSplit(j: Json, keys: seq<string>, rest: string)
    requires j.Obj? && keys != [] && forall i :: 0 <= i < |keys| ==> keys[i] in j.fields
    ensures var s, tail := EncodeFields(j, keys) + "}" + rest, FieldsTail(j, keys, rest);
      && s != "" && s[0] == '"' && s[1..] == QuoteBody(keys[0]) + "\"" + (":" + Encode(j.fields[keys[0]]) + tail)
      && tail != "" && tail[0] == (if |keys| > 1 then ',' else '}')
      && tail[1..] == if |keys| > 1 then EncodeFields(j, keys[1..]) + "}" + rest else rest
  {
    hide Encode, QuoteBody;
    var q, e := QuoteBody(keys[0]), Encode(j.fields[keys[0]]);
    var head := Quote(keys[0]) + ":" + e;
    assert head == "\"" + q + "\"" + ":" + e;
    if |keys| > 1 {
      var more := EncodeFields(j, keys[1..]);
      assert EncodeFields(j, keys) == head + ("," + more);
      hide *;
      Glue(head, ",", more, "}", rest);
      FieldHead(q, e, FieldsTail(j, keys, rest));
    } else {
      assert EncodeFields(j, keys) == head + "";
      hide *;
      Glue(head, "", "", "}", rest);
      FieldHead(q, e, FieldsTail(j, keys, rest));
    }
  }

  lemma FieldHead(q: string, e: string, tail: string)
    ensures var s := "\"" + q + "\"" + ":" + e + tail;
      s[0] == '"' && s[1..] == q + "\"" + (":" + e + tail)
  {
  }

  lemma SelectedSplit(j: Json, keys: seq<string>, before: map<string, Json>)
    requires j.Obj? && keys != [] && forall i :: 0 <= i < |keys| ==> keys[i] in j.fields
    ensures before + Selected(j, keys) ==
      if |keys| == 1 then before[keys[0] := j.fields[keys[0]]]
      else before[keys[0] := j.fields[keys[0]]] + Selected(j, keys[1..])
  {
    assert keys == [keys[0]] + keys[1..];
  }

  // Decoding undoes encoding, so the encoding is injective on such values.
  lemma DecodeEncode(j: Json)
    requires WellFormed(j)
    ensures Decode(Encode(j)) == Some(j)
  {
    ParseEncode(j, "");
    assert Encode(j) + "" == Encode(j);
  }

  lemma EncodeInjective(a: Json, b: Json)
    requires WellFormed(a) && WellFormed(b)
    ensures Encode(a) == Encode(b) <==> a == b
  {
    DecodeEncode(a);
    DecodeEncode(b);
  }
}
