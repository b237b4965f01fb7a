/** Which values are written alike (canonjson.go), ill-formed text included. */
module JsonCollisions {
  import opened Utf8
  import opened SortedStrings
  import opened CanonicalJson
  import opened JsonStrings
  import opened JsonRoundTrip

  // Any strings at all; only the number tokens are numbers.
  predicate Numeric(j: Json)
    decreases j
  {
    match j
    case Num(token) => WellFormedNumber(token)
    case Arr(items) => forall i :: 0 <= i < |items| ==> Numeric(items[i])
    case Obj(fields) => forall k :: k in fields ==> Numeric(fields[k])
    case _ => true
  }

  // Equal after the undecodable bytes of their strings are replaced.  Fields are
  // compared one by one in the order of the bytes of their own names, before
  // the replacement, so two names that become one still make two fields.
  predicate Alike(a: Json, b: Json)
    decreases a, 1
  {
    match a
    case Str(text) => b.Str? && ToValid(text) == ToValid(b.text)
    case Arr(items) => b.Arr? && AlikeItems(items, b.items)
    case Obj(fields) => b.Obj? && AlikeFields(a, SortedKeys(fields.Keys), b, SortedKeys(b.fields.Keys))
    case _ => a == b
  }

  predicate AlikeItems(a: seq<Json>, b: seq<Json>)
    decreases a
  {
    |a| == |b| && (a == [] || (Alike(a[0], b[0]) && AlikeItems(a[1..], b[1..])))
  }

  predicate AlikeFields(a: Json, ks: seq<string>, b: Json, ls: seq<string>)
    requires Listed(a, ks) && Listed(b, ls)
    decreases a, 0, ks
  {
    && |ks| == |ls|
    && (ks == []
        || (&& ToValid(ks[0]) == ToValid(ls[0])
            && Alike(a.fields[ks[0]], b.fields[ls[0]])
            && AlikeFields(a, ks[1..], b, ls[1..])))
  }

  predicate Listed(j: Json, ks: seq<string>) {
    j.Obj? && forall i :: 0 <= i < |ks| ==> ks[i] in j.fields
  }

  /// Alike values are written alike

  lemma {:induction false} AlikeEncode(a: Json, b: Json)
    requires Alike(a, b)
    ensures Encode(a) == Encode(b)
    decreases a, 1
  {
    hide Quote, EncodeItems, EncodeFields, AlikeItems, AlikeFields, ToValid;
    match a
    case Str(text) => QuoteEqual(text, b.text);
    case Arr(items) => AlikeEncodeItems(items, b.items);
    case Obj(fields) => AlikeEncodeFields(a, SortedKeys(fields.Keys), b, SortedKeys(b.fields.Keys));
    case _ =>
  }

  lemma {:induction false} AlikeEncodeItems(a: seq<Json>, b: seq<Json>)
    requires AlikeItems(a, b)
    ensures EncodeItems(a) == EncodeItems(b)
    decreases a
  {
    hide Encode, Alike;
    if a != [] {
      AlikeEncode(a[0], b[0]);
      AlikeEncodeItems(a[1..], b[1..]);
    }
  }

  lemma {:induction false} AlikeEncodeFields(a: Json, ks: seq<string>, b: Json, ls: seq<string>)
    requires Listed(a, ks) && Listed(b, ls) && AlikeFields(a, ks, b, ls)
    ensures EncodeFields(a, ks) == EncodeFields(b, ls)
    decreases a, 0, ks
  {
    hide Encode, Alike, Quote, ToValid;
    if ks != [] {
      QuoteEqual(ks[0], ls[0]);
      AlikeEncode(a.fields[ks[0]], b.fields[ls[0]]);
      AlikeEncodeFields(a, ks[1..], b, ls[1..]);
    }
  }

  /// Values written alike are alike

  // The kind of value its first character announces, and it closes nothing.
  lemma HeadTells(j: Json)
    requires Numeric(j)
    ensures var s := Encode(j);
      && s != "" && s[0] != ']'
      && (s[0] == 'n' <==> j.Null?) && (s[0] == 't' <==> j == Bool(true)) && (s[0] == 'f' <==> j == Bool(false))
      && (s[0] == '"' <==> j.Str?) && (s[0] == '[' <==> j.Arr?) && (s[0] == '{' <==> j.Obj?)
  {
    if j.Num? { WellFormedNumberChars(j.token); }
  }

  // No encoding goes on where another one ends, up to what is alike in them.
  lemma {:induction false} EncodePrefix(a: Json, b: Json, r: string, t: string)
    requires Numeric(a) && Numeric(b) && Delimited(r) && Delimited(t)
    requires Encode(a) + r == Encode(b) + t
    ensures Alike(a, b) && r == t
    decreases a, 2
  {
    HeadTells(a);
    HeadTells(b);
    assert (Encode(a) + r)[0] == Encode(a)[0] && (Encode(b) + t)[0] == Encode(b)[0];
    hide Encode, Numeric, AlikeItems, AlikeFields, ToValid;
    match a
    case Null => SameLength(Encode(a), r, t);
    case Bool(_) => SameLength(Encode(a), r, t);
    case Num(token) => NumberPrefix(token, b.token, r, t);
    case Str(text) => StringPrefix(text, b.text, r, t);
    case Arr(items) => ArrayPrefix(items, b.items, r, t);
    case Obj(fields) => ObjectPrefix(a, b, r, t);
  }

  lemma SameLength(s: string, r: string, t: string)
    requires s + r == s + t
    ensures r == t
  {
    assert r == (s + r)[|s|..] && t == (s + t)[|s|..];
  }

  lemma NumberPrefix(a: string, b: string, r: string, t: string)
    requires Numeric(Num(a)) && Numeric(Num(b)) && Delimited(r) && Delimited(t)
    requires Encode(Num(a)) + r == Encode(Num(b)) + t
    ensures a == b && r == t
  {
    hide NumberSpan;
    WellFormedNumberChars(a);
    WellFormedNumberChars(b);
    NumberSpanOf(a, r);
    NumberSpanOf(b, t);
    assert a == (a + r)[..|a|] && b == (b + t)[..|b|];
    SameLength(a, r, t);
  }

  lemma StringPrefix(a: string, b: string, r: string, t: string)
    requires Encode(Str(a)) + r == Encode(Str(b)) + t
    ensures ToValid(a) == ToValid(b) && r == t
  {
    hide QuoteBody, ToValid, Unquote;
    assert (Quote(a) + r)[1..] == QuoteBody(a) + "\"" + r;
    assert (Quote(b) + t)[1..] == QuoteBody(b) + "\"" + t;
    BodyPrefix(a, b, r, t);
  }

  lemma BodyPrefix(a: string, b: string, r: string, t: string)
    requires QuoteBody(a) + "\"" + r == QuoteBody(b) + "\"" + t
    ensures ToValid(a) == ToValid(b) && r == t
  {
    hide *;
    UnquoteQuoted(a, r);
    UnquoteQuoted(b, t);
  }

  lemma {:induction false} ArrayPrefix(a: seq<Json>, b: seq<Json>, r: string, t: string)
    requires Numeric(Arr(a)) && Numeric(Arr(b))
    requires Encode(Arr(a)) + r == Encode(Arr(b)) + t
    ensures AlikeItems(a, b) && r == t
    decreases a, 1
  {
    var x, y := EncodeItems(a) + "]" + r, EncodeItems(b) + "]" + t;
    assert (Encode(Arr(a)) + r)[1..] == x && (Encode(Arr(b)) + t)[1..] == y;
    ItemsStart(a, r);
    ItemsStart(b, t);
    if a == [] {
      assert r == x[1..] && t == y[1..];
    } else {
      hide Encode, EncodeItems, Numeric, AlikeItems;
      ItemsPrefix(a, b, r, t);
    }
  }

  lemma ItemsStart(items: seq<Json>, rest: string)
    requires Numeric(Arr(items))
    ensures var s := EncodeItems(items) + "]" + rest; s != "" && (s[0] == ']' <==> items == [])
  {
    if items != [] {
      HeadTells(items[0]);
      hide Encode;
      ItemsSplit(items, rest);
    }
  }

  lemma {:induction false} ItemsPrefix(a: seq<Json>, b: seq<Json>, r: string, t: string)
    requires a != [] && b != [] && Numeric(Arr(a)) && Numeric(Arr(b))
    requires EncodeItems(a) + "]" + r == EncodeItems(b) + "]" + t
    ensures AlikeItems(a, b) && r == t
    decreases a, 0
  {
    assert Numeric(a[0]) && Numeric(b[0]) && Numeric(Arr(a[1..])) && Numeric(Arr(b[1..]));
    hide Encode, EncodeItems, Numeric, Alike, Delimited, ItemsTail;
    var u, v := ItemsTail(a, r), ItemsTail(b, t);
    ItemsSplit(a, r);
    ItemsSplit(b, t);
    DelimitedTail(u);
    DelimitedTail(v);
    EncodePrefix(a[0], b[0], u, v);
    if |a| > 1 {
      ItemsPrefix(a[1..], b[1..], r, t);
    } else {
      assert a[1..] == [] && b[1..] == [];
    }
  }

  lemma {:induction false} ObjectPrefix(a: Json, b: Json, r: string, t: string)
    requires a.Obj? && b.Obj? && Numeric(a) && Numeric(b)
    requires Encode(a) + r == Encode(b) + t
    ensures AlikeFields(a, SortedKeys(a.fields.Keys), b, SortedKeys(b.fields.Keys)) && r == t
    decreases a, 1, 1
  {
    hide *;
    ObjectBody(a, r);
    ObjectBody(b, t);
    BodiesPrefix(a, SortedKeys(a.fields.Keys), b, SortedKeys(b.fields.Keys), r, t);
  }

  lemma {:induction false} BodiesPrefix(a: Json, ks: seq<string>, b: Json, ls: seq<string>, r: string, t: string)
    requires Listed(a, ks) && Listed(b, ls) && Numeric(a) && Numeric(b)
    requires EncodeFields(a, ks) + "}" + r == EncodeFields(b, ls) + "}" + t
    ensures AlikeFields(a, ks, b, ls) && r == t
    decreases a, 1, 0
  {
    hide *;
    FieldsStart(a, ks, r);
    FieldsStart(b, ls, t);
    if ks == [] {
      NoFieldsAlike(a, ks, b, ls);
    } else {
      FieldsPrefix(a, ks, b, ls, r, t);
    }
  }

  lemma ObjectBody(j: Json, rest: string)
    requires j.Obj?
    ensures var ks := SortedKeys(j.fields.Keys);
      Listed(j, ks) && (Encode(j) + rest)[1..] == EncodeFields(j, ks) + "}" + rest
  {
    hide EncodeFields, SortedKeys;
  }

  lemma NoFieldsAlike(a: Json, ks: seq<string>, b: Json, ls: seq<string>)
    requires Listed(a, ks) && Listed(b, ls) && ks == [] && ls == []
    ensures AlikeFields(a, ks, b, ls)
  {
  }

  lemma FieldsStart(j: Json, ks: seq<string>, rest: string)
    requires Listed(j, ks)
    ensures var s := EncodeFields(j, ks) + "}" + rest;
      s != "" && (s[0] == '}' <==> ks == []) && (ks == [] ==> s[1..] == rest)
  {
    if ks == [] {
      assert EncodeFields(j, ks) == "";
    } else {
      StartsQuoted(j, ks, rest);
    }
  }

  lemma {:induction false} FieldsPrefix(a: Json, ks: seq<string>, b: Json, ls: seq<string>, r: string, t: string)
    requires Listed(a, ks) && Listed(b, ls) && ks != [] && ls != [] && Numeric(a) && Numeric(b)
    requires EncodeFields(a, ks) + "}" + r == EncodeFields(b, ls) + "}" + t
    ensures AlikeFields(a, ks, b, ls) && r == t
    decreases a, 0, ks
  {
    var p, q := a.fields[ks[0]], b.fields[ls[0]];
    assert Numeric(p) && Numeric(q);
    hide *;
    var u, v := FieldsTail(a, ks, r), FieldsTail(b, ls, t);
    FieldsOpen(a, ks, r);
    FieldsOpen(b, ls, t);
    FieldPrefix(ks[0], p, u, ls[0], q, v);
    EncodePrefix(p, q, u, v);
    FieldsClose(a, ks, r);
    FieldsClose(b, ls, t);
    if |ks| > 1 {
      FieldsPrefix(a, ks[1..], b, ls[1..], r, t);
    } else {
      NoFieldsAlike(a, ks[1..], b, ls[1..]);
    }
    AlikeFront(a, ks, b, ls);
  }

  lemma FieldsOpen(j: Json, ks: seq<string>, rest: string)
    requires Listed(j, ks) && ks != []
    ensures var tail := FieldsTail(j, ks, rest);
      && (EncodeFields(j, ks) + "}" + rest)[1..] == QuoteBody(ks[0]) + "\"" + (":" + Encode(j.fields[ks[0]]) + tail)
      && Delimited(tail)
  {
    hide EncodeFields, FieldsTail, Encode, Delimited;
    FieldsSplit(j, ks, rest);
    DelimitedTail(FieldsTail(j, ks, rest));
  }

  lemma FieldsClose(j: Json, ks: seq<string>, rest: string)
    requires Listed(j, ks) && ks != []
    ensures var tail := FieldsTail(j, ks, rest);
      && tail != "" && tail[0] == (if |ks| > 1 then ',' else '}') && Listed(j, ks[1..])
      && tail[1..] == if |ks| > 1 then EncodeFields(j, ks[1..]) + "}" + rest else rest
  {
    hide EncodeFields, FieldsTail;
    FieldsSplit(j, ks, rest);
  }

  lemma FieldPrefix(k: string, p: Json, u: string, l: string, q: Json, v: string)
    requires QuoteBody(k) + "\"" + (":" + Encode(p) + u) == QuoteBody(l) + "\"" + (":" + Encode(q) + v)
    ensures ToValid(k) == ToValid(l) && Encode(p) + u == Encode(q) + v
  {
    hide *;
    BodyPrefix(k, l, ":" + Encode(p) + u, ":" + Encode(q) + v);
    assert (":" + Encode(p) + u)[1..] == Encode(p) + u && (":" + Encode(q) + v)[1..] == Encode(q) + v;
  }

  lemma AlikeFront(a: Json, ks: seq<string>, b: Json, ls: seq<string>)
    requires Listed(a, ks) && Listed(b, ls) && ks != [] && |ks| == |ls|
    requires ToValid(ks[0]) == ToValid(ls[0]) && Alike(a.fields[ks[0]], b.fields[ls[0]])
    requires AlikeFields(a, ks[1..], b, ls[1..])
    ensures AlikeFields(a, ks, b, ls)
  {
    hide Alike, ToValid;
  }

  /// Exactly those collide

  lemma EncodeEqual(a: Json, b: Json)
    requires Numeric(a) && Numeric(b)
    ensures Encode(a) == Encode(b) <==> Alike(a, b)
  {
    hide Encode, Numeric, Alike;
    if Encode(a) == Encode(b) {
      EncodePrefix(a, b, "", "");
    }
    if Alike(a, b) {
      AlikeEncode(a, b);
    }
  }

  // These two differ in one undecodable byte and are written alike.
  lemma EncodeNotInjective()
    ensures var a, b := Str("\U{0080}"), Str("\U{0081}");
      a != b && Encode(a) == Encode(b) && !WellFormed(a) && !WellFormed(b)
  {
    var a, b := Str("\U{0080}"), Str("\U{0081}");
    assert "\U{0080}"[0] != "\U{0081}"[0];
    assert ToValid("\U{0080}") == REPLACEMENT + "" == ToValid("\U{0081}");
    EncodeEqual(a, b);
  }
}
