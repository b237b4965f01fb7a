/** The writers of canonjson.go, appending to one shared buffer. */
module JsonWriter {
  import opened Utf8
  import opened SortedStrings
  import opened CanonicalJson

  // bytes.Buffer, as far as the writers use it.
  class Buffer {
    var data: string

    constructor ()
      ensures data == ""
    {
      data := "";
    }

    method WriteString(s: string)
      modifies this
      ensures data == old(data) + s
    {
      data := data + s;
    }
  }

  method WriteJSONString(buf: Buffer, s: string)
    modifies buf
    ensures buf.data == old(buf.data) + Quote(s)
  {
    ghost var start := buf.data;
    buf.WriteString("\"");
    ghost var goal := start + "\"" + QuoteBody(s);
    var i := 0;
    assert s[0..] == s;
    assert Reaches(buf.data, QuoteBody(s[0..]), goal) by { Reached(buf.data, QuoteBody(s)); }
    while i < |s|
      invariant i <= |s| && Reaches(buf.data, QuoteBody(s[i..]), goal)
    {
      AppendStep(buf.data, s[i..], goal);
      i := WriteStep(buf, s, i);
    }
    assert s[i..] == "" && QuoteBody("") == "";
    AllWritten(buf.data, goal);
    buf.WriteString("\"");
    Wrapped(start, "\"", QuoteBody(s), "\"");
  }

  // One byte or rune of the string, escaped or replaced as needed.
  method WriteStep(buf: Buffer, s: string, at: nat) returns (i: nat)
    requires at < |s|
    modifies buf
    ensures i == at + StepSize(s[at..]) <= |s| && s[at..][StepSize(s[at..])..] == s[i..]
    ensures buf.data == old(buf.data) + StepText(s[at..])
  {
    hide RuneSize, REPLACEMENT, Escaped;
    i := at;
    var c := s[i];
    if c as int < 0x80 {
      i := i + 1;
      WriteEscaped(buf, c);
      AsciiStep(s, at);
    } else {
      var size := RuneSize(s[i..]);
      if size == 0 {
        buf.WriteString(REPLACEMENT);
        i := i + 1;
      } else {
        buf.WriteString(s[i..i + size]);
        i := i + size;
      }
      assert s[at..][..size] == s[at..at + size];
    }
  }

  lemma AsciiStep(s: string, i: nat)
    requires i < |s| && s[i] as int < 0x80
    ensures StepSize(s[i..]) == 1
  {
    assert ByteAt(s[i..], 0) == s[i] as int;
  }

  lemma AppendStep(before: string, t: string, goal: string)
    requires t != "" && Reaches(before, QuoteBody(t), goal)
    ensures Reaches(before + StepText(t), QuoteBody(t[StepSize(t)..]), goal)
  {
    hide StepText, StepSize;
    assert before + (StepText(t) + QuoteBody(t[StepSize(t)..])) == before + StepText(t) + QuoteBody(t[StepSize(t)..]);
  }

  method WriteEscaped(buf: Buffer, c: char)
    requires c as int < 0x80
    modifies buf
    ensures buf.data == old(buf.data) + Escaped(c)
  {
    match c {
      case '"' => buf.WriteString("\\\"");
      case '\\' => buf.WriteString("\\\\");
      case '\n' => buf.WriteString("\\n");
      case '\r' => buf.WriteString("\\r");
      case '\t' => buf.WriteString("\\t");
      case '\U{0008}' => buf.WriteString("\\b");
      case '\U{000C}' => buf.WriteString("\\f");
      case _ =>
        if c as int < 0x20 {
          buf.WriteString("\\u00");
          buf.WriteString([HexDigit(c as int / 16)]);
          buf.WriteString([HexDigit(c as int % 16)]);
          assert "\\u00" + [HexDigit(c as int / 16)] + [HexDigit(c as int % 16)] == Escaped(c);
        } else {
          buf.WriteString([c]);
        }
    }
  }

  // What is left to write of a list from item i on, the comma before it included.
  ghost function ItemsFrom(items: seq<Json>, i: nat): string
    requires i <= |items|
  {
    (if 0 < i < |items| then "," else "") + EncodeItems(items[i..])
  }

  ghost function FieldsFrom(j: Json, keys: seq<string>, i: nat): string
    requires j.Obj? && i <= |keys| && forall i :: 0 <= i < |keys| ==> keys[i] in j.fields
  {
    (if 0 < i < |keys| then "," else "") + EncodeFields(j, keys[i..])
  }

  lemma ItemsFromStep(items: seq<Json>, i: nat, data: string, goal: string)
    requires i < |items| && Reaches(data, ItemsFrom(items, i), goal)
    ensures Reaches(data + (if i > 0 then "," else "") + Encode(items[i]), ItemsFrom(items, i + 1), goal)
    ensures i == 0 ==> Reaches(data + Encode(items[i]), ItemsFrom(items, i + 1), goal)
  {
    assert items[i..][1..] == items[i + 1..] && items[i..][0] == items[i];
    assert EncodeItems(items[i..]) == Encode(items[i]) + ItemsFrom(items, i + 1);
    hide Encode, EncodeItems;
    Reassociate(data, if i > 0 then "," else "", Encode(items[i]), ItemsFrom(items, i + 1));
    assert data + "" == data;
  }

  lemma FieldsFromStep(j: Json, keys: seq<string>, i: nat, data: string)
    requires j.Obj? && i < |keys| && forall i :: 0 <= i < |keys| ==> keys[i] in j.fields
    ensures data + (if i > 0 then "," else "") + Quote(keys[i]) + ":" + Encode(j.fields[keys[i]])
      + FieldsFrom(j, keys, i + 1)
      == data + FieldsFrom(j, keys, i)
  {
    hide Quote;
    assert keys[i..][1..] == keys[i + 1..] && keys[i..][0] == keys[i];
    var head := Quote(keys[i]) + ":" + Encode(j.fields[keys[i]]);
    assert EncodeFields(j, keys[i..]) == head + FieldsFrom(j, keys, i + 1);
    hide *;
    Reassociate(data, if i > 0 then "," else "", head, FieldsFrom(j, keys, i + 1));
    Reassociate(data + (if i > 0 then "," else ""), Quote(keys[i]), ":", Encode(j.fields[keys[i]]));
  }

  lemma Reassociate(a: string, b: string, c: string, d: string)
    ensures a + b + c + d == a + (b + (c + d)) == a + (b + c + d)
  {
  }

  lemma ItemsEnds(items: seq<Json>)
    ensures ItemsFrom(items, 0) == EncodeItems(items) && ItemsFrom(items, |items|) == ""
  {
    assert items[0..] == items;
  }

  lemma FieldsEnds(j: Json, keys: seq<string>)
    requires j.Obj? && forall i :: 0 <= i < |keys| ==> keys[i] in j.fields
    ensures FieldsFrom(j, keys, 0) == EncodeFields(j, keys) && FieldsFrom(j, keys, |keys|) == ""
  {
    assert keys[0..] == keys;
  }

  method WriteCanonical(buf: Buffer, v: Json)
    modifies buf
    ensures buf.data == old(buf.data) + Encode(v)
    decreases v
  {
    match v {
      case Null => buf.WriteString("null");
      case Bool(b) =>
        if b { buf.WriteString("true"); } else { buf.WriteString("false"); }
      case Str(text) => WriteJSONString(buf, text);
      case Num(token) =>
        if token == "" {
          buf.WriteString("null");
          return;
        }
        buf.WriteString(token);
      case Arr(items) => WriteList(buf, v);
      case Obj(fields) => WriteMap(buf, v);
    }
  }

  method WriteList(buf: Buffer, v: Json)
    requires v.Arr?
    modifies buf
    ensures buf.data == old(buf.data) + Encode(v)
    decreases v, 0
  {
    assert Encode(v) == "[" + EncodeItems(v.items) + "]";
    hide *;
    ghost var start := buf.data;
    buf.WriteString("[");
    ItemsEnds(v.items);
    ghost var goal := start + "[" + EncodeItems(v.items);
    var i := 0;
    assert Reaches(buf.data, ItemsFrom(v.items, 0), goal) by { Reached(buf.data, ItemsFrom(v.items, 0)); }
    while i < |v.items|
      invariant i <= |v.items| && Reaches(buf.data, ItemsFrom(v.items, i), goal)
    {
      ItemsFromStep(v.items, i, buf.data, goal);
      if i > 0 { buf.WriteString(","); }
      WriteCanonical(buf, v.items[i]);
      i := i + 1;
    }
    AllWritten(buf.data, goal);
    buf.WriteString("]");
    Wrapped(start, "[", EncodeItems(v.items), "]");
  }

  // What is written and what is left to write make the goal.
  ghost predicate Reaches(data: string, left: string, goal: string) {
    data + left == goal
  }

  lemma Reached(data: string, left: string)
    ensures Reaches(data, left, data + left)
  {
  }

  lemma AllWritten(data: string, goal: string)
    requires Reaches(data, "", goal)
    ensures data == goal
  {
    assert data + "" == data;
  }

  method WriteMap(buf: Buffer, v: Json)
    requires v.Obj?
    modifies buf
    ensures buf.data == old(buf.data) + Encode(v)
    ensures KeysAscend(v, old(buf.data), buf.data)
    decreases v, 2
  {
    var keys := SortedKeys(v.fields.Keys);
    ghost var start := buf.data;
    MapWritten(v, start);
    hide *;
    buf.WriteString("{");
    WriteFields(buf, v, keys);
    buf.WriteString("}");
  }

  // All that was written is an object with its keys in order.
  ghost predicate KeysAscend(v: Json, before: string, after: string)
    requires v.Obj?
  {
    exists keys :: InOrder(keys, v.fields.Keys) && after == before + "{" + EncodeFields(v, keys) + "}"
  }

  lemma MapWritten(v: Json, start: string)
    requires v.Obj?
    ensures var after := start + "{" + EncodeFields(v, SortedKeys(v.fields.Keys)) + "}";
      after == start + Encode(v) && KeysAscend(v, start, after)
  {
    hide SortedKeys, InOrder, EncodeFields;
    SortedKeysInOrder(v.fields.Keys);
    Wrapped(start, "{", EncodeFields(v, SortedKeys(v.fields.Keys)), "}");
  }

  method WriteFields(buf: Buffer, v: Json, keys: seq<string>)
    requires v.Obj? && forall i :: 0 <= i < |keys| ==> keys[i] in v.fields
    modifies buf
    ensures buf.data == old(buf.data) + EncodeFields(v, keys)
    decreases v, 1
  {
    hide *;
    FieldsEnds(v, keys);
    var i := 0;
    while i < |keys|
      invariant i <= |keys|
      invariant buf.data + FieldsFrom(v, keys, i) == old(buf.data) + EncodeFields(v, keys)
    {
      WriteField(buf, v, keys, i);
      i := i + 1;
    }
    assert buf.data + "" == buf.data;
  }

  method WriteField(buf: Buffer, v: Json, keys: seq<string>, i: nat)
    requires v.Obj? && i < |keys| && forall i :: 0 <= i < |keys| ==> keys[i] in v.fields
    modifies buf
    ensures buf.data + FieldsFrom(v, keys, i + 1) == old(buf.data) + FieldsFrom(v, keys, i)
    decreases v, 0
  {
    hide *;
    FieldsFromStep(v, keys, i, buf.data);
    if i > 0 { buf.WriteString(","); } else { assert buf.data + "" == buf.data; }
    WriteJSONString(buf, keys[i]);
    buf.WriteString(":");
    WriteCanonical(buf, v.fields[keys[i]]);
  }

  lemma Wrapped(start: string, open: string, body: string, close: string)
    ensures start + open + body + close == start + (open + body + close)
    ensures start + open + body + "" == start + open + body
  {
  }

  method CanonicalJSON(v: Json) returns (s: string)
    ensures s == Encode(v)
  {
    var buf := new Buffer();
    WriteCanonical(buf, v);
    assert "" + Encode(v) == Encode(v);
    return buf.data;
  }

  method JsonSize(v: Json) returns (n: nat)
    ensures n == Size(v)
  {
    var s := CanonicalJSON(v);
    return |s|;
  }
}
