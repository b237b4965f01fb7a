/** What canonical JSON looks like, byte by byte (canonjson.go). */
module JsonShape {
  import opened Utf8
  import opened SortedStrings
  import opened CanonicalJson
  import opened JsonSizes

  // The fields of an object, written out in the order given.
  function Fields(fields: map<string, Json>, keys: seq<string>): string
    requires forall i :: 0 <= i < |keys| ==> keys[i] in fields
  {
    if keys == [] then ""
    else
      Quote(keys[0]) + ":" + Encode(fields[keys[0]])
      + if |keys| == 1 then "" else "," + Fields(fields, keys[1..])
  }

  function Items(items: seq<Json>): string {
    if items == [] then ""
    else Encode(items[0]) + if |items| == 1 then "" else "," + Items(items[1..])
  }

  // Every object is written with each of its keys once, a key before those
  // that are larger where they first differ, and a prefix before what extends it.
  lemma ObjectsInOrder(fields: map<string, Json>)
    ensures exists keys :: InOrder(keys, fields.Keys) && Encode(Obj(fields)) == "{" + Fields(fields, keys) + "}"
  {
    var keys := SortedKeys(fields.Keys);
    SortedKeysInOrder(fields.Keys);
    FieldsWritten(fields, keys);
    hide Fields, EncodeFields, InOrder, SortedKeys;
  }

  lemma {:induction false} FieldsWritten(fields: map<string, Json>, keys: seq<string>)
    requires forall i :: 0 <= i < |keys| ==> keys[i] in fields
    ensures EncodeFields(Obj(fields), keys) == Fields(fields, keys)
  {
    hide Quote, Encode;
    if keys != [] {
      FieldsWritten(fields, keys[1..]);
    }
  }

  lemma {:induction false} ItemsWritten(items: seq<Json>)
    ensures Encode(Arr(items)) == "[" + Items(items) + "]"
    ensures EncodeItems(items) == Items(items)
  {
    if items != [] { ItemsWritten(items[1..]); }
  }

  // The values without parts.  An empty number token is a null.
  lemma WordsWritten(token: string)
    ensures Encode(Null) == "null" && Encode(Bool(true)) == "true" && Encode(Bool(false)) == "false"
    ensures Encode(Num(token)) == if token == "" then "null" else token
    ensures Encode(Arr([])) == "[]" && Encode(Obj(map[])) == "{}"
  {
    assert SortedKeys({}) == [];
  }

  // What is escaped, and how; any other valid text is written as it is.
  lemma EscapesWritten()
    ensures Encode(Str("\"")) == "\"\\\"\"" && Encode(Str("\\")) == "\"\\\\\""
    ensures Encode(Str("\n")) == "\"\\n\"" && Encode(Str("\r")) == "\"\\r\"" && Encode(Str("\t")) == "\"\\t\""
    ensures Encode(Str("\U{0008}")) == "\"\\b\"" && Encode(Str("\U{000C}")) == "\"\\f\""
  {
    hide Encode;
    OneByte('"');
    OneByte('\\');
    OneByte('\n');
    OneByte('\r');
    OneByte('\t');
    OneByte('\U{0008}');
    OneByte('\U{000C}');
  }

  lemma ControlsWritten(c: char)
    requires c as int < 0x20 && c !in "\n\r\t\U{0008}\U{000C}"
    ensures Encode(Str([c])) ==
      "\"\\u00" + [if c as int < 16 then '0' else '1'] + ["0123456789abcdef"[c as int % 16]] + "\""
  {
    OneByte(c);
    hide Encode;
    assert c as int / 16 == if c as int < 16 then 0 else 1;
  }

  lemma OneByte(c: char)
    requires c as int < 0x80
    ensures Encode(Str([c])) == "\"" + Escaped(c) + "\""
  {
    hide Escaped;
    var s := [c];
    assert ByteAt(s, 0) == c as int && RuneSize(s) == 1 && StepSize(s) == 1 && StepText(s) == Escaped(c);
    assert s[1..] == "" && QuoteBody("") == "";
    assert Escaped(c) + "" == Escaped(c);
  }

  lemma PlainWritten(s: string)
    requires Valid(s) && forall i :: 0 <= i < |s| ==> s[i] as int >= 0x20 && s[i] != '"' && s[i] != '\\'
    ensures Encode(Str(s)) == "\"" + s + "\""
  {
    PlainQuote(s);
  }
}
