/** Byte counts of canonical JSON, computed without writing it (payload.go). */
module JsonSizes {
  import opened CanonicalJson
  import opened SortedStrings
  import opened Utf8
  import JsonWriter

  function SumSizes(items: seq<Json>): nat {
    if items == [] then 0 else Size(items[0]) + 1 + SumSizes(items[1..])
  }

  lemma SumSizesOne(x: Json)
    ensures SumSizes([x]) == Size(x) + 1
  {
    hide Size;
    assert [x][1..] == [];
  }

  lemma {:induction false} SumSizesConcat(a: seq<Json>, b: seq<Json>)
    ensures SumSizes(a + b) == SumSizes(a) + SumSizes(b)
  {
    hide Size;
    if a == [] {
      assert a + b == b;
    } else {
      assert (a + b)[1..] == a[1..] + b;
      SumSizesConcat(a[1..], b);
    }
  }

  // One byte per bracket plus the elements and the commas between them.
  function ListSize(items: seq<Json>): nat {
    if items == [] then 2 else 1 + SumSizes(items)
  }

  lemma {:induction false} ItemsSize(items: seq<Json>)
    requires items != []
    ensures |EncodeItems(items)| + 1 == SumSizes(items)
  {
    hide Encode;
    if |items| > 1 {
      ItemsSize(items[1..]);
    } else {
      assert items[1..] == [];
    }
  }

  lemma ListSizeIsSize(items: seq<Json>)
    ensures Size(Arr(items)) == ListSize(items)
  {
    assert Encode(Arr(items)) == "[" + EncodeItems(items) + "]";
    hide Encode;
    if items != [] { ItemsSize(items); }
  }

  method ListJSONSize(items: seq<Json>) returns (size: nat)
    ensures size == Size(Arr(items)) == ListSize(items)
  {
    hide Size, Encode;
    ListSizeIsSize(items);
    if |items| == 0 {
      return 2;
    }
    size := 1;
    var i := 0;
    while i < |items|
      invariant i <= |items| && size + SumSizes(items[i..]) == 1 + SumSizes(items)
    {
      var n := JsonWriter.JsonSize(items[i]);
      assert items[i..][1..] == items[i + 1..];
      size := size + n + 1;
      i := i + 1;
    }
  }

  // An object is as long as its fields, whatever their order.
  function FieldSize(j: Json, key: string): nat
    requires j.Obj? && key in j.fields
  {
    |Quote(key)| + 2 + Size(j.fields[key])
  }

  function FieldSizes(j: Json, keys: seq<string>): nat
    requires j.Obj? && forall i :: 0 <= i < |keys| ==> keys[i] in j.fields
  {
    if keys == [] then 0 else FieldSize(j, keys[0]) + FieldSizes(j, keys[1..])
  }

  lemma {:induction false} FieldsSize(j: Json, keys: seq<string>)
    requires j.Obj? && keys != [] && forall i :: 0 <= i < |keys| ==> keys[i] in j.fields
    ensures |EncodeFields(j, keys)| + 1 == FieldSizes(j, keys)
  {
    hide Encode, Quote;
    if |keys| > 1 {
      FieldsSize(j, keys[1..]);
    } else {
      assert keys[1..] == [];
    }
  }

  lemma ObjSize(j: Json)
    requires j.Obj?
    ensures Size(j) == if j.fields == map[] then 2 else 1 + FieldSizes(j, SortedKeys(j.fields.Keys))
  {
    ObjEncoded(j);
    hide *;
    ObjSizeBy(j, SortedKeys(j.fields.Keys));
  }

  lemma ObjSizeBy(j: Json, keys: seq<string>)
    requires j.Obj? && forall k :: k in keys <==> k in j.fields
    requires Size(j) == 2 + |EncodeFields(j, keys)| && (keys == [] ==> EncodeFields(j, keys) == "")
    ensures Size(j) == if j.fields == map[] then 2 else 1 + FieldSizes(j, keys)
  {
    hide *;
    if keys == [] {
      assert j.fields == map[];
    } else {
      assert keys[0] in j.fields;
      FieldsSize(j, keys);
    }
  }

  lemma ObjEncoded(j: Json)
    requires j.Obj?
    ensures var keys := SortedKeys(j.fields.Keys);
      Size(j) == 2 + |EncodeFields(j, keys)| && (keys == [] ==> EncodeFields(j, keys) == "")
  {
    hide SortedKeys, Quote;
  }

  // Replacing the value of a key changes the size by the difference of values.
  lemma {:induction false} FieldSizesReplace(a: Json, b: Json, key: string, keys: seq<string>)
    requires a.Obj? && b.Obj? && key in a.fields && key in b.fields && b.fields == a.fields[key := b.fields[key]]
    requires forall i :: 0 <= i < |keys| ==> keys[i] in a.fields
    requires forall i, j :: 0 <= i < j < |keys| ==> keys[i] != keys[j]
    ensures FieldSizes(b, keys) - FieldSizes(a, keys) ==
      if key in keys then Size(b.fields[key]) - Size(a.fields[key]) else 0
  {
    hide Size, Quote;
    if keys != [] {
      FieldSizesReplace(a, b, key, keys[1..]);
    }
  }

  lemma SizeReplace(a: Json, b: Json, key: string)
    requires a.Obj? && b.Obj? && key in a.fields && key in b.fields && b.fields == a.fields[key := b.fields[key]]
    ensures Size(b) - Size(a) == Size(b.fields[key]) - Size(a.fields[key])
  {
    hide *;
    var keys := SortedKeys(a.fields.Keys);
    assert a.fields.Keys == b.fields.Keys;
    assert key in keys && a.fields != map[] && b.fields != map[];
    ObjSize(a);
    ObjSize(b);
    FieldSizesReplace(a, b, key, keys);
  }

  /// The request envelope (transport.go)

  function Envelope(bodies: seq<Json>): Json {
    Obj(map["logs" := Arr(bodies)])
  }

  lemma EnvelopeSize(bodies: seq<Json>)
    requires bodies != []
    ensures Size(Envelope(bodies)) == SumSizes(bodies) + 10
  {
    var j := Envelope(bodies);
    LogsKey();
    OneKey("logs");
    assert j.fields.Keys == {"logs"};
    ObjSize(j);
    ListSizeIsSize(bodies);
    hide Size, Quote, SortedKeys;
    assert FieldSizes(j, ["logs"]) == FieldSize(j, "logs") + FieldSizes(j, ["logs"][1..]);
  }

  lemma OneKey(k: string)
    ensures SortedKeys({k}) == [k]
  {
    LeqReflexive(k);
    SortedKeysUnique({k}, [k]);
  }

  lemma LeqReflexive(a: string)
    ensures Leq(a, a)
  {
    LeqTotal(a, a);
  }

  lemma LogsKey()
    ensures |Quote("logs")| == 6
  {
    AsciiIsValid("logs");
    PlainQuote("logs");
  }

  // Text with nothing to escape or replace is written as it is.
  predicate Plain(s: string) {
    Valid(s) && forall i :: 0 <= i < |s| ==> s[i] as int >= 0x20 && s[i] != '"' && s[i] != '\\'
  }

  lemma {:induction false} PlainQuote(s: string)
    requires Plain(s)
    ensures Quote(s) == "\"" + s + "\"" && |Quote(s)| == |s| + 2
  {
    PlainBody(s);
  }

  lemma {:induction false} PlainBody(s: string)
    requires Plain(s)
    ensures QuoteBody(s) == s
  {
    if s != "" {
      var n := RuneSize(s);
      ValidRest(s);
      PlainBody(s[n..]);
      PlainStep(s);
      hide RuneSize, StepText;
      assert s == s[..n] + s[n..];
    }
  }

  lemma PlainStep(s: string)
    requires Plain(s) && s != ""
    ensures StepSize(s) == RuneSize(s) && StepText(s) == s[..RuneSize(s)]
  {
    assert ByteAt(s, 0) == s[0] as int;
    if s[0] as int < 0x80 { assert s[..1] == [s[0]]; }
  }

  lemma PlainConcat(a: string, b: string)
    requires Plain(a) && Plain(b)
    ensures Plain(a + b)
  {
    hide RuneSize, Valid;
    ValidConcat(a, b);
  }
}
