/** Whatever strings a value holds, what is written is valid UTF-8 (canonjson.go). */
module JsonValidity {
  import opened Utf8
  import opened SortedStrings
  import opened CanonicalJson
  import opened JsonStrings
  import opened JsonCollisions
  import JsonRoundTrip
  import JsonSizes

  lemma {:induction false} EncodeIsValid(j: Json)
    requires Numeric(j)
    ensures Valid(Encode(j))
    decreases j, 1
  {
    hide Valid, Quote, EncodeItems, EncodeFields, WellFormedNumber;
    match j
    case Null => AsciiIsValid("null");
    case Bool(_) => AsciiIsValid(Encode(j));
    case Str(text) => QuoteIsValid(text);
    case Num(token) =>
      JsonRoundTrip.WellFormedNumberChars(token);
      AsciiIsValid(token);
    case Arr(items) =>
      ItemsAreValid(items);
      Enclosed("[", EncodeItems(items), "]");
    case Obj(fields) =>
      var keys := SortedKeys(fields.Keys);
      FieldsAreValid(j, keys);
      Enclosed("{", EncodeFields(j, keys), "}");
  }

  lemma Enclosed(open: string, body: string, close: string)
    requires Valid(body) && |open| == |close| == 1 && open[0] as int < 0x80 && close[0] as int < 0x80
    ensures Valid(open + body + close)
  {
    hide Valid;
    AsciiIsValid(open);
    AsciiIsValid(close);
    ValidConcat(open, body);
    ValidConcat(open + body, close);
  }

  // Two valid texts, the second one after a separator if there is one.
  lemma ValidList(head: string, more: bool, tail: string)
    requires Valid(head) && (more ==> Valid(tail))
    ensures Valid(head + if more then "," + tail else "")
  {
    hide Valid;
    AsciiIsValid("");
    AsciiIsValid(",");
    ValidConcat(",", tail);
    ValidConcat(head, if more then "," + tail else "");
  }

  lemma {:induction false} ItemsAreValid(items: seq<Json>)
    requires forall i :: 0 <= i < |items| ==> Numeric(items[i])
    ensures Valid(EncodeItems(items))
    decreases items
  {
    hide Valid, Encode, Numeric;
    if items == [] {
      AsciiIsValid("");
    } else {
      EncodeIsValid(items[0]);
      if |items| > 1 { ItemsAreValid(items[1..]); }
      ValidList(Encode(items[0]), |items| > 1, EncodeItems(items[1..]));
    }
  }

  lemma {:induction false} FieldsAreValid(j: Json, keys: seq<string>)
    requires Numeric(j) && Listed(j, keys)
    ensures Valid(EncodeFields(j, keys))
    decreases j, 0, keys
  {
    if keys == [] {
      AsciiIsValid("");
    } else {
      assert Numeric(j.fields[keys[0]]);
      hide Valid, Encode, Numeric, Quote;
      var key, value := Quote(keys[0]), Encode(j.fields[keys[0]]);
      EncodeIsValid(j.fields[keys[0]]);
      QuoteIsValid(keys[0]);
      AsciiIsValid(":");
      ValidConcat(key, ":");
      ValidConcat(key + ":", value);
      if |keys| > 1 { FieldsAreValid(j, keys[1..]); }
      ValidList(key + ":" + value, |keys| > 1, if |keys| > 1 then EncodeFields(j, keys[1..]) else "");
    }
  }

  // So one undecodable byte of one record never spoils the body of a batch.
  lemma BodyIsValid(bodies: seq<Json>)
    requires forall i :: 0 <= i < |bodies| ==> Numeric(bodies[i])
    ensures Valid(Encode(JsonSizes.Envelope(bodies)))
  {
    hide Valid, Encode;
    assert Numeric(Arr(bodies));
    EncodeIsValid(JsonSizes.Envelope(bodies));
  }

  lemma {:induction false} WellFormedIsNumeric(j: Json)
    requires JsonRoundTrip.WellFormed(j)
    ensures Numeric(j)
    decreases j
  {
    hide Valid, WellFormedNumber;
    match j
    case Arr(items) =>
      forall i | 0 <= i < |items| ensures Numeric(items[i]) { WellFormedIsNumeric(items[i]); }
    case Obj(fields) =>
      forall k | k in fields ensures Numeric(fields[k]) { WellFormedIsNumeric(fields[k]); }
    case _ =>
  }
}
