/**
 Applying the payload policy twice (payload.go): every cap holds after the
 first pass, so the second changes nothing, unless the digest that stands in for
 oversized variables is itself over the cap.
 */
module PayloadFixpoint {
  import opened Utf8
  import opened CanonicalJson
  import opened SortedStrings
  import opened Decimals
  import opened JsonSizes
  import opened Truncation
  import opened Payload
  import opened MessageFitting

  /// Messages

  lemma WithSame(v: Json, key: string, value: Json)
    requires v.Obj? && key in v.fields && v.fields[key] == value
    ensures With(v, key, value) == v
  {
  }

  lemma MessageSettled(v: Json, limit: nat)
    requires ContentBytes(v) <= limit
    ensures TruncatedMessage(v, limit) == v
  {
    hide Encode;
    if At(v, "content").Str? { WithSame(v, "content", At(v, "content")); }
  }

  lemma MessageFits(v: Json, limit: nat)
    ensures ContentBytes(TruncatedMessage(v, limit)) <= limit
  {
    hide Encode, Truncated;
    var content := At(v, "content");
    if content.Str? {
      TruncatedFits(content.text, limit);
    } else if !content.Null? {
      TruncatedFits(Encode(content), limit);
    }
  }

  ghost predicate AllFit(list: seq<Json>, limit: nat) {
    forall i :: 0 <= i < |list| ==> ContentBytes(list[i]) <= limit
  }

  lemma {:induction false} EachFits(list: seq<Json>, limit: nat)
    ensures AllFit(TruncatedEach(list, limit), limit)
  {
    hide TruncatedMessage, ContentBytes;
    if list != [] {
      MessageFits(list[0], limit);
      EachFits(list[1..], limit);
    }
  }

  lemma {:induction false} EachSettled(list: seq<Json>, limit: nat)
    requires AllFit(list, limit)
    ensures TruncatedEach(list, limit) == list
  {
    hide TruncatedMessage, ContentBytes;
    if list != [] {
      MessageSettled(list[0], limit);
      EachSettled(list[1..], limit);
    }
  }

  lemma StubFits(msg: Json, limit: nat)
    requires msg.Obj? && ContentBytes(msg) <= limit && limit >= 64
    ensures ContentBytes(Stub(msg)) <= limit
  {
    hide Encode;
    DecimalShort(ContentBytes(msg));
  }

  lemma {:induction false} StubbedFit(list: seq<Json>, i: nat, limit: nat, cap: nat)
    requires AllFit(list, limit) && limit >= 64
    ensures AllFit(StubbedFrom(list, i, cap), limit)
    decreases |list| - i
  {
    hide Stub, ContentBytes, ListSize;
    if !(i + 1 >= |list| || ListSize(list) <= cap) {
      if list[i].Obj? { StubFits(list[i], limit); }
      StubbedFit(if list[i].Obj? then list[i := Stub(list[i])] else list, i + 1, limit, cap);
    }
  }

  lemma MarkerFits(n: nat, limit: nat)
    requires n <= MAX_INT && limit >= 64
    ensures ContentBytes(Marker(n)) <= limit
  {
    MaxIntDigits(n);
    MarkerTextPlain(n);
    hide MarkerText, Decimal;
  }

  lemma ShrunkFits(msg: Json, limit: nat)
    requires ContentBytes(msg) <= limit && Shrunk(msg).Some?
    ensures ContentBytes(Shrunk(msg).value) <= limit
  {
    hide Encode;
    if ContentBytes(msg) > 0 { HalvedMessage(msg); }
  }

  lemma {:induction false} DroppedFit(first: Json, rest: seq<Json>, limit: nat, cap: nat)
    requires ContentBytes(first) <= limit && AllFit(rest, limit) && |rest| + 1 <= MAX_INT && limit >= 64
    ensures AllFit(DroppedMiddle(first, rest, cap), limit)
    decreases ShrinkMeasure(first)
  {
    hide ContentBytes, Shrunk, ShrinkMeasure, Marker, ListSize;
    var base := ListSize([first, Marker(|rest|)]);
    MarkerFits(|rest| + 1, limit);
    if base <= cap {
      MarkerFits(|rest| - TailCount(rest, cap - base), limit);
    } else if Shrunk(first).Some? {
      ShrinkingEnds(first);
      ShrunkFits(first, limit);
      DroppedFit(Shrunk(first).value, rest, limit, cap);
    }
  }

  lemma MessagesAllFit(list: seq<Json>, perMessage: nat, limit: nat)
    requires perMessage >= 64 && |list| <= MAX_INT
    ensures AllFit(TruncatedMessages(list, perMessage, limit), perMessage)
  {
    hide AllFit, StubbedFrom, DroppedMiddle, ListSize, TruncatedMessage;
    var each := TruncatedEach(list, perMessage);
    EachFits(list, perMessage);
    StubbedFit(each, 1, perMessage, limit);
    if each != [] {
      AllFitParts(each, perMessage);
      DroppedFit(each[0], each[1..], perMessage, limit);
    }
  }

  lemma AllFitParts(list: seq<Json>, limit: nat)
    requires list != [] && AllFit(list, limit)
    ensures ContentBytes(list[0]) <= limit && AllFit(list[1..], limit)
  {
    hide ContentBytes;
  }

  lemma SizePositive(j: Json)
    ensures Size(j) >= 1
  {
  }

  lemma ListSizeThree(list: seq<Json>)
    requires list != []
    ensures ListSize(list) >= 3
  {
    SizePositive(list[0]);
    hide Size;
  }

  // A second pass over a fitted list leaves it alone, and reports a cut only
  // when the first did.
  lemma MessagesTwice(list: seq<Json>, perMessage: nat, limit: nat)
    requires perMessage >= 64 && |list| <= MAX_INT
    ensures var out := TruncatedMessages(list, perMessage, limit);
      && TruncatedMessages(out, perMessage, limit) == out
      && (MessagesCut(out, perMessage, limit) ==> MessagesCut(list, perMessage, limit))
  {
    var out := TruncatedMessages(list, perMessage, limit);
    MessagesAllFit(list, perMessage, limit);
    MessagesFit(list, perMessage, limit);
    EachSettled(out, perMessage);
    hide ContentBytes, Size, StubbedFrom, DroppedMiddle, TruncatedMessage;
    if ListSize(out) > limit {
      if out != [] { ListSizeThree(out); }
      assert out == [];
      if list != [] { ListSizeThree(TruncatedEach(list, perMessage)); }
    }
  }

  /// Tool calls and digests

  ghost predicate HexDigest(sha: string -> string) {
    forall s :: |sha(s)| == 64 && Plain(sha(s))
  }

  lemma NumberSize(n: nat)
    ensures Size(Number(n)) == |Decimal(n)|
  {
  }

  lemma WordSizes()
    ensures |Quote("bytes")| == 7 && |Quote("sha256")| == 8 && |Quote("truncated")| == 11
    ensures Size(Bool(true)) == 4
  {
    hide RuneSize, Valid, QuoteBody, Quote;
    AsciiIsValid("bytes");
    AsciiIsValid("sha256");
    AsciiIsValid("truncated");
    PlainQuote("bytes");
    PlainQuote("sha256");
    PlainQuote("truncated");
  }

  lemma KeysOfTwo()
    ensures SortedKeys({"bytes", "truncated"}) == ["bytes", "truncated"]
  {
    SortedKeysUnique({"bytes", "truncated"}, ["bytes", "truncated"]);
  }

  lemma KeysOfThree()
    ensures SortedKeys({"bytes", "sha256", "truncated"}) == ["bytes", "sha256", "truncated"]
  {
    SortedKeysUnique({"bytes", "sha256", "truncated"}, ["bytes", "sha256", "truncated"]);
  }

  function CallsDigest(n: nat): Json {
    Arr([Obj(map["truncated" := Bool(true), "bytes" := Number(n)])])
  }

  lemma CallsDigestSize(n: nat)
    ensures Size(CallsDigest(n)) == 29 + |Decimal(n)|
  {
    hide Size, Quote, SortedKeys, Decimal, FieldSizes, Encode;
    var o := CallsDigest(n).items[0];
    ObjSize(o);
    CallsDigestFields(n);
    KeysOfTwo();
    WordSizes();
    NumberSize(n);
    ListSizeIsSize([o]);
    SumSizesOne(o);
    hide CallsDigest, Number;
    TwoFields(o, "bytes", "truncated");
  }

  lemma CallsDigestFields(n: nat)
    ensures CallsDigest(n) == Arr([CallsDigest(n).items[0]])
    ensures var o := CallsDigest(n).items[0];
      && o.Obj? && o.fields.Keys == {"bytes", "truncated"} && o.fields["bytes"] == Number(n)
      && o.fields["truncated"] == Bool(true)
  {
    hide Number;
  }

  lemma TwoFields(j: Json, a: string, b: string)
    requires j.Obj? && a in j.fields && b in j.fields
    ensures FieldSizes(j, [a, b]) == FieldSize(j, a) + FieldSize(j, b)
  {
    hide FieldSize;
    assert [a, b][1..] == [b] && [b][1..] == [];
    assert FieldSizes(j, [b]) == FieldSize(j, b) + FieldSizes(j, []);
  }

  lemma ThreeFields(j: Json, a: string, b: string, c: string)
    requires j.Obj? && a in j.fields && b in j.fields && c in j.fields
    ensures FieldSizes(j, [a, b, c]) == FieldSize(j, a) + FieldSize(j, b) + FieldSize(j, c)
  {
    hide FieldSize;
    assert [a, b, c][1..] == [b, c];
    TwoFields(j, b, c);
  }

  // The digest of oversized variables takes 103 bytes and the decimal length.
  lemma DigestSize(v: Json, sha: string -> string)
    requires HexDigest(sha)
    ensures Size(Digest(v, sha)) == 103 + |Decimal(Size(v))|
  {
    hide Encode, Quote, SortedKeys, Decimal, Plain, FieldSizes;
    var d := Digest(v, sha);
    ObjSize(d);
    DigestFields(v, sha);
    KeysOfThree();
    WordSizes();
    NumberSize(Size(v));
    HashSize(sha(Encode(v)));
    hide Size, Digest, HexDigest;
    ThreeFields(d, "bytes", "sha256", "truncated");
  }

  lemma DigestFields(v: Json, sha: string -> string)
    ensures var d := Digest(v, sha);
      && d.Obj? && d.fields.Keys == {"bytes", "sha256", "truncated"}
      && d.fields["bytes"] == Number(Size(v)) && d.fields["sha256"] == Str(sha(Encode(v)))
      && d.fields["truncated"] == Bool(true)
  {
    hide Encode, Size, Number;
  }

  lemma HashSize(hash: string)
    requires |hash| == 64 && Plain(hash)
    ensures Size(Str(hash)) == 66
  {
    PlainQuote(hash);
    hide Quote, Plain;
  }

  lemma {:induction false} FittedCallsFit(calls: seq<Json>, budget: nat, limit: nat)
    requires limit >= 64 && Size(Arr(calls)) <= MAX_INT
    ensures Size(FittedCalls(calls, budget, limit)) <= limit
    decreases budget
  {
    hide Size, ShrunkCalls, Number;
    if budget < 32 {
      CallsDigestSize(Size(Arr(calls)));
      MaxIntDigits(Size(Arr(calls)));
    } else {
      FittedCallsFit(calls, budget / 2, limit);
    }
  }

  // Tool calls always end up within their cap.
  lemma ToolCallsFit(v: Json, limit: nat)
    requires v.Arr? && limit >= 64 && Size(v) <= MAX_INT
    ensures Size(TruncatedToolCalls(v, limit)) <= limit
  {
    hide Size, StrippedCalls;
    if Size(v) > limit {
      var overhead := Size(Arr(StrippedCalls(v.items)));
      FittedCallsFit(v.items, Max(limit - overhead, 0) / Max(|v.items|, 1), limit);
    }
  }

  /// Whole payloads

  // What a Go process can hold: lengths that fit an int.
  predicate WithinInt(v: Json) {
    && (At(v, "messages").Arr? ==> |At(v, "messages").items| <= MAX_INT)
    && Size(At(v, "variables")) <= MAX_INT && Size(At(v, "tool_calls")) <= MAX_INT
  }

  // When a second pass agrees with the first: there are no variables, or they
  // fit, or their digest fits; or else the digest is as long as what it stands
  // for and the two hash alike.
  predicate VariablesSettle(v: Json, maxBytes: nat, sha: string -> string) {
    var vars := At(v, "variables");
    || vars.Null?
    || Size(vars) <= Quarter(maxBytes)
    || 103 + |Decimal(Size(vars))| <= Quarter(maxBytes)
    || (Size(vars) == 103 + |Decimal(Size(vars))| && sha(Encode(vars)) == sha(Encode(Digest(vars, sha))))
  }

  lemma DigestTwice(v: Json, limit: nat, sha: string -> string)
    requires HexDigest(sha)
    ensures var r := TruncatedVariables(v, limit, sha);
      TruncatedVariables(r, limit, sha) == r <==>
        (Size(v) <= limit || 103 + |Decimal(Size(v))| <= limit
         || (Size(v) == 103 + |Decimal(Size(v))| && sha(Encode(v)) == sha(Encode(Digest(v, sha)))))
  {
    hide Encode, Size, Decimal, Digest;
    var d := Digest(v, sha);
    DigestSize(v, sha);
    DigestsEqual(v, d, sha);
  }

  lemma DigestsEqual(v: Json, w: Json, sha: string -> string)
    ensures Digest(v, sha) == Digest(w, sha) <==> Size(v) == Size(w) && sha(Encode(v)) == sha(Encode(w))
  {
    hide Encode, Size, Decimal;
    DigestFields(v, sha);
    DigestFields(w, sha);
    if Number(Size(v)) == Number(Size(w)) { DecimalInjective(Size(v), Size(w)); }
  }

  // The fields of a truncated input.
  lemma InputFields(v: Json, maxBytes: nat, sha: string -> string)
    requires v.Obj?
    ensures var r := TruncatedInput(v, maxBytes, sha);
      && r.Obj?
      && At(r, "messages") == (if At(v, "messages").Arr?
           then Arr(TruncatedMessages(At(v, "messages").items, PerMessage(maxBytes), maxBytes)) else At(v, "messages"))
      && At(r, "text") == (if At(v, "text").Str? then Str(Truncated(At(v, "text").text, maxBytes)) else At(v, "text"))
      && At(r, "variables") == (if At(v, "variables").Null? then Null
           else TruncatedVariables(At(v, "variables"), Quarter(maxBytes), sha))
      && (InputCut(v, maxBytes) ==> At(r, "truncated") == Bool(true))
  {
    hide TruncatedMessages, Truncated, TruncatedVariables, InputCut;
  }

  // The second pass changes the variables, or nothing.
  lemma InputTwice(v: Json, maxBytes: nat, sha: string -> string)
    requires v.Obj? && WithinInt(v)
    ensures var r := TruncatedInput(v, maxBytes, sha);
      var vars := At(r, "variables");
      InputVariables(InputText(InputMessages(r, maxBytes), maxBytes), maxBytes, sha) ==
      if vars.Null? then r else With(r, "variables", TruncatedVariables(vars, Quarter(maxBytes), sha))
  {
    var r := TruncatedInput(v, maxBytes, sha);
    InputFields(v, maxBytes, sha);
    hide TruncatedMessages, Truncated, TruncatedVariables, InputCut, TruncatedInput, Size;
    if At(v, "messages").Arr? {
      MessagesTwice(At(v, "messages").items, PerMessage(maxBytes), maxBytes);
      WithSame(r, "messages", At(r, "messages"));
    }
    if At(v, "text").Str? {
      TruncatedTwice(At(v, "text").text, maxBytes);
      WithSame(r, "text", At(r, "text"));
    }
  }

  lemma InputCutTwice(v: Json, maxBytes: nat, sha: string -> string)
    requires v.Obj? && WithinInt(v)
    ensures InputCut(TruncatedInput(v, maxBytes, sha), maxBytes) ==> InputCut(v, maxBytes)
  {
    InputFields(v, maxBytes, sha);
    hide TruncatedMessages, MessagesCut, Truncated, TruncatedInput, Size;
    if At(v, "messages").Arr? {
      MessagesTwice(At(v, "messages").items, PerMessage(maxBytes), maxBytes);
    }
    if At(v, "text").Str? { TruncatedFits(At(v, "text").text, maxBytes); }
  }

  // Truncating an input twice is truncating it once exactly when its variables
  // settle.
  lemma InputFixpoint(v: Json, maxBytes: nat, sha: string -> string)
    requires WithinInt(v) && HexDigest(sha)
    ensures var r := TruncatedInput(v, maxBytes, sha);
      TruncatedInput(r, maxBytes, sha) == r <==> VariablesSettle(v, maxBytes, sha)
  {
    if v.Obj? {
      var r := TruncatedInput(v, maxBytes, sha);
      InputFields(v, maxBytes, sha);
      InputTwice(v, maxBytes, sha);
      InputFields(r, maxBytes, sha);
      DigestTwice(At(v, "variables"), Quarter(maxBytes), sha);
      InputCutTwice(v, maxBytes, sha);
      InputSettled(v, maxBytes, sha);
    }
  }

  lemma InputSettled(v: Json, maxBytes: nat, sha: string -> string)
    requires v.Obj? && HexDigest(sha)
    requires var r := TruncatedInput(v, maxBytes, sha);
      && r.Obj? && (InputCut(v, maxBytes) ==> At(r, "truncated") == Bool(true))
      && (InputCut(r, maxBytes) ==> InputCut(v, maxBytes))
      && var vars := At(r, "variables");
      && InputVariables(InputText(InputMessages(r, maxBytes), maxBytes), maxBytes, sha) ==
           (if vars.Null? then r else With(r, "variables", TruncatedVariables(vars, Quarter(maxBytes), sha)))
    ensures var r := TruncatedInput(v, maxBytes, sha);
      var vars := At(r, "variables");
      vars.Null? || TruncatedVariables(vars, Quarter(maxBytes), sha) == vars ==> TruncatedInput(r, maxBytes, sha) == r
  {
    hide TruncatedMessages, MessagesCut, Truncated, InputCut, InputMessages, InputText, InputVariables;
    hide TruncatedVariables, Size;
  }

  lemma OutputTwice(v: Json, maxBytes: nat)
    requires WithinInt(v)
    ensures TruncatedOutput(TruncatedOutput(v, maxBytes), maxBytes) == TruncatedOutput(v, maxBytes)
  {
    if v.Obj? {
      var r := TruncatedOutput(v, maxBytes);
      OutputFields(v, maxBytes);
      hide TruncatedOutput, Truncated, TruncatedToolCalls, Size;
      if At(v, "content").Str? {
        TruncatedTwice(At(v, "content").text, Quarter(maxBytes));
        TruncatedFits(At(v, "content").text, Quarter(maxBytes));
        WithSame(r, "content", At(r, "content"));
      }
      CallsTwice(At(v, "tool_calls"), Quarter(maxBytes));
      if !At(v, "tool_calls").Null? { WithSame(r, "tool_calls", At(r, "tool_calls")); }
      OutputSettled(v, maxBytes);
    }
  }

  lemma CallsTwice(calls: Json, limit: nat)
    requires limit >= 64 && Size(calls) <= MAX_INT
    ensures var r := TruncatedToolCalls(calls, limit);
      TruncatedToolCalls(r, limit) == r && (r.Arr? ==> Size(r) <= limit) && (!calls.Null? ==> !r.Null?)
  {
    if calls.Arr? { ToolCallsFit(calls, limit); }
    CallsAreList(calls, limit);
    hide Size, FittedCalls;
  }

  lemma {:induction false} FittedCallsIsList(calls: seq<Json>, budget: nat, limit: nat)
    ensures FittedCalls(calls, budget, limit).Arr?
    decreases budget
  {
    hide Size, ShrunkCalls;
    if budget >= 32 { FittedCallsIsList(calls, budget / 2, limit); }
  }

  lemma CallsAreList(v: Json, limit: nat)
    ensures v.Arr? ==> TruncatedToolCalls(v, limit).Arr?
  {
    hide Size, FittedCalls, StrippedCalls;
    if v.Arr? && Size(v) > limit {
      var overhead := Size(Arr(StrippedCalls(v.items)));
      FittedCallsIsList(v.items, Max(limit - overhead, 0) / Max(|v.items|, 1), limit);
    }
  }

  lemma OutputFields(v: Json, maxBytes: nat)
    requires v.Obj?
    ensures var r := TruncatedOutput(v, maxBytes);
      && r.Obj?
      && At(r, "content") == (if At(v, "content").Str?
           then Str(Truncated(At(v, "content").text, Quarter(maxBytes))) else At(v, "content"))
      && At(r, "tool_calls") == (if At(v, "tool_calls").Null? then Null
           else TruncatedToolCalls(At(v, "tool_calls"), Quarter(maxBytes)))
      && (OutputCut(v, maxBytes) ==> At(r, "truncated") == Bool(true))
  {
    hide Truncated, TruncatedToolCalls, OutputCut;
  }

  lemma OutputSettled(v: Json, maxBytes: nat)
    requires v.Obj?
    requires var r := TruncatedOutput(v, maxBytes);
      && r.Obj? && !OutputCut(r, maxBytes) && OutputCalls(OutputContent(r, maxBytes), maxBytes) == r
    ensures var r := TruncatedOutput(v, maxBytes); TruncatedOutput(r, maxBytes) == r
  {
    hide Truncated, OutputCut, OutputCalls, OutputContent, Size;
  }

  /// Whole records

  predicate RecordWithinInt(gen: map<string, Json>) {
    WithinInt(At(Obj(gen), "input")) && WithinInt(At(Obj(gen), "output"))
  }

  predicate RecordSettles(gen: map<string, Json>, maxBytes: nat, sha: string -> string) {
    VariablesSettle(At(Obj(gen), "input"), maxBytes, sha)
  }

  lemma NotNullInput(v: Json, maxBytes: nat, sha: string -> string)
    ensures TruncatedInput(v, maxBytes, sha).Null? <==> v.Null?
    ensures TruncatedInput(v, maxBytes, sha).Str? <==> v.Str?
  {
    if v.Obj? { InputFields(v, maxBytes, sha); }
    hide InputMessages, InputText, InputVariables, InputCut;
  }

  lemma NotNullOutput(v: Json, maxBytes: nat)
    ensures TruncatedOutput(v, maxBytes).Null? <==> v.Null?
    ensures TruncatedOutput(v, maxBytes).Str? <==> v.Str?
  {
    if v.Obj? { OutputFields(v, maxBytes); }
    hide OutputContent, OutputCalls, OutputCut;
  }

  // What the truncation of a record leaves under each key.
  lemma PayloadFields(gen: map<string, Json>, maxBytes: nat, sha: string -> string)
    ensures var r := TruncatedPayload(gen, maxBytes, sha);
      && At(Obj(r), "input") == TruncatedInput(At(Obj(gen), "input"), maxBytes, sha)
      && At(Obj(r), "output") == TruncatedOutput(At(Obj(gen), "output"), maxBytes)
      && ("input" in r ==> !r["input"].Null?) && ("output" in r ==> !r["output"].Null?)
      && (forall k :: k != "input" && k != "output" ==> (k in r <==> k in gen) && (k in gen ==> r[k] == gen[k]))
  {
    NotNullInput(At(Obj(gen), "input"), maxBytes, sha);
    NotNullOutput(At(Obj(gen), "output"), maxBytes);
    hide TruncatedInput, TruncatedOutput;
    DifferentKeys();
  }

  lemma DifferentKeys()
    ensures "input" != "output" && "error" != "input" && "error" != "output"
    ensures "status" !in {"input", "output", "error"} && "stop_kind" !in {"input", "output", "error"}
    ensures "id" !in {"input", "output", "error"}
  {
    assert "input"[0] != "output"[0] && "error"[0] != "input"[0] && "error"[0] != "output"[0];
    assert "status"[0] == "stop_kind"[0] == 's' && |"id"| == 2;
  }

  // Truncating a record twice is truncating it once exactly when the variables
  // of its input settle.
  lemma PayloadFixpoint(gen: map<string, Json>, maxBytes: nat, sha: string -> string)
    requires RecordWithinInt(gen) && HexDigest(sha)
    ensures var r := TruncatedPayload(gen, maxBytes, sha);
      TruncatedPayload(r, maxBytes, sha) == r <==> RecordSettles(gen, maxBytes, sha)
  {
    hide TruncatedPayload, TruncatedInput, TruncatedOutput, WithinInt, VariablesSettle, HexDigest;
    var r := TruncatedPayload(gen, maxBytes, sha);
    var rr := TruncatedPayload(r, maxBytes, sha);
    PayloadFields(gen, maxBytes, sha);
    PayloadFields(r, maxBytes, sha);
    InputFixpoint(At(Obj(gen), "input"), maxBytes, sha);
    OutputTwice(At(Obj(gen), "output"), maxBytes);
    if RecordSettles(gen, maxBytes, sha) {
      SameRecord(r, rr);
    }
  }

  lemma SameRecord(a: map<string, Json>, b: map<string, Json>)
    requires At(Obj(a), "input") == At(Obj(b), "input") && At(Obj(a), "output") == At(Obj(b), "output")
    requires forall k :: k in {"input", "output"} ==> (k in a ==> !a[k].Null?) && (k in b ==> !b[k].Null?)
    requires forall k :: k != "input" && k != "output" ==> (k in a <==> k in b) && (k in a ==> a[k] == b[k])
    ensures a == b
  {
    assert "input" in {"input", "output"} && "output" in {"input", "output"};
    forall k ensures k in a <==> k in b {
      if k == "input" || k == "output" { assert k in {"input", "output"}; }
    }
    forall k | k in a ensures a[k] == b[k] {
      if k == "input" || k == "output" { assert k in {"input", "output"}; }
    }
  }

  // From 488 bytes on the cap on variables holds any digest, so every record settles.
  lemma LargeEnoughSettles(gen: map<string, Json>, maxBytes: nat, sha: string -> string)
    requires RecordWithinInt(gen) && maxBytes >= 488
    ensures RecordSettles(gen, maxBytes, sha)
  {
    hide Encode;
    MaxIntDigits(Size(At(At(Obj(gen), "input"), "variables")));
  }

  // Below that it can fail: 100 bytes of variables under a cap of 64 become a
  // digest of 106, which the second pass digests again.
  lemma SmallCapUnsettled(sha: string -> string)
    requires HexDigest(sha)
    ensures var vars := Str(seq(100, _ => 'a'));
      var v := Obj(map["variables" := vars]);
      var r := TruncatedInput(v, 256, sha);
      Size(vars) == 102 && TruncatedInput(r, 256, sha) != r
  {
    var vars := Str(seq(100, _ => 'a'));
    var v := Obj(map["variables" := vars]);
    AsciiIsValid(vars.text);
    PlainQuote(vars.text);
    assert Size(vars) == 102 && |Decimal(102)| == 3;
    assert At(v, "messages").Null? && At(v, "tool_calls").Null? && Size(Null) == 4;
    hide Encode, TruncatedInput, HexDigest;
    InputFixpoint(v, 256, sha);
  }

  /// The full-mode policy

  lemma CappedTwice(gen: map<string, Json>)
    ensures CappedError(CappedError(gen)) == CappedError(gen)
  {
    var message := At(At(Obj(gen), "error"), "message");
    if message.Str? { TruncatedFits(message.text, ERROR_MESSAGE_MAX); }
    hide Truncated;
  }

  lemma CappedElsewhere(gen: map<string, Json>)
    ensures forall k :: k != "error" ==>
      (k in CappedError(gen) <==> k in gen) && (k in gen ==> CappedError(gen)[k] == gen[k])
    ensures "error" in CappedError(gen) <==> "error" in gen
  {
    hide Truncated;
  }

  lemma WrappedFields(gen: map<string, Json>)
    ensures var w := Wrapped(gen);
      && !At(Obj(w), "input").Str? && !At(Obj(w), "output").Str?
      && (At(Obj(w), "input") == At(Obj(gen), "input") || At(Obj(gen), "input").Str?)
      && (forall k :: k != "input" && k != "output" ==> (k in w <==> k in gen) && (k in gen ==> w[k] == gen[k]))
  {
    DifferentKeys();
  }

  lemma WrappedAlready(gen: map<string, Json>)
    requires !At(Obj(gen), "input").Str? && !At(Obj(gen), "output").Str?
    ensures Wrapped(gen) == gen
  {
  }

  lemma KeptAgain(a: map<string, Json>, b: map<string, Json>, threshold: int, bucket: Json -> nat)
    requires forall k :: k !in {"input", "output", "error"} ==> (k in a <==> k in b) && (k in a ==> a[k] == b[k])
    ensures Kept(a, threshold, bucket) <==> Kept(b, threshold, bucket)
  {
    DifferentKeys();
  }

  // Truncating and capping the error message do not meet.
  lemma TruncateCapped(gen: map<string, Json>, maxBytes: nat, sha: string -> string)
    ensures TruncatedPayload(CappedError(gen), maxBytes, sha) == CappedError(TruncatedPayload(gen, maxBytes, sha))
  {
    var c := CappedError(gen);
    DifferentKeys();
    CappedElsewhere(gen);
    CappedElsewhere(TruncatedPayload(gen, maxBytes, sha));
    PayloadFields(gen, maxBytes, sha);
    PayloadFields(c, maxBytes, sha);
    hide TruncatedPayload, TruncatedInput, TruncatedOutput, CappedError;
    CappedSame(gen, TruncatedPayload(gen, maxBytes, sha));
    SameRecord(TruncatedPayload(c, maxBytes, sha), CappedError(TruncatedPayload(gen, maxBytes, sha)));
  }

  lemma CappedSame(a: map<string, Json>, b: map<string, Json>)
    requires "error" in a <==> "error" in b
    requires "error" in a ==> a["error"] == b["error"]
    ensures "error" in a ==> CappedError(a)["error"] == CappedError(b)["error"]
  {
    hide Truncated;
  }

  // The record a policy truncates, if it keeps the payload.
  predicate PolicySettles(gen: map<string, Json>, maxBytes: nat, threshold: int, bucket: Json -> nat,
      sha: string -> string) {
    !Kept(gen, threshold, bucket) || RecordSettles(Wrapped(gen), maxBytes, sha)
  }

  // Applying the whole full-mode policy again changes nothing exactly when the
  // variables settle, so always from 488 bytes on; the sampling decision is
  // made alike both times.
  lemma PolicyFixpoint(gen: map<string, Json>, maxBytes: nat, threshold: int, bucket: Json -> nat,
      sha: string -> string)
    requires RecordWithinInt(Wrapped(gen)) && HexDigest(sha)
    ensures var r := FullPolicy(gen, maxBytes, threshold, bucket, sha);
      && (Kept(r, threshold, bucket) <==> Kept(gen, threshold, bucket))
      && (FullPolicy(r, maxBytes, threshold, bucket, sha) == r <==>
          PolicySettles(gen, maxBytes, threshold, bucket, sha))
  {
    var r := FullPolicy(gen, maxBytes, threshold, bucket, sha);
    DifferentKeys();
    if Kept(gen, threshold, bucket) {
      PolicyKept(gen, maxBytes, threshold, bucket, sha);
    } else {
      var bare := gen - {"input", "output"};
      CappedElsewhere(bare);
      KeptAgain(gen, r, threshold, bucket);
      CappedTwice(bare);
      assert r - {"input", "output"} == r;
    }
  }

  lemma PolicyKept(gen: map<string, Json>, maxBytes: nat, threshold: int, bucket: Json -> nat, sha: string -> string)
    requires RecordWithinInt(Wrapped(gen)) && HexDigest(sha) && Kept(gen, threshold, bucket)
    ensures var r := FullPolicy(gen, maxBytes, threshold, bucket, sha);
      && Kept(r, threshold, bucket)
      && (FullPolicy(r, maxBytes, threshold, bucket, sha) == r <==> RecordSettles(Wrapped(gen), maxBytes, sha))
  {
    var w := Wrapped(gen);
    var t := TruncatedPayload(w, maxBytes, sha);
    var r := CappedError(t);
    hide TruncatedPayload, TruncatedInput, TruncatedOutput, Kept, HexDigest, RecordWithinInt, RecordSettles, Wrapped;
    assert r == FullPolicy(gen, maxBytes, threshold, bucket, sha);
    hide CappedError;
    DifferentKeys();
    WrappedFields(gen);
    PayloadFields(w, maxBytes, sha);
    NotNullInput(At(Obj(w), "input"), maxBytes, sha);
    NotNullOutput(At(Obj(w), "output"), maxBytes);
    CappedElsewhere(t);
    KeptAgain(gen, r, threshold, bucket);
    WrappedAlready(r);
    TruncateCapped(t, maxBytes, sha);
    PayloadFixpoint(w, maxBytes, sha);
    var tt := TruncatedPayload(t, maxBytes, sha);
    assert FullPolicy(r, maxBytes, threshold, bucket, sha) == CappedError(CappedError(tt));
    CappedTwice(tt);
    CappedElsewhere(tt);
    PayloadFields(t, maxBytes, sha);
    if CappedError(tt) == CappedError(t) { SameRecord(tt, t); }
  }
}
