/**
 The payload policy keeps decoded JSON well formed (payload.go): every string of
 the record it leaves is valid UTF-8 and every number a number, so no cut
 anywhere splits a character.
 */
module PayloadText {
  import opened Utf8
  import opened CanonicalJson
  import opened Decimals
  import opened JsonSizes
  import opened Truncation
  import opened Payload
  import opened MessageFitting
  import opened JsonRoundTrip
  import JsonValidity
  import PayloadFixpoint

  /// Texts, numbers and fields

  lemma TruncatedIsValid(s: string, limit: nat)
    requires Valid(s)
    ensures Valid(Truncated(s, limit))
  {
    if |s| > limit {
      var _, _ := TruncatedKeepsCharacters(s, limit);
    }
  }

  lemma {:induction false} AllDigits(s: string)
    requires forall i :: 0 <= i < |s| ==> '0' <= s[i] <= '9'
    ensures DigitSpan(s) == |s|
  {
    if s != "" { AllDigits(s[1..]); }
  }

  lemma NumberIsNumber(n: nat)
    ensures WellFormed(Number(n))
  {
    var s := Decimal(n);
    DecimalHead(n);
    AllDigits(s);
    assert s[|s|..] == "";
    hide Decimal, DigitSpan;
    assert n == 0 ==> |s| == 1 by { assert Decimal(0) == "0" by { ZeroIsOneDigit(); } }
  }

  lemma ZeroIsOneDigit()
    ensures Decimal(0) == "0"
  {
  }

  lemma TextIsValid(j: Json)
    requires WellFormed(j) && j.Str?
    ensures Valid(j.text)
  {
  }

  lemma AtKeeps(j: Json, key: string)
    requires WellFormed(j)
    ensures WellFormed(At(j, key))
  {
    hide Valid;
  }

  lemma WithKeeps(j: Json, key: string, value: Json)
    requires j.Obj? && WellFormed(j) && WellFormed(value) && Valid(key)
    ensures WellFormed(With(j, key, value))
  {
    hide Valid;
  }

  lemma TextKeeps(j: Json, key: string, text: string)
    requires j.Obj? && WellFormed(j) && Valid(text) && Valid(key)
    ensures WellFormed(With(j, key, Str(text)))
  {
    hide Valid;
    WithKeeps(j, key, Str(text));
  }

  lemma KeysAreValid()
    ensures Valid("content") && Valid("truncated") && Valid("role") && Valid("bytes") && Valid("sha256")
    ensures Valid("function") && Valid("arguments") && Valid("messages") && Valid("text") && Valid("variables")
    ensures Valid("tool_calls") && Valid("message") && Valid("input") && Valid("output") && Valid("error")
    ensures Valid("system")
  {
    hide Valid;
    MessageKeysAreValid();
    RecordKeysAreValid();
  }

  lemma MessageKeysAreValid()
    ensures Valid("content") && Valid("truncated") && Valid("role") && Valid("system") && Valid("bytes")
    ensures Valid("sha256") && Valid("function") && Valid("arguments")
  {
    hide Valid;
    AsciiIsValid("content");
    AsciiIsValid("truncated");
    AsciiIsValid("role");
    AsciiIsValid("bytes");
    AsciiIsValid("sha256");
    AsciiIsValid("function");
    AsciiIsValid("arguments");
    AsciiIsValid("system");
  }

  lemma RecordKeysAreValid()
    ensures Valid("messages") && Valid("text") && Valid("variables") && Valid("tool_calls") && Valid("message")
    ensures Valid("input") && Valid("output") && Valid("error")
  {
    hide Valid;
    AsciiIsValid("messages");
    AsciiIsValid("text");
    AsciiIsValid("variables");
    AsciiIsValid("tool_calls");
    AsciiIsValid("message");
    AsciiIsValid("input");
    AsciiIsValid("output");
    AsciiIsValid("error");
  }

  lemma Marked(j: Json)
    requires j.Obj? && WellFormed(j)
    ensures WellFormed(With(j, "truncated", Bool(true)))
  {
    KeysAreValid();
    FlagWellFormed();
    WithKeeps(j, "truncated", Bool(true));
  }

  /// Messages

  predicate AllWellFormed(list: seq<Json>) {
    forall i :: 0 <= i < |list| ==> WellFormed(list[i])
  }

  lemma MessageKeeps(v: Json, limit: nat)
    requires WellFormed(v)
    ensures WellFormed(TruncatedMessage(v, limit))
  {
    hide Valid, WellFormed, Truncated, Encode;
    var content := At(v, "content");
    AtKeeps(v, "content");
    if content.Str? {
      TextIsValid(content);
      TruncatedIsValid(content.text, limit);
      CutKeeps(v, Truncated(content.text, limit));
    } else if !content.Null? {
      JsonValidity.WellFormedIsNumeric(content);
      JsonValidity.EncodeIsValid(content);
      TruncatedIsValid(Encode(content), limit);
      CutKeeps(v, Truncated(Encode(content), limit));
    }
  }

  lemma CutKeeps(v: Json, text: string)
    requires v.Obj? && WellFormed(v) && Valid(text)
    ensures WellFormed(With(v, "content", Str(text)))
    ensures WellFormed(With(With(v, "content", Str(text)), "truncated", Bool(true)))
  {
    hide Valid, WellFormed;
    KeysAreValid();
    TextKeeps(v, "content", text);
    Marked(With(v, "content", Str(text)));
  }

  lemma {:induction false} EachKeeps(list: seq<Json>, limit: nat)
    requires AllWellFormed(list)
    ensures AllWellFormed(TruncatedEach(list, limit))
  {
    hide WellFormed, TruncatedMessage;
    if list != [] {
      MessageKeeps(list[0], limit);
      EachKeeps(list[1..], limit);
    }
  }

  lemma StubKeeps(msg: Json)
    requires msg.Obj? && WellFormed(msg)
    ensures WellFormed(Stub(msg))
  {
    hide Valid, WellFormed, StubText;
    StubTextIsValid(ContentBytes(msg));
    CutKeeps(msg, StubText(ContentBytes(msg)));
  }

  lemma StubTextIsValid(n: nat)
    ensures Valid(StubText(n))
  {
    hide Valid, RuneSize, Decimal;
    EllipsisIsValid();
    AsciiIsValid("[truncated ");
    AsciiIsValid(Decimal(n));
    AsciiIsValid(" bytes]");
    ValidThree(ELLIPSIS, "[truncated ", Decimal(n));
    ValidThree(ELLIPSIS + "[truncated " + Decimal(n), " bytes]", ELLIPSIS);
  }

  lemma {:induction false} StubbedKeeps(list: seq<Json>, i: nat, limit: nat)
    requires AllWellFormed(list)
    ensures AllWellFormed(StubbedFrom(list, i, limit))
    decreases |list| - i
  {
    hide WellFormed, Stub, ListSize;
    if !(i + 1 >= |list| || ListSize(list) <= limit) {
      if list[i].Obj? { StubKeeps(list[i]); }
      StubbedKeeps(if list[i].Obj? then list[i := Stub(list[i])] else list, i + 1, limit);
    }
  }

  lemma MarkerIsWellFormed(n: nat)
    ensures WellFormed(Marker(n))
  {
    hide Valid;
    KeysAreValid();
    MarkerTextPlain(n);
    FlagWellFormed();
    hide MarkerText;
    ObjWellFormed(Marker(n).fields);
  }

  lemma ShrunkKeeps(msg: Json)
    requires WellFormed(msg) && Shrunk(msg).Some?
    ensures WellFormed(Shrunk(msg).value)
  {
    hide WellFormed, Minimal, TruncatedMessage, Encode;
    MinimalWellFormed(msg);
    MessageKeeps(msg, ContentBytes(msg) / 2);
  }

  lemma {:induction false} DroppedKeeps(first: Json, rest: seq<Json>, limit: nat)
    requires WellFormed(first) && AllWellFormed(rest)
    ensures AllWellFormed(DroppedMiddle(first, rest, limit))
    decreases ShrinkMeasure(first)
  {
    hide WellFormed, Marker, ListSize, Shrunk, ShrinkMeasure, TailCount;
    var base := ListSize([first, Marker(|rest|)]);
    if base <= limit {
      MarkerIsWellFormed(|rest| - TailCount(rest, limit - base));
    } else if Shrunk(first).Some? {
      ShrinkingEnds(first);
      ShrunkKeeps(first);
      DroppedKeeps(Shrunk(first).value, rest, limit);
    } else {
      MarkerIsWellFormed(|rest| + 1);
    }
  }

  lemma MessagesKeep(list: seq<Json>, perMessage: nat, limit: nat)
    requires AllWellFormed(list)
    ensures AllWellFormed(TruncatedMessages(list, perMessage, limit))
  {
    hide WellFormed, TruncatedMessage, StubbedFrom, DroppedMiddle, ListSize;
    var each := TruncatedEach(list, perMessage);
    EachKeeps(list, perMessage);
    StubbedKeeps(each, 1, limit);
    if each != [] {
      var stubbed := StubbedFrom(each, 1, limit);
      DroppedKeeps(stubbed[0], stubbed[1..], limit);
      DroppedKeeps(each[0], each[1..], limit);
    }
  }

  // However often the first message of a decoded list has been shrunk, there is
  // nothing left to shrink exactly when it is no object or minimal.
  lemma {:induction false} ShrinkingStops(first: Json, k: nat)
    requires WellFormed(first) && ShrunkTimes(first, k).Some?
    ensures var m := ShrunkTimes(first, k).value;
      WellFormed(m) && (Shrunk(m).None? <==> !m.Obj? || m == Minimal(m))
    decreases k
  {
    hide WellFormed, Shrunk, Minimal;
    if k == 0 {
      ShrinkStops(first);
    } else {
      ShrunkKeeps(first);
      ShrinkingStops(Shrunk(first).value, k - 1);
    }
  }

  /// Tool calls and variables

  lemma ArgumentsKeep(call: Json, args: string)
    requires WellFormed(call) && Valid(args)
    ensures WellFormed(PutArguments(call, args))
  {
    hide Valid, WellFormed;
    var fn := At(call, "function");
    KeysAreValid();
    AtKeeps(call, "function");
    if At(fn, "arguments").Str? {
      TextKeeps(fn, "arguments", args);
      WithKeeps(call, "function", With(fn, "arguments", Str(args)));
    }
  }

  lemma CallKeeps(call: Json, budget: nat)
    requires WellFormed(call)
    ensures WellFormed(ShrunkCall(call, budget))
  {
    hide Valid, WellFormed, Truncated, PutArguments;
    var args := At(At(call, "function"), "arguments");
    AtKeeps(call, "function");
    AtKeeps(At(call, "function"), "arguments");
    if args.Str? {
      TextIsValid(args);
      TruncatedIsValid(args.text, budget);
      ArgumentsKeep(call, Truncated(args.text, budget));
    }
  }

  lemma {:induction false} CallsKeep(calls: seq<Json>, budget: nat)
    requires AllWellFormed(calls)
    ensures AllWellFormed(ShrunkCalls(calls, budget))
  {
    hide WellFormed, ShrunkCall;
    if calls != [] {
      CallKeeps(calls[0], budget);
      CallsKeep(calls[1..], budget);
    }
  }

  lemma ArrWellFormed(list: seq<Json>)
    ensures WellFormed(Arr(list)) <==> AllWellFormed(list)
  {
    hide Valid;
  }

  lemma {:induction false} FittedKeep(calls: seq<Json>, budget: nat, limit: nat)
    requires AllWellFormed(calls)
    ensures WellFormed(FittedCalls(calls, budget, limit))
    decreases budget
  {
    hide Valid, WellFormed, AllWellFormed, ShrunkCalls, Number, Size;
    if budget < 32 {
      var fields := map["truncated" := Bool(true), "bytes" := Number(Size(Arr(calls)))];
      KeysAreValid();
      FlagWellFormed();
      NumberIsNumber(Size(Arr(calls)));
      ObjWellFormed(fields);
      OneIsWellFormed(Obj(fields));
    } else {
      CallsKeep(calls, budget);
      ArrWellFormed(ShrunkCalls(calls, budget));
      FittedKeep(calls, budget / 2, limit);
    }
  }

  lemma OneIsWellFormed(j: Json)
    requires WellFormed(j)
    ensures WellFormed(Arr([j]))
  {
    hide Valid;
    var one := [j];
    assert forall i :: 0 <= i < |one| ==> WellFormed(one[i]);
  }

  lemma ToolCallsKeep(v: Json, limit: nat)
    requires WellFormed(v)
    ensures WellFormed(TruncatedToolCalls(v, limit))
  {
    hide WellFormed, AllWellFormed, FittedCalls, StrippedCalls, Size;
    if v.Arr? && Size(v) > limit {
      ArrWellFormed(v.items);
      var overhead := Size(Arr(StrippedCalls(v.items)));
      FittedKeep(v.items, Max(limit - overhead, 0) / Max(|v.items|, 1), limit);
    }
  }

  lemma VariablesKeep(v: Json, limit: nat, sha: string -> string)
    requires WellFormed(v) && PayloadFixpoint.HexDigest(sha)
    ensures WellFormed(TruncatedVariables(v, limit, sha))
  {
    assert Plain(sha(Encode(v)));
    assert Valid(sha(Encode(v)));
    hide Valid, WellFormed, Encode, Plain, PayloadFixpoint.HexDigest;
    DigestKeeps(sha(Encode(v)), Size(v));
  }

  lemma DigestKeeps(digest: string, n: nat)
    requires Valid(digest)
    ensures WellFormed(Obj(map["truncated" := Bool(true), "sha256" := Str(digest), "bytes" := Number(n)]))
  {
    hide Valid, Number;
    KeysAreValid();
    FlagWellFormed();
    NumberIsNumber(n);
    StrWellFormed(digest);
    hide WellFormed;
    ObjWellFormed(map["truncated" := Bool(true), "sha256" := Str(digest), "bytes" := Number(n)]);
  }

  lemma StrWellFormed(text: string)
    requires Valid(text)
    ensures WellFormed(Str(text))
  {
  }

  /// Whole records

  lemma InputKeeps(v: Json, maxBytes: nat, sha: string -> string)
    requires WellFormed(v) && PayloadFixpoint.HexDigest(sha)
    ensures WellFormed(TruncatedInput(v, maxBytes, sha))
  {
    hide WellFormed, PayloadFixpoint.HexDigest, InputCut, InputMessages, InputText, InputVariables;
    if v.Obj? {
      InputMessagesKeep(v, maxBytes);
      var a := InputMessages(v, maxBytes);
      InputTextKeeps(a, maxBytes);
      var b := InputText(a, maxBytes);
      InputVariablesKeep(b, maxBytes, sha);
      Marked(InputVariables(b, maxBytes, sha));
    }
  }

  lemma InputMessagesKeep(v: Json, maxBytes: nat)
    requires v.Obj? && WellFormed(v)
    ensures InputMessages(v, maxBytes).Obj? && WellFormed(InputMessages(v, maxBytes))
  {
    hide Valid, WellFormed, AllWellFormed, TruncatedMessages;
    var list := At(v, "messages");
    KeysAreValid();
    AtKeeps(v, "messages");
    if list.Arr? {
      ArrWellFormed(list.items);
      MessagesKeep(list.items, PerMessage(maxBytes), maxBytes);
      ArrWellFormed(TruncatedMessages(list.items, PerMessage(maxBytes), maxBytes));
      WithKeeps(v, "messages", Arr(TruncatedMessages(list.items, PerMessage(maxBytes), maxBytes)));
    }
  }

  lemma InputTextKeeps(v: Json, maxBytes: nat)
    requires v.Obj? && WellFormed(v)
    ensures InputText(v, maxBytes).Obj? && WellFormed(InputText(v, maxBytes))
  {
    hide Valid, WellFormed, Truncated;
    var text := At(v, "text");
    AtKeeps(v, "text");
    if text.Str? {
      TextIsValid(text);
      TruncatedIsValid(text.text, maxBytes);
      KeysAreValid();
      TextKeeps(v, "text", Truncated(text.text, maxBytes));
    }
  }

  lemma InputVariablesKeep(v: Json, maxBytes: nat, sha: string -> string)
    requires v.Obj? && WellFormed(v) && PayloadFixpoint.HexDigest(sha)
    ensures InputVariables(v, maxBytes, sha).Obj? && WellFormed(InputVariables(v, maxBytes, sha))
  {
    hide Valid, WellFormed, PayloadFixpoint.HexDigest, TruncatedVariables;
    var vars := At(v, "variables");
    KeysAreValid();
    AtKeeps(v, "variables");
    if !vars.Null? {
      VariablesKeep(vars, Quarter(maxBytes), sha);
      WithKeeps(v, "variables", TruncatedVariables(vars, Quarter(maxBytes), sha));
    }
  }

  lemma OutputKeeps(v: Json, maxBytes: nat)
    requires WellFormed(v)
    ensures WellFormed(TruncatedOutput(v, maxBytes))
  {
    hide WellFormed, OutputCut, OutputContent, OutputCalls;
    if v.Obj? {
      OutputContentKeeps(v, maxBytes);
      var a := OutputContent(v, maxBytes);
      OutputCallsKeep(a, maxBytes);
      Marked(OutputCalls(a, maxBytes));
    }
  }

  lemma OutputContentKeeps(v: Json, maxBytes: nat)
    requires v.Obj? && WellFormed(v)
    ensures OutputContent(v, maxBytes).Obj? && WellFormed(OutputContent(v, maxBytes))
  {
    hide Valid, WellFormed, Truncated;
    var content := At(v, "content");
    AtKeeps(v, "content");
    if content.Str? {
      TextIsValid(content);
      TruncatedIsValid(content.text, Quarter(maxBytes));
      KeysAreValid();
      TextKeeps(v, "content", Truncated(content.text, Quarter(maxBytes)));
    }
  }

  lemma OutputCallsKeep(v: Json, maxBytes: nat)
    requires v.Obj? && WellFormed(v)
    ensures OutputCalls(v, maxBytes).Obj? && WellFormed(OutputCalls(v, maxBytes))
  {
    hide Valid, WellFormed, TruncatedToolCalls;
    var calls := At(v, "tool_calls");
    KeysAreValid();
    AtKeeps(v, "tool_calls");
    if !calls.Null? {
      ToolCallsKeep(calls, Quarter(maxBytes));
      WithKeeps(v, "tool_calls", TruncatedToolCalls(calls, Quarter(maxBytes)));
    }
  }

  lemma ReplacedKeeps(gen: map<string, Json>, key: string, value: Json)
    requires WellFormed(Obj(gen)) && WellFormed(value) && Valid(key)
    ensures WellFormed(Obj(Replaced(gen, key, value)))
  {
    hide Valid;
  }

  lemma FieldKeeps(gen: map<string, Json>, key: string)
    requires WellFormed(Obj(gen)) && key in gen
    ensures WellFormed(gen[key])
  {
    hide Valid;
  }

  // A decoded record stays one: nothing the truncation leaves in it is cut
  // inside a character.
  lemma PayloadKeeps(gen: map<string, Json>, maxBytes: nat, sha: string -> string)
    requires WellFormed(Obj(gen)) && PayloadFixpoint.HexDigest(sha)
    ensures WellFormed(Obj(TruncatedPayload(gen, maxBytes, sha)))
  {
    hide Valid, WellFormed, PayloadFixpoint.HexDigest, TruncatedInput, TruncatedOutput, Replaced;
    KeysAreValid();
    var a := gen;
    if "input" in gen {
      FieldKeeps(gen, "input");
      InputKeeps(gen["input"], maxBytes, sha);
      a := Replaced(gen, "input", TruncatedInput(gen["input"], maxBytes, sha));
      ReplacedKeeps(gen, "input", TruncatedInput(gen["input"], maxBytes, sha));
    }
    if "output" in a {
      FieldKeeps(a, "output");
      OutputKeeps(a["output"], maxBytes);
      ReplacedKeeps(a, "output", TruncatedOutput(a["output"], maxBytes));
    }
  }

  lemma WrappedKeeps(gen: map<string, Json>)
    requires WellFormed(Obj(gen))
    ensures WellFormed(Obj(Wrapped(gen)))
  {
    hide Valid, WellFormed;
    KeysAreValid();
    var a := gen;
    if "input" in gen && gen["input"].Str? {
      FieldKeeps(gen, "input");
      ObjWellFormed(map["text" := gen["input"]]);
      a := gen["input" := Obj(map["text" := gen["input"]])];
      WithKeeps(Obj(gen), "input", Obj(map["text" := gen["input"]]));
    }
    if "output" in a && a["output"].Str? {
      FieldKeeps(a, "output");
      ObjWellFormed(map["content" := a["output"]]);
      WithKeeps(Obj(a), "output", Obj(map["content" := a["output"]]));
    }
  }

  lemma CappedKeeps(gen: map<string, Json>)
    requires WellFormed(Obj(gen))
    ensures WellFormed(Obj(CappedError(gen)))
  {
    hide Valid, WellFormed, Truncated;
    var error := At(Obj(gen), "error");
    var message := At(error, "message");
    AtKeeps(Obj(gen), "error");
    AtKeeps(error, "message");
    if message.Str? {
      TextIsValid(message);
      TruncatedIsValid(message.text, ERROR_MESSAGE_MAX);
      KeysAreValid();
      TextKeeps(error, "message", Truncated(message.text, ERROR_MESSAGE_MAX));
      WithKeeps(Obj(gen), "error", With(error, "message", Str(Truncated(message.text, ERROR_MESSAGE_MAX))));
    }
  }

  // So does the whole policy in full mode.
  lemma PolicyKeeps(gen: map<string, Json>, maxBytes: nat, threshold: int, bucket: Json -> nat, sha: string -> string)
    requires WellFormed(Obj(gen)) && PayloadFixpoint.HexDigest(sha)
    ensures WellFormed(Obj(FullPolicy(gen, maxBytes, threshold, bucket, sha)))
  {
    hide Valid, WellFormed, PayloadFixpoint.HexDigest, TruncatedPayload, Wrapped, CappedError, Kept;
    if Kept(gen, threshold, bucket) {
      WrappedKeeps(gen);
      PayloadKeeps(Wrapped(gen), maxBytes, sha);
      CappedKeeps(TruncatedPayload(Wrapped(gen), maxBytes, sha));
    } else {
      FewerKeeps(gen, {"input", "output"});
      CappedKeeps(gen - {"input", "output"});
    }
  }

  lemma FewerKeeps(gen: map<string, Json>, keys: set<string>)
    requires WellFormed(Obj(gen))
    ensures WellFormed(Obj(gen - keys))
  {
    hide Valid;
  }
}
