/** The loops and in-place updates of payload.go, each computing its function in Payload. */
module PayloadMethods {
  import opened Options
  import opened CanonicalJson
  import opened JsonSizes
  import opened JsonWriter
  import opened Truncation
  import opened Payload
  import PayloadMeaning

  method TruncateMessage(v: Json, limit: nat) returns (msg: Json, cut: bool)
    ensures msg == TruncatedMessage(v, limit) && (cut <==> MessageCut(v, limit))
  {
    hide Encode, Truncated;
    if !v.Obj? || "content" !in v.fields || v.fields["content"].Null? {
      return v, false;
    }
    var content := v.fields["content"];
    msg := v;
    if content.Str? {
      var out;
      out, cut := TruncateString(content.text, limit);
      msg := With(msg, "content", Str(out));
      if cut { msg := With(msg, "truncated", Bool(true)); }
      return;
    }
    var encoded := CanonicalJSON(content);
    if |encoded| <= limit {
      return v, false;
    }
    var out, _ := TruncateString(encoded, limit);
    msg := With(msg, "content", Str(out));
    msg := With(msg, "truncated", Bool(true));
    cut := true;
  }

  lemma {:induction false} TruncatedEachAppend(a: seq<Json>, x: Json, limit: nat)
    ensures TruncatedEach(a + [x], limit) == TruncatedEach(a, limit) + [TruncatedMessage(x, limit)]
  {
    hide TruncatedMessage;
    if a == [] {
      assert [x][1..] == [];
      assert a + [x] == [x];
    } else {
      assert (a + [x])[1..] == a[1..] + [x];
      TruncatedEachAppend(a[1..], x, limit);
    }
  }

  method TruncateMessages(list: seq<Json>, perMessage: nat, limit: nat) returns (out: seq<Json>, cut: bool)
    ensures out == TruncatedMessages(list, perMessage, limit)
    ensures PayloadMeaning.MessagesAre(list, perMessage, out)
    ensures cut <==> MessagesCut(list, perMessage, limit)
  {
    hide TruncatedMessage, MessageCut, Fitted, Size, PayloadMeaning.MessagesAre;
    PayloadMeaning.MessagesMean(list, perMessage, limit);
    cut := false;
    out := [];
    var i := 0;
    while i < |list|
      invariant i <= |list| && out == TruncatedEach(list[..i], perMessage)
      invariant cut <==> exists k :: 0 <= k < i && MessageCut(list[k], perMessage)
    {
      var msg, c := TruncateMessage(list[i], perMessage);
      TruncatedEachAppend(list[..i], list[i], perMessage);
      assert list[..i + 1] == list[..i] + [list[i]];
      cut := cut || c;
      out := out + [msg];
      i := i + 1;
    }
    assert list[..i] == list;
    var size := ListJSONSize(out);
    if size > limit {
      out := FitMessages(out, limit);
      cut := true;
    }
  }

  method FitMessages(list: seq<Json>, limit: nat) returns (r: seq<Json>)
    ensures r == Fitted(list, limit)
  {
    hide StubbedFrom, DroppedMiddle, Size;
    var stubbed := StubMiddle(list, limit);
    var size := ListJSONSize(stubbed);
    if size <= limit {
      return stubbed;
    }
    r := DropMiddle(list, limit);
  }

  lemma {:induction false} ListSizeUpdate(list: seq<Json>, i: nat, x: Json)
    requires i < |list|
    ensures ListSize(list[i := x]) == ListSize(list) - Size(list[i]) + Size(x)
  {
    hide Size;
    assert list == list[..i] + [list[i]] + list[i + 1..];
    assert list[i := x] == list[..i] + [x] + list[i + 1..];
    SumSizesConcat(list[..i] + [list[i]], list[i + 1..]);
    SumSizesConcat(list[..i], [list[i]]);
    SumSizesConcat(list[..i] + [x], list[i + 1..]);
    SumSizesConcat(list[..i], [x]);
    SumSizesOne(x);
    SumSizesOne(list[i]);
  }

  // The running size is kept up by differences instead of measuring again.
  method StubMiddle(list: seq<Json>, limit: nat) returns (out: seq<Json>)
    ensures out == StubbedFrom(list, 1, limit)
  {
    hide Size, Stub, ListSize;
    var count := |list|;
    var running: int := ListJSONSize(list);
    out := list;
    var i := 1;
    while i < count - 1
      invariant 1 <= i && |out| == count && running == ListSize(out)
      invariant StubbedFrom(list, 1, limit) == StubbedFrom(out, i, limit)
    {
      if running <= limit { break; }
      if out[i].Obj? {
        var before := JsonSize(out[i]);
        var stub := Stubbed(out[i]);
        var after := JsonSize(stub);
        ListSizeUpdate(out, i, stub);
        out := out[i := stub];
        running := running - before + after;
      }
      i := i + 1;
    }
  }

  method Stubbed(msg: Json) returns (stub: Json)
    requires msg.Obj?
    ensures stub == Stub(msg)
  {
    hide StubText, Encode;
    var n := MessageContentBytes(msg);
    stub := msg;
    stub := With(stub, "content", Str(StubText(n)));
    stub := With(stub, "truncated", Bool(true));
  }

  method MessageContentBytes(msg: Json) returns (n: nat)
    ensures n == ContentBytes(msg)
  {
    hide Encode;
    var content := At(msg, "content");
    if content.Null? { return 0; }
    if content.Str? { return |content.text|; }
    n := JsonSize(content);
  }

  method DropMiddle(list: seq<Json>, limit: nat) returns (out: seq<Json>)
    ensures out == if list == [] then [] else DroppedMiddle(list[0], list[1..], limit)
  {
    hide Size, Marker, ListSize, TailCount, Encode;
    if |list| == 0 {
      return list;
    }
    var first := list[0];
    var rest := list[1..];
    while true
      invariant DroppedMiddle(list[0], rest, limit) == DroppedMiddle(first, rest, limit)
      decreases ShrinkMeasure(first)
    {
      hide ShrinkMeasure, Shrunk;
      var base := ListJSONSize([first, Marker(|rest|)]);
      if base <= limit {
        var kept := TailWithin(rest, limit - base);
        return [first, Marker(|rest| - |kept|)] + kept;
      }
      var smaller := ShrinkFirst(first);
      if smaller.None? {
        var alone := ListJSONSize([Marker(|rest| + 1)]);
        if alone <= limit { return [Marker(|rest| + 1)]; }
        return [];
      }
      ShrinkingEnds(first);
      first := smaller.value;
    }
  }

  method ShrinkFirst(msg: Json) returns (r: Option<Json>)
    ensures r == Shrunk(msg)
  {
    hide Encode, TruncatedMessage, Minimal;
    if !msg.Obj? {
      return None;
    }
    var n := MessageContentBytes(msg);
    if n == 0 {
      var minimal := Minimal(msg);
      var a := CanonicalJSON(minimal);
      var b := CanonicalJSON(msg);
      if a == b { return None; }
      return Some(minimal);
    }
    var shrunk, _ := TruncateMessage(msg, n / 2);
    return Some(shrunk);
  }

  method TailWithin(list: seq<Json>, budget: nat) returns (kept: seq<Json>)
    ensures kept == list[|list| - TailCount(list, budget)..]
  {
    hide Size;
    kept := [];
    var left: nat := budget;
    var i := |list| - 1;
    assert list[..|list|] == list;
    while i >= 0
      invariant -1 <= i < |list|
      invariant kept == list[i + 1..]
      invariant TailCount(list, budget) == |list| - 1 - i + TailCount(list[..i + 1], left)
    {
      var n := JsonSize(list[i]);
      assert list[..i + 1][..i] == list[..i];
      if n + 1 > left { break; }
      left := left - n - 1;
      kept := [list[i]] + kept;
      i := i - 1;
    }
  }

  lemma {:induction false} StrippedCallsAppend(a: seq<Json>, x: Json)
    ensures StrippedCalls(a + [x]) == StrippedCalls(a) + [PutArguments(x, "")]
  {
    hide PutArguments;
    if a == [] {
      assert [x][1..] == [] && a + [x] == [x];
    } else {
      assert (a + [x])[1..] == a[1..] + [x];
      StrippedCallsAppend(a[1..], x);
    }
  }

  lemma {:induction false} ShrunkCallsAppend(a: seq<Json>, x: Json, budget: nat)
    ensures ShrunkCalls(a + [x], budget) == ShrunkCalls(a, budget) + [ShrunkCall(x, budget)]
  {
    hide ShrunkCall;
    if a == [] {
      assert [x][1..] == [] && a + [x] == [x];
    } else {
      assert (a + [x])[1..] == a[1..] + [x];
      ShrunkCallsAppend(a[1..], x, budget);
    }
  }

  method ShrinkCall(call: Json, budget: nat) returns (r: Json)
    ensures r == ShrunkCall(call, budget)
  {
    hide Truncated, PutArguments;
    var args := At(At(call, "function"), "arguments");
    if !args.Str? {
      return call;
    }
    var shrunk, _ := TruncateString(args.text, budget);
    return PutArguments(call, shrunk);
  }

  method ShrinkCalls(calls: seq<Json>, budget: nat) returns (r: seq<Json>)
    ensures r == ShrunkCalls(calls, budget)
  {
    hide ShrunkCall;
    r := [];
    var i := 0;
    while i < |calls|
      invariant i <= |calls| && r == ShrunkCalls(calls[..i], budget)
    {
      var c := ShrinkCall(calls[i], budget);
      ShrunkCallsAppend(calls[..i], calls[i], budget);
      assert calls[..i + 1] == calls[..i] + [calls[i]];
      r := r + [c];
      i := i + 1;
    }
    assert calls[..i] == calls;
  }

  method TruncateToolCalls(v: Json, limit: nat) returns (r: Json, cut: bool)
    ensures r == TruncatedToolCalls(v, limit)
    ensures cut <==> v.Arr? && Size(v) > limit
  {
    hide Encode, StrippedCalls, FittedCalls, Size;
    if !v.Arr? {
      return v, false;
    }
    var calls := v.items;
    var size := JsonSize(v);
    if size <= limit {
      return v, false;
    }
    var stripped := StripCalls(calls);
    var overhead := JsonSize(Arr(stripped));
    r := FitCalls(calls, Max(limit - overhead, 0) / Max(|calls|, 1), limit, size);
    return r, true;
  }

  method StripCalls(calls: seq<Json>) returns (stripped: seq<Json>)
    ensures stripped == StrippedCalls(calls)
  {
    hide PutArguments;
    stripped := [];
    var i := 0;
    while i < |calls|
      invariant i <= |calls| && stripped == StrippedCalls(calls[..i])
    {
      StrippedCallsAppend(calls[..i], calls[i]);
      assert calls[..i + 1] == calls[..i] + [calls[i]];
      stripped := stripped + [PutArguments(calls[i], "")];
      i := i + 1;
    }
    assert calls[..i] == calls;
  }

  method FitCalls(calls: seq<Json>, first: nat, limit: nat, size: nat) returns (r: Json)
    requires size == Size(Arr(calls))
    ensures r == FittedCalls(calls, first, limit)
  {
    hide Size, ShrunkCalls, Number;
    var budget := first;
    while budget >= 32
      invariant FittedCalls(calls, first, limit) == FittedCalls(calls, budget, limit)
    {
      var shrunk := ShrinkCalls(calls, budget);
      var n := JsonSize(Arr(shrunk));
      if n <= limit {
        return Arr(shrunk);
      }
      budget := budget / 2;
    }
    return Arr([Obj(map["truncated" := Bool(true), "bytes" := Number(size)])]);
  }

  method TruncateVariables(v: Json, limit: nat, sha: string -> string) returns (r: Json, cut: bool)
    ensures r == TruncatedVariables(v, limit, sha)
    ensures cut <==> Size(v) > limit
  {
    hide Encode, Number;
    var encoded := CanonicalJSON(v);
    if |encoded| <= limit {
      return v, false;
    }
    return Obj(map["truncated" := Bool(true), "sha256" := Str(sha(encoded)), "bytes" := Number(|encoded|)]), true;
  }

  method TruncateInput(v: Json, maxBytes: nat, sha: string -> string) returns (input: Json)
    ensures input == TruncatedInput(v, maxBytes, sha)
  {
    hide TruncatedMessages, MessagesCut, Truncated, TruncatedVariables, Size;
    if !v.Obj? {
      return v;
    }
    var perMessage := Max(maxBytes / 8, 64);
    var varLimit := Max(maxBytes / 4, 64);
    var truncated := false;
    input := v;
    var raw := At(input, "messages");
    if raw.Arr? {
      var msgs, cut := TruncateMessages(raw.items, perMessage, maxBytes);
      truncated := truncated || cut;
      input := With(input, "messages", Arr(msgs));
    }
    raw := At(input, "text");
    if raw.Str? {
      var out, cut := TruncateString(raw.text, maxBytes);
      truncated := truncated || cut;
      input := With(input, "text", Str(out));
    }
    raw := At(input, "variables");
    if !raw.Null? {
      var vars, cut := TruncateVariables(raw, varLimit, sha);
      truncated := truncated || cut;
      input := With(input, "variables", vars);
    }
    if truncated {
      input := With(input, "truncated", Bool(true));
    }
  }

  method TruncateOutput(v: Json, maxBytes: nat) returns (output: Json)
    ensures output == TruncatedOutput(v, maxBytes)
  {
    hide Truncated, TruncatedToolCalls, Size;
    if !v.Obj? {
      return v;
    }
    var limit := Max(maxBytes / 4, 64);
    var truncated := false;
    output := v;
    var raw := At(output, "content");
    if raw.Str? {
      var out, cut := TruncateString(raw.text, limit);
      truncated := truncated || cut;
      output := With(output, "content", Str(out));
    }
    raw := At(output, "tool_calls");
    if !raw.Null? {
      var calls, cut := TruncateToolCalls(raw, limit);
      truncated := truncated || cut;
      output := With(output, "tool_calls", calls);
    }
    if truncated {
      output := With(output, "truncated", Bool(true));
    }
  }

  method TruncatePayload(gen0: map<string, Json>, maxBytes: nat, sha: string -> string) returns (gen: map<string, Json>)
    ensures gen == TruncatedPayload(gen0, maxBytes, sha)
  {
    hide TruncatedInput, TruncatedOutput;
    gen := gen0;
    if "input" in gen {
      var out := TruncateInput(gen["input"], maxBytes, sha);
      if out.Null? { gen := gen - {"input"}; } else { gen := gen["input" := out]; }
    }
    if "output" in gen {
      var out := TruncateOutput(gen["output"], maxBytes);
      if out.Null? { gen := gen - {"output"}; } else { gen := gen["output" := out]; }
    }
  }
}
