/**
 The payload policy of payload.go as values: what each function of the policy
 makes of a record.  PayloadMethods.dfy holds the loops that compute it.

 sha is the hex digest of SHA-256, a parameter.
 */
module Payload {
  import opened Options
  import opened CanonicalJson
  import opened Decimals
  import opened JsonSizes
  import opened Truncation

  const ERROR_MESSAGE_MAX: nat := 2048

  function Max(a: int, b: int): int {
    if a > b then a else b
  }

  function Number(n: nat): Json {
    Num(Decimal(n))
  }

  function With(j: Json, key: string, value: Json): Json
    requires j.Obj?
  {
    Obj(j.fields[key := value])
  }

  // A key's value; an absent key and null are alike wherever this is used.
  function At(j: Json, key: string): Json {
    if j.Obj? && key in j.fields then j.fields[key] else Null
  }

  /// One message

  function TruncatedMessage(v: Json, limit: nat): Json {
    var content := At(v, "content");
    if content.Null? then v
    else if content.Str? then
      var cut := With(v, "content", Str(Truncated(content.text, limit)));
      if |content.text| > limit then With(cut, "truncated", Bool(true)) else cut
    else if Size(content) <= limit then v
    else With(With(v, "content", Str(Truncated(Encode(content), limit))), "truncated", Bool(true))
  }

  predicate MessageCut(v: Json, limit: nat) {
    ContentBytes(v) > limit
  }

  function ContentBytes(v: Json): nat {
    var content := At(v, "content");
    if content.Null? then 0 else if content.Str? then |content.text| else Size(content)
  }

  /// Message lists

  function TruncatedEach(list: seq<Json>, limit: nat): (r: seq<Json>)
    ensures |r| == |list|
  {
    if list == [] then [] else [TruncatedMessage(list[0], limit)] + TruncatedEach(list[1..], limit)
  }

  function StubText(n: nat): string {
    ELLIPSIS + "[truncated " + Decimal(n) + " bytes]" + ELLIPSIS
  }

  function Stub(msg: Json): Json
    requires msg.Obj?
  {
    With(With(msg, "content", Str(StubText(ContentBytes(msg)))), "truncated", Bool(true))
  }

  // Middle messages are emptied from the front until the list fits.
  function StubbedFrom(list: seq<Json>, i: nat, limit: nat): (r: seq<Json>)
    ensures |r| == |list|
    decreases |list| - i
  {
    if i + 1 >= |list| || ListSize(list) <= limit then list
    else if list[i].Obj? then StubbedFrom(list[i := Stub(list[i])], i + 1, limit)
    else StubbedFrom(list, i + 1, limit)
  }

  function MarkerText(n: nat): string {
    ELLIPSIS + "[" + Decimal(n) + " messages truncated]" + ELLIPSIS
  }

  function Marker(n: nat): Json {
    Obj(map["role" := Str("system"), "content" := Str(MarkerText(n)), "truncated" := Bool(true)])
  }

  // How many messages at the end of the list fit the budget.
  function TailCount(list: seq<Json>, budget: nat): (n: nat)
    ensures n <= |list|
  {
    if list == [] || Size(list[|list| - 1]) + 1 > budget then 0
    else 1 + TailCount(list[..|list| - 1], budget - Size(list[|list| - 1]) - 1)
  }

  function Minimal(msg: Json): Json {
    if msg.Obj? && "role" in msg.fields
    then Obj(map["truncated" := Bool(true), "role" := msg.fields["role"]])
    else Obj(map["truncated" := Bool(true)])
  }

  function Shrunk(msg: Json): Option<Json> {
    if !msg.Obj? then None
    else if ContentBytes(msg) == 0 then
      if Encode(Minimal(msg)) == Encode(msg) then None else Some(Minimal(msg))
    else Some(TruncatedMessage(msg, ContentBytes(msg) / 2))
  }

  // Falls with every shrinking: the content halves, and once there is none only
  // the step to the minimal message is left.
  function ShrinkMeasure(msg: Json): nat {
    2 * ContentBytes(msg) + if Encode(Minimal(msg)) == Encode(msg) then 0 else 1
  }

  lemma ShrinkingEnds(msg: Json)
    requires Shrunk(msg).Some?
    ensures ShrinkMeasure(Shrunk(msg).value) < ShrinkMeasure(msg)
  {
    hide Encode;
    if ContentBytes(msg) == 0 {
      assert Minimal(Minimal(msg)) == Minimal(msg);
    } else {
      HalvedMessage(msg);
    }
  }

  lemma HalvedMessage(msg: Json)
    requires msg.Obj? && ContentBytes(msg) > 0
    ensures ContentBytes(TruncatedMessage(msg, ContentBytes(msg) / 2)) <= ContentBytes(msg) / 2
  {
    hide Encode, Truncated;
    var content, half := At(msg, "content"), ContentBytes(msg) / 2;
    if content.Str? {
      TruncatedFits(content.text, half);
    } else {
      TruncatedFits(Encode(content), half);
    }
  }

  function DroppedMiddle(first: Json, rest: seq<Json>, limit: nat): seq<Json>
    decreases ShrinkMeasure(first)
  {
    var base := ListSize([first, Marker(|rest|)]);
    if base <= limit then
      var n := TailCount(rest, limit - base);
      [first, Marker(|rest| - n)] + rest[|rest| - n..]
    else
      match Shrunk(first)
      case Some(smaller) =>
        ShrinkingEnds(first);
        DroppedMiddle(smaller, rest, limit)
      case None =>
        if ListSize([Marker(|rest| + 1)]) <= limit then [Marker(|rest| + 1)] else []
  }

  function Fitted(list: seq<Json>, limit: nat): seq<Json> {
    var stubbed := StubbedFrom(list, 1, limit);
    if ListSize(stubbed) <= limit then stubbed
    else if list == [] then list
    else DroppedMiddle(list[0], list[1..], limit)
  }

  function TruncatedMessages(list: seq<Json>, perMessage: nat, limit: nat): seq<Json> {
    var each := TruncatedEach(list, perMessage);
    if ListSize(each) <= limit then each else Fitted(each, limit)
  }

  predicate MessagesCut(list: seq<Json>, perMessage: nat, limit: nat) {
    || (exists i :: 0 <= i < |list| && MessageCut(list[i], perMessage))
    || ListSize(TruncatedEach(list, perMessage)) > limit
  }

  /// Tool calls and variables

  function PutArguments(call: Json, args: string): Json {
    var fn := At(call, "function");
    if At(fn, "arguments").Str? then With(call, "function", With(fn, "arguments", Str(args))) else call
  }

  function ShrunkCall(call: Json, budget: nat): Json {
    var args := At(At(call, "function"), "arguments");
    if args.Str? then PutArguments(call, Truncated(args.text, budget)) else call
  }

  function StrippedCalls(calls: seq<Json>): (r: seq<Json>)
    ensures |r| == |calls|
  {
    if calls == [] then [] else [PutArguments(calls[0], "")] + StrippedCalls(calls[1..])
  }

  function ShrunkCalls(calls: seq<Json>, budget: nat): (r: seq<Json>)
    ensures |r| == |calls|
  {
    if calls == [] then [] else [ShrunkCall(calls[0], budget)] + ShrunkCalls(calls[1..], budget)
  }

  // Halves the argument budget until the calls fit; below 32 bytes of it nothing
  // is kept of them but their size.
  function FittedCalls(calls: seq<Json>, budget: nat, limit: nat): Json
    decreases budget
  {
    if budget < 32 then Arr([Obj(map["truncated" := Bool(true), "bytes" := Number(Size(Arr(calls)))])])
    else if Size(Arr(ShrunkCalls(calls, budget))) <= limit then Arr(ShrunkCalls(calls, budget))
    else FittedCalls(calls, budget / 2, limit)
  }

  function TruncatedToolCalls(v: Json, limit: nat): Json {
    if !v.Arr? || Size(v) <= limit then v
    else
      var overhead := Size(Arr(StrippedCalls(v.items)));
      FittedCalls(v.items, Max(limit - overhead, 0) / Max(|v.items|, 1), limit)
  }

  function Digest(v: Json, sha: string -> string): Json {
    Obj(map["truncated" := Bool(true), "sha256" := Str(sha(Encode(v))), "bytes" := Number(Size(v))])
  }

  function TruncatedVariables(v: Json, limit: nat, sha: string -> string): Json {
    if Size(v) <= limit then v else Digest(v, sha)
  }

  /// Whole payloads

  function PerMessage(maxBytes: nat): nat {
    Max(maxBytes / 8, 64)
  }

  function Quarter(maxBytes: nat): nat {
    Max(maxBytes / 4, 64)
  }

  function InputMessages(v: Json, maxBytes: nat): Json
    requires v.Obj?
  {
    var list := At(v, "messages");
    if list.Arr? then With(v, "messages", Arr(TruncatedMessages(list.items, PerMessage(maxBytes), maxBytes))) else v
  }

  function InputText(v: Json, maxBytes: nat): Json
    requires v.Obj?
  {
    var text := At(v, "text");
    if text.Str? then With(v, "text", Str(Truncated(text.text, maxBytes))) else v
  }

  function InputVariables(v: Json, maxBytes: nat, sha: string -> string): Json
    requires v.Obj?
  {
    var vars := At(v, "variables");
    if vars.Null? then v else With(v, "variables", TruncatedVariables(vars, Quarter(maxBytes), sha))
  }

  predicate InputCut(v: Json, maxBytes: nat) {
    || (At(v, "messages").Arr? && MessagesCut(At(v, "messages").items, PerMessage(maxBytes), maxBytes))
    || (At(v, "text").Str? && |At(v, "text").text| > maxBytes)
    || (!At(v, "variables").Null? && Size(At(v, "variables")) > Quarter(maxBytes))
  }

  function MarkIf(v: Json, cut: bool): Json
    requires v.Obj?
  {
    if cut then With(v, "truncated", Bool(true)) else v
  }

  function TruncatedInput(v: Json, maxBytes: nat, sha: string -> string): Json {
    if !v.Obj? then v
    else MarkIf(InputVariables(InputText(InputMessages(v, maxBytes), maxBytes), maxBytes, sha), InputCut(v, maxBytes))
  }

  function OutputContent(v: Json, maxBytes: nat): Json
    requires v.Obj?
  {
    var content := At(v, "content");
    if content.Str? then With(v, "content", Str(Truncated(content.text, Quarter(maxBytes)))) else v
  }

  function OutputCalls(v: Json, maxBytes: nat): Json
    requires v.Obj?
  {
    var calls := At(v, "tool_calls");
    if calls.Null? then v else With(v, "tool_calls", TruncatedToolCalls(calls, Quarter(maxBytes)))
  }

  predicate OutputCut(v: Json, maxBytes: nat) {
    || (At(v, "content").Str? && |At(v, "content").text| > Quarter(maxBytes))
    || (At(v, "tool_calls").Arr? && Size(At(v, "tool_calls")) > Quarter(maxBytes))
  }

  function TruncatedOutput(v: Json, maxBytes: nat): Json {
    if !v.Obj? then v
    else MarkIf(OutputCalls(OutputContent(v, maxBytes), maxBytes), OutputCut(v, maxBytes))
  }

  function Replaced(gen: map<string, Json>, key: string, value: Json): map<string, Json> {
    if value.Null? then gen - {key} else gen[key := value]
  }

  function TruncatedPayload(gen: map<string, Json>, maxBytes: nat, sha: string -> string): map<string, Json> {
    var a := if "input" in gen then Replaced(gen, "input", TruncatedInput(gen["input"], maxBytes, sha)) else gen;
    if "output" in a then Replaced(a, "output", TruncatedOutput(a["output"], maxBytes)) else a
  }

  function Wrapped(gen: map<string, Json>): map<string, Json> {
    var a := if "input" in gen && gen["input"].Str? then gen["input" := Obj(map["text" := gen["input"]])] else gen;
    if "output" in a && a["output"].Str? then a["output" := Obj(map["content" := a["output"]])] else a
  }

  function CappedError(gen: map<string, Json>): map<string, Json> {
    var message := At(At(Obj(gen), "error"), "message");
    if message.Str? && |message.text| > ERROR_MESSAGE_MAX
    then gen["error" := With(gen["error"], "message", Str(Truncated(message.text, ERROR_MESSAGE_MAX)))]
    else gen
  }

  // Whether a record keeps its payload: errors and cut-off answers always, the
  // rest by a bucket of the record id below the sampling threshold.
  predicate Kept(gen: map<string, Json>, threshold: int, bucket: Json -> nat) {
    || At(Obj(gen), "status") == Str("error")
    || At(Obj(gen), "stop_kind") == Str("length")
    || bucket(At(Obj(gen), "id")) < threshold
  }

  // The policy in full mode, without hashing the end user and without a hook.
  function FullPolicy(gen: map<string, Json>, maxBytes: nat, threshold: int, bucket: Json -> nat, sha: string -> string)
    : map<string, Json>
  {
    CappedError(
      if Kept(gen, threshold, bucket) then TruncatedPayload(Wrapped(gen), maxBytes, sha)
      else gen - {"input", "output"})
  }
}
