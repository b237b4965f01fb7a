/** What the payload policy leaves of a record, field by field (payload.go). */
module PayloadMeaning {
  import opened Options
  import opened Utf8
  import opened CanonicalJson
  import opened Decimals
  import opened Truncation
  import opened Payload
  import opened MessageFitting
  import JsonSizes

  // Three dots, in UTF-8.
  const DOTS := "\U{00E2}\U{0080}\U{00A6}"

  /// One string

  // The end of the text before k once a partial character is cut off: at most
  // three bytes back, or nothing when that does not do.
  ghost predicate HeadEnds(s: string, k: nat, j: nat) {
    && j <= k <= |s| && Valid(s[..j]) && (j == 0 || k - 3 <= j)
    && forall i :: j < i <= k && k - 3 <= i ==> !Valid(s[..i])
  }

  // The start of the text from k on once continuation bytes are cut off.
  ghost predicate TailStarts(s: string, k: nat, j: nat) {
    && k <= j <= |s| && (j < |s| ==> !(0x80 <= s[j] as int < 0xC0))
    && forall i :: k <= i < j ==> 0x80 <= s[i] as int < 0xC0
  }

  // The cut text: as it is when it fits; else a head, how much went, and a tail,
  // six tenths of what the marker leaves for the head; or the head alone.
  ghost predicate IsCut(s: string, limit: nat, r: string) {
    if |s| <= limit then r == s
    else
      var marker := "\n" + DOTS + "[truncated " + Decimal(|s| - limit) + " bytes]" + DOTS + "\n";
      if |marker| > limit then exists h: nat :: HeadEnds(s, limit, h) && r == s[..h]
      else
        var head := (limit - |marker|) * 6 / 10;
        var tail := limit - |marker| - head;
        exists h: nat, t: nat :: HeadEnds(s, head, h) && TailStarts(s, |s| - tail, t) && r == s[..h] + marker + s[t..]
  }

  lemma TruncatedMeans(s: string, limit: nat)
    ensures IsCut(s, limit, Truncated(s, limit))
  {
    hide LastBoundary, SkipContinuations, Valid, Decimal, HeadEnds, TailStarts;
    if |s| > limit {
      var marker := CutMarker(|s| - limit);
      hide CutMarker;
      if |marker| > limit {
        HeadFound(s, limit);
      } else {
        var head := (limit - |marker|) * 6 / 10;
        HeadFound(s, head);
        TailFound(s, |s| - (limit - |marker| - head));
      }
    }
  }

  lemma HeadFound(s: string, k: nat)
    requires k <= |s|
    ensures HeadEnds(s, k, LastBoundary(s, k, 3))
  {
    hide RuneSize;
    BoundaryFound(s, k, 3);
  }

  lemma {:induction false} BoundaryFound(s: string, k: nat, tries: nat)
    requires k <= |s|
    ensures var j := LastBoundary(s, k, tries);
      && Valid(s[..j]) && (j == 0 || k - tries <= j) && forall i :: j < i <= k && k - tries <= i ==> !Valid(s[..i])
  {
    hide RuneSize;
    assert s[..0] == "" && Valid("");
    if !Valid(s[..k]) && tries > 0 {
      BoundaryFound(s, k - 1, tries - 1);
    }
  }

  lemma {:induction false} TailFound(s: string, k: nat)
    requires k <= |s|
    ensures TailStarts(s, k, SkipContinuations(s, k))
    decreases |s| - k
  {
    if Continuation(ByteAt(s, k)) { TailFound(s, k + 1); }
  }

  /// One message

  // What a message says, in bytes.
  function Bytes(msg: Json): nat {
    if !msg.Obj? || "content" !in msg.fields || msg.fields["content"].Null? then 0
    else if msg.fields["content"].Str? then |msg.fields["content"].text|
    else |Encode(msg.fields["content"])|
  }

  // The same object but for these fields.
  ghost predicate SameBut(a: map<string, Json>, b: map<string, Json>, keys: set<string>) {
    forall k :: k !in keys ==> (k in a <==> k in b) && (k in a ==> a[k] == b[k])
  }

  // The message cut to so many bytes of content: nothing else of it changes but
  // that it says so.
  ghost predicate IsCutMessage(msg: Json, limit: nat, r: Json) {
    if !msg.Obj? || "content" !in msg.fields || msg.fields["content"].Null? then r == msg
    else if !msg.fields["content"].Str? && Bytes(msg) <= limit then r == msg
    else
      && r.Obj? && SameBut(msg.fields, r.fields, {"content", "truncated"})
      && "content" in r.fields && r.fields["content"].Str?
      && (var content := msg.fields["content"];
          IsCut(if content.Str? then content.text else Encode(content), limit, r.fields["content"].text))
      && (if Bytes(msg) > limit then "truncated" in r.fields && r.fields["truncated"] == Bool(true)
          else SameBut(msg.fields, r.fields, {"content"}))
  }

  lemma CutMessageMeans(msg: Json, limit: nat)
    ensures IsCutMessage(msg, limit, TruncatedMessage(msg, limit))
  {
    hide Encode, Truncated, IsCut;
    KeysDiffer();
    var content := At(msg, "content");
    TruncatedMeans(if content.Str? then content.text else Encode(content), limit);
  }

  lemma KeysDiffer()
    ensures "content" != "truncated" && "content" != "role" && "truncated" != "role"
  {
    assert "content"[0] == 'c' && "truncated"[0] == 't' && "role"[0] == 'r';
  }

  lemma BytesAre(msg: Json)
    ensures ContentBytes(msg) == Bytes(msg)
  {
    hide Encode;
  }

  // The message emptied: its content says how much there was, and every other
  // field, its role among them, is still there.
  ghost predicate IsStub(msg: Json, r: Json) {
    && msg.Obj? && r.Obj? && r.fields.Keys == msg.fields.Keys + {"content", "truncated"}
    && SameBut(msg.fields, r.fields, {"content", "truncated"})
    && r.fields["truncated"] == Bool(true)
    && r.fields["content"] == Str(DOTS + "[truncated " + Decimal(Bytes(msg)) + " bytes]" + DOTS)
  }

  lemma StubMeans(msg: Json)
    requires msg.Obj?
    ensures IsStub(msg, Stub(msg))
  {
    BytesAre(msg);
    KeysDiffer();
    hide Bytes, ContentBytes, Decimal;
  }

  // The message that stands for n others.
  ghost predicate IsMarker(r: Json, n: nat) {
    r == Obj(map["role" := Str("system"), "truncated" := Bool(true),
                 "content" := Str(DOTS + "[" + Decimal(n) + " messages truncated]" + DOTS)])
  }

  lemma MarkerMeans(n: nat)
    ensures IsMarker(Marker(n), n)
  {
    hide Decimal;
    KeysDiffer();
    var r := Marker(n).fields;
    assert r == map["role" := Str("system"), "truncated" := Bool(true), "content" := Str(MarkerText(n))];
  }

  // One shrinking of the first message: half its content, or once there is none
  // its role and that it is truncated, unless that is all it is.
  ghost predicate IsShrunk(msg: Json, r: Option<Json>) {
    var least := if msg.Obj? && "role" in msg.fields
      then Obj(map["truncated" := Bool(true), "role" := msg.fields["role"]]) else Obj(map["truncated" := Bool(true)]);
    if !msg.Obj? then r == None
    else if Bytes(msg) == 0 then r == if Encode(least) == Encode(msg) then None else Some(least)
    else r.Some? && IsCutMessage(msg, Bytes(msg) / 2, r.value)
  }

  lemma ShrunkMeans(msg: Json)
    ensures IsShrunk(msg, Shrunk(msg))
  {
    BytesAre(msg);
    if msg.Obj? { CutMessageMeans(msg, Bytes(msg) / 2); }
    hide Bytes, ContentBytes, Encode, TruncatedMessage, IsCutMessage;
  }

  /// Message lists

  // So many shrinkings of the first message.
  ghost predicate Shrinks(msg: Json, times: nat, r: Json)
    decreases times
  {
    if times == 0 then r == msg else exists m :: IsShrunk(msg, Some(m)) && Shrinks(m, times - 1, r)
  }

  lemma {:induction false} ShrinksBy(msg: Json, times: nat)
    requires ShrunkTimes(msg, times).Some?
    ensures Shrinks(msg, times, ShrunkTimes(msg, times).value)
    decreases times
  {
    hide IsShrunk, Shrunk;
    if times > 0 {
      ShrunkMeans(msg);
      ShrinksBy(Shrunk(msg).value, times - 1);
    }
  }

  // Each message cut to its own cap.
  ghost predicate EachCut(list: seq<Json>, limit: nat, r: seq<Json>) {
    |r| == |list| && forall i :: 0 <= i < |list| ==> IsCutMessage(list[i], limit, r[i])
  }

  lemma {:induction false} EachMeans(list: seq<Json>, limit: nat)
    ensures EachCut(list, limit, TruncatedEach(list, limit))
  {
    hide TruncatedMessage, IsCutMessage;
    if list != [] {
      CutMessageMeans(list[0], limit);
      EachMeans(list[1..], limit);
      assert forall i :: 0 < i < |list| ==> list[i] == list[1..][i - 1];
    }
  }

  // Some messages between the first and the last are emptied.
  ghost predicate MiddleStubbed(list: seq<Json>, r: seq<Json>) {
    && |r| == |list|
    && forall i :: 0 <= i < |list| ==> r[i] == list[i] || (0 < i < |list| - 1 && IsStub(list[i], r[i]))
  }

  lemma MiddleMeans(list: seq<Json>, limit: nat)
    ensures MiddleStubbed(list, StubbedFrom(list, 1, limit))
  {
    hide Stub, IsStub, StubbedFrom;
    StubbingKeeps(list, 1, limit);
    var r := StubbedFrom(list, 1, limit);
    forall i | 0 <= i < |list| && r[i] != list[i] ensures 0 < i < |list| - 1 && IsStub(list[i], r[i]) {
      StubMeans(list[i]);
    }
  }

  // The first message shrunk so many times, a marker that counts those left out,
  // and the rest of the list; or a marker for all; or nothing.
  ghost predicate MiddleGone(list: seq<Json>, r: seq<Json>) {
    || r == []
    || (|r| == 1 && IsMarker(r[0], |list|))
    || exists kept: nat, times: nat :: MiddleMarked(list, r, kept, times)
  }

  ghost predicate MiddleMarked(list: seq<Json>, r: seq<Json>, kept: nat, times: nat) {
    && kept < |list| && |r| == 2 + kept && Shrinks(list[0], times, r[0])
    && IsMarker(r[1], |list| - 1 - kept) && r[2..] == list[|list| - kept..]
  }

  lemma GoneMeans(list: seq<Json>, limit: nat)
    requires list != []
    ensures MiddleGone(list, DroppedMiddle(list[0], list[1..], limit))
  {
    hide DroppedMiddle, IsMarker, MiddleMarked, MarkedWith, Marker, FitsShrunk, JsonSizes.ListSize;
    DropMiddleOutcome(list, limit);
    var r := DroppedMiddle(list[0], list[1..], limit);
    if FitsShrunk(list[0], |list| - 1, limit) {
      var times: nat, kept: nat :| MarkedWith(list, r, limit, times, kept);
      MarkedMeans(list, r, limit, times, kept);
    } else {
      MarkerMeans(|list|);
    }
  }

  lemma MarkedMeans(list: seq<Json>, r: seq<Json>, limit: nat, times: nat, kept: nat)
    requires list != [] && MarkedWith(list, r, limit, times, kept)
    ensures MiddleMarked(list, r, kept, times)
  {
    hide IsMarker, Shrinks, Marker, FirstFits, ShrunkTimes, JsonSizes.ListSize, JsonSizes.SumSizes;
    FirstFitsIsSome(list[0], |list| - 1, limit, times);
    ShrinksBy(list[0], times);
    MarkerMeans(|list| - 1 - kept);
  }

  lemma FirstFitsIsSome(first: Json, n: nat, limit: nat, k: nat)
    requires FirstFits(first, n, limit, k)
    ensures ShrunkTimes(first, k).Some?
  {
  }

  // Whatever the caps are, the messages left are the cut ones, with some in the
  // middle emptied or gone.
  ghost predicate MessagesAre(list: seq<Json>, perMessage: nat, r: seq<Json>) {
    exists each :: EachCut(list, perMessage, each) && (r == each || MiddleStubbed(each, r) || MiddleGone(each, r))
  }

  lemma MessagesMean(list: seq<Json>, perMessage: nat, limit: nat)
    ensures MessagesAre(list, perMessage, TruncatedMessages(list, perMessage, limit))
  {
    hide EachCut, MiddleStubbed, MiddleGone, TruncatedEach, StubbedFrom, DroppedMiddle;
    var each := TruncatedEach(list, perMessage);
    EachMeans(list, perMessage);
    MiddleMeans(each, limit);
    if each != [] { GoneMeans(each, limit); }
  }

  /// Tool calls and variables

  // The call with its arguments cut, or as it is when it has none.
  ghost predicate IsCutCall(call: Json, budget: nat, r: Json) {
    if call.Obj? && "function" in call.fields && call.fields["function"].Obj?
      && "arguments" in call.fields["function"].fields && call.fields["function"].fields["arguments"].Str? then
      var fn := call.fields["function"].fields;
      && r.Obj? && SameBut(call.fields, r.fields, {"function"}) && "function" in r.fields && r.fields["function"].Obj?
      && SameBut(fn, r.fields["function"].fields, {"arguments"}) && "arguments" in r.fields["function"].fields
      && r.fields["function"].fields["arguments"].Str?
      && IsCut(fn["arguments"].text, budget, r.fields["function"].fields["arguments"].text)
    else r == call
  }

  lemma CutCallMeans(call: Json, budget: nat)
    ensures IsCutCall(call, budget, ShrunkCall(call, budget))
  {
    hide Truncated, IsCut;
    var args := At(At(call, "function"), "arguments");
    if args.Str? { TruncatedMeans(args.text, budget); }
  }

  ghost predicate CallsCut(calls: seq<Json>, budget: nat, r: seq<Json>) {
    |r| == |calls| && forall i :: 0 <= i < |calls| ==> IsCutCall(calls[i], budget, r[i])
  }

  lemma {:induction false} CallsMean(calls: seq<Json>, budget: nat)
    ensures CallsCut(calls, budget, ShrunkCalls(calls, budget))
  {
    hide ShrunkCall, IsCutCall;
    if calls != [] {
      CutCallMeans(calls[0], budget);
      CallsMean(calls[1..], budget);
      assert forall i :: 0 < i < |calls| ==> calls[i] == calls[1..][i - 1];
    }
  }

  // The call with no arguments, or as it is when it has none.
  ghost predicate IsEmptied(call: Json, r: Json) {
    if call.Obj? && "function" in call.fields && call.fields["function"].Obj?
      && "arguments" in call.fields["function"].fields && call.fields["function"].fields["arguments"].Str? then
      r == Obj(call.fields["function" := Obj(call.fields["function"].fields["arguments" := Str("")])])
    else r == call
  }

  ghost predicate CallsEmptied(calls: seq<Json>, r: seq<Json>) {
    |r| == |calls| && forall i :: 0 <= i < |calls| ==> IsEmptied(calls[i], r[i])
  }

  lemma {:induction false} EmptiedMeans(calls: seq<Json>)
    ensures CallsEmptied(calls, StrippedCalls(calls))
  {
    if calls != [] { EmptiedMeans(calls[1..]); }
  }

  function Halved(budget: nat, k: nat): nat {
    if k == 0 then budget else Halved(budget, k - 1) / 2
  }

  lemma {:induction false} HalvedFirst(budget: nat, k: nat)
    ensures Halved(budget, k + 1) == Halved(budget / 2, k)
  {
    if k > 0 { HalvedFirst(budget, k - 1); }
  }

  // The calls are over the limit with their arguments cut to the budget.
  ghost predicate TooLong(calls: seq<Json>, budget: nat, limit: nat) {
    exists c: seq<Json> :: CallsCut(calls, budget, c) && |Encode(Arr(c))| > limit
  }

  // Cut to the budget halved k times they fit, and cut to any earlier one not.
  ghost predicate FitAfter(calls: seq<Json>, budget: nat, k: nat, limit: nat, r: seq<Json>) {
    && Halved(budget, k) >= 32 && CallsCut(calls, Halved(budget, k), r) && |Encode(Arr(r))| <= limit
    && forall j :: 0 <= j < k ==> TooLong(calls, Halved(budget, j), limit)
  }

  ghost predicate NeverFit(calls: seq<Json>, budget: nat, limit: nat) {
    forall k :: 0 <= k && Halved(budget, k) >= 32 ==> TooLong(calls, Halved(budget, k), limit)
  }

  ghost predicate CallsFitted(calls: seq<Json>, budget: nat, limit: nat, r: Json) {
    r.Arr? && ((exists k: nat :: FitAfter(calls, budget, k, limit, r.items)) ||
      (NeverFit(calls, budget, limit)
        && r.items == [Obj(map["truncated" := Bool(true), "bytes" := Num(Decimal(|Encode(Arr(calls))|))])]))
  }

  // What each call may take of the limit once all arguments are gone.
  ghost predicate Share(calls: seq<Json>, limit: nat, budget: nat) {
    exists bare: seq<Json> :: CallsEmptied(calls, bare)
      && budget == (if limit > |Encode(Arr(bare))| then limit - |Encode(Arr(bare))| else 0)
        / (if calls == [] then 1 else |calls|)
  }

  // Tool calls within their cap are left alone.  Over it their arguments are cut
  // alike, to the first of their share, its half and so on that makes them fit;
  // when that is less than 32 bytes only their size is kept.
  lemma ToolCallsMean(v: Json, limit: nat)
    ensures var r := TruncatedToolCalls(v, limit);
      if !v.Arr? || |Encode(v)| <= limit then r == v
      else exists budget: nat :: Share(v.items, limit, budget) && CallsFitted(v.items, budget, limit, r)
  {
    hide Encode, CallsEmptied, CallsFitted, FittedCalls, StrippedCalls;
    if v.Arr? && |Encode(v)| > limit {
      var bare := StrippedCalls(v.items);
      EmptiedMeans(v.items);
      var budget: nat := Max(limit - Size(Arr(bare)), 0) / Max(|v.items|, 1);
      assert Share(v.items, limit, budget);
      FittedMean(v.items, budget, limit);
    }
  }

  lemma {:induction false} FittedMean(calls: seq<Json>, budget: nat, limit: nat)
    ensures CallsFitted(calls, budget, limit, FittedCalls(calls, budget, limit))
    decreases budget
  {
    hide Encode, CallsCut, ShrunkCalls, Decimal, Halved, TooLong;
    HalvedIs(budget);
    if budget < 32 {
      assert NeverFit(calls, budget, limit);
    } else {
      CallsMean(calls, budget);
      var c := ShrunkCalls(calls, budget);
      if Size(Arr(c)) <= limit {
        assert FitAfter(calls, budget, 0, limit, c);
      } else {
        assert TooLong(calls, budget, limit) by { IsTooLong(calls, budget, limit, c); }
        FittedMean(calls, budget / 2, limit);
        NextBudget(calls, budget, limit, FittedCalls(calls, budget / 2, limit));
      }
    }
  }

  lemma IsTooLong(calls: seq<Json>, budget: nat, limit: nat, c: seq<Json>)
    requires CallsCut(calls, budget, c) && |Encode(Arr(c))| > limit
    ensures TooLong(calls, budget, limit)
  {
    hide Encode, CallsCut;
  }

  lemma {:induction false} HalvedIs(budget: nat)
    ensures Halved(budget, 0) == budget && (forall k :: 0 <= k ==> Halved(budget, k) <= budget)
  {
    forall k | 0 <= k ensures Halved(budget, k) <= budget { HalvedFalls(budget, k); }
  }

  lemma {:induction false} HalvedFalls(budget: nat, k: nat)
    ensures Halved(budget, k) <= budget
  {
    if k > 0 { HalvedFalls(budget, k - 1); }
  }

  lemma NextBudget(calls: seq<Json>, budget: nat, limit: nat, r: Json)
    requires TooLong(calls, budget, limit) && CallsFitted(calls, budget / 2, limit, r)
    ensures CallsFitted(calls, budget, limit, r)
  {
    hide Encode, CallsCut, TooLong, Decimal;
    if k: nat :| FitAfter(calls, budget / 2, k, limit, r.items) {
      forall j | 0 <= j < k + 1 ensures TooLong(calls, Halved(budget, j), limit) {
        if j > 0 { HalvedFirst(budget, j - 1); }
      }
      HalvedFirst(budget, k);
      assert FitAfter(calls, budget, k + 1, limit, r.items);
    } else {
      forall k | 0 <= k && Halved(budget, k) >= 32 ensures TooLong(calls, Halved(budget, k), limit) {
        if k > 0 { HalvedFirst(budget, k - 1); }
      }
    }
  }

  // Variables are kept whole or replaced by their size and digest.
  lemma VariablesMean(v: Json, limit: nat, sha: string -> string)
    ensures TruncatedVariables(v, limit, sha) ==
      if |Encode(v)| <= limit then v
      else Obj(map["truncated" := Bool(true), "sha256" := Str(sha(Encode(v))), "bytes" := Num(Decimal(|Encode(v)|))])
  {
    hide Encode, Decimal;
  }

  /// Whole payloads

  // An eighth of max_bytes for a message, a quarter for variables, content and
  // tool calls, 64 at least; a field that is not there or of another kind stays.
  lemma InputMeans(v: Json, maxBytes: nat, sha: string -> string)
    ensures var r := TruncatedInput(v, maxBytes, sha);
      var eighth, quarter := if maxBytes >= 512 then maxBytes / 8 else 64, if maxBytes >= 256 then maxBytes / 4 else 64;
      if !v.Obj? then r == v
      else
        && r.Obj? && SameBut(v.fields, r.fields, {"messages", "text", "variables", "truncated"})
        && At(r, "messages") == (if At(v, "messages").Arr?
             then Arr(TruncatedMessages(At(v, "messages").items, eighth, maxBytes)) else At(v, "messages"))
        && At(r, "text") == (if At(v, "text").Str? then Str(Truncated(At(v, "text").text, maxBytes)) else At(v, "text"))
        && At(r, "variables") == (if At(v, "variables").Null? then Null
             else TruncatedVariables(At(v, "variables"), quarter, sha))
        && (r.fields.Keys - {"truncated"} == v.fields.Keys - {"truncated"})
        && At(r, "truncated") == (if InputLosses(v, eighth, quarter, maxBytes) then Bool(true) else At(v, "truncated"))
  {
    hide TruncatedMessages, Truncated, TruncatedVariables, InputCut, InputLosses, InputMessages, InputText;
    hide InputVariables;
    InputLossesAre(v, maxBytes);
    if v.Obj? {
      InputKeysDiffer();
      MessagesStep(v, maxBytes);
      TextStep(InputMessages(v, maxBytes), maxBytes);
      VariablesStep(InputText(InputMessages(v, maxBytes), maxBytes), maxBytes, sha);
    }
  }

  // Only that field changes, and none comes or goes.
  ghost predicate Changes(v: Json, r: Json, key: string) {
    v.Obj? && r.Obj? && r.fields.Keys == v.fields.Keys && forall k :: k in v.fields && k != key ==>
      r.fields[k] == v.fields[k]
  }

  lemma MessagesStep(v: Json, maxBytes: nat)
    requires v.Obj?
    ensures Changes(v, InputMessages(v, maxBytes), "messages")
    ensures At(InputMessages(v, maxBytes), "messages") == if At(v, "messages").Arr?
      then Arr(TruncatedMessages(At(v, "messages").items, if maxBytes >= 512 then maxBytes / 8 else 64, maxBytes))
      else At(v, "messages")
  {
    hide TruncatedMessages;
  }

  lemma TextStep(v: Json, maxBytes: nat)
    requires v.Obj?
    ensures Changes(v, InputText(v, maxBytes), "text")
    ensures At(InputText(v, maxBytes), "text")
      == if At(v, "text").Str? then Str(Truncated(At(v, "text").text, maxBytes)) else At(v, "text")
  {
    hide Truncated;
  }

  lemma VariablesStep(v: Json, maxBytes: nat, sha: string -> string)
    requires v.Obj?
    ensures Changes(v, InputVariables(v, maxBytes, sha), "variables")
    ensures At(InputVariables(v, maxBytes, sha), "variables") == if At(v, "variables").Null? then Null
      else TruncatedVariables(At(v, "variables"), if maxBytes >= 256 then maxBytes / 4 else 64, sha)
  {
    hide TruncatedVariables;
  }

  // Whether anything is cut: a message, the list of them, the text, the variables.
  ghost predicate InputLosses(v: Json, eighth: nat, quarter: nat, maxBytes: nat) {
    || (At(v, "messages").Arr?
        && var list := At(v, "messages").items;
        || (exists i :: 0 <= i < |list| && Bytes(list[i]) > eighth)
        || |Encode(Arr(TruncatedEach(list, eighth)))| > maxBytes)
    || (At(v, "text").Str? && |At(v, "text").text| > maxBytes)
    || (!At(v, "variables").Null? && |Encode(At(v, "variables"))| > quarter)
  }

  lemma InputLossesAre(v: Json, maxBytes: nat)
    ensures var eighth, quarter := if maxBytes >= 512 then maxBytes / 8 else 64,
      if maxBytes >= 256 then maxBytes / 4 else 64;
      InputCut(v, maxBytes) <==> InputLosses(v, eighth, quarter, maxBytes)
  {
    hide Encode, TruncatedEach, Bytes, ContentBytes, JsonSizes.ListSize;
    var list := At(v, "messages");
    if list.Arr? {
      forall i | 0 <= i < |list.items| ensures ContentBytes(list.items[i]) == Bytes(list.items[i]) {
        BytesAre(list.items[i]);
      }
      JsonSizes.ListSizeIsSize(TruncatedEach(list.items, PerMessage(maxBytes)));
    }
  }

  lemma InputKeysDiffer()
    ensures "messages" != "text" && "messages" != "variables" && "messages" != "truncated"
    ensures "text" != "variables" && "text" != "truncated" && "variables" != "truncated"
  {
    assert "messages"[0] == 'm' && "text"[1] == 'e' && "variables"[0] == 'v' && "truncated"[0] == 't';
    assert "truncated"[1] == 'r';
  }

  lemma OutputMeans(v: Json, maxBytes: nat)
    ensures var r := TruncatedOutput(v, maxBytes);
      var quarter := if maxBytes >= 256 then maxBytes / 4 else 64;
      if !v.Obj? then r == v
      else
        && r.Obj? && SameBut(v.fields, r.fields, {"content", "tool_calls", "truncated"})
        && At(r, "content") == (if At(v, "content").Str?
             then Str(Truncated(At(v, "content").text, quarter)) else At(v, "content"))
        && At(r, "tool_calls") == (if At(v, "tool_calls").Null? then Null
             else TruncatedToolCalls(At(v, "tool_calls"), quarter))
        && (r.fields.Keys - {"truncated"} == v.fields.Keys - {"truncated"})
        && At(r, "truncated") == (
             if (At(v, "content").Str? && |At(v, "content").text| > quarter)
                || (At(v, "tool_calls").Arr? && |Encode(At(v, "tool_calls"))| > quarter)
             then Bool(true) else At(v, "truncated"))
  {
    hide Truncated, TruncatedToolCalls, Encode;
    if v.Obj? {
      OutputKeysDiffer();
      var a := OutputContent(v, maxBytes);
      var b := OutputCalls(a, maxBytes);
      assert TruncatedOutput(v, maxBytes) == MarkIf(b, OutputCut(v, maxBytes));
    }
  }

  lemma OutputKeysDiffer()
    ensures "content" != "tool_calls" && "content" != "truncated" && "tool_calls" != "truncated"
  {
    assert "content"[0] == 'c' && "tool_calls"[1] == 'o' && "truncated"[1] == 'r';
  }

  /// The policy

  // The full-mode policy: errors and answers cut off for length are kept
  // whatever the sampling says; a record not kept loses input and output; a bare
  // string is put into an object; the error message is cut at 2048 bytes.
  lemma PolicyMeans(gen: map<string, Json>, maxBytes: nat, threshold: int, bucket: Json -> nat, sha: string -> string)
    ensures var r := FullPolicy(gen, maxBytes, threshold, bucket, sha);
      var kept := || ("status" in gen && gen["status"] == Str("error"))
        || ("stop_kind" in gen && gen["stop_kind"] == Str("length"))
        || bucket(if "id" in gen then gen["id"] else Null) < threshold;
      && SameBut(gen, r, {"input", "output", "error"})
      && (!kept ==> "input" !in r && "output" !in r)
      && (kept ==>
          && PartIs(gen, r, "input", (v: Json) =>
               TruncatedInput(if v.Str? then Obj(map["text" := v]) else v, maxBytes, sha))
          && PartIs(gen, r, "output", (v: Json) =>
               TruncatedOutput(if v.Str? then Obj(map["content" := v]) else v, maxBytes)))
      && ErrorIs(gen, r)
  {
    PolicyKeysDiffer();
    hide TruncatedInput, TruncatedOutput, Truncated, Wrapped, TruncatedPayload, CappedError, IsCut;
    var kept := Kept(gen, threshold, bucket);
    var w := Wrapped(gen);
    var t := if kept then TruncatedPayload(w, maxBytes, sha) else gen - {"input", "output"};
    assert FullPolicy(gen, maxBytes, threshold, bucket, sha) == CappedError(t);
    hide FullPolicy;
    CappedKeeps(t);
    if kept {
      WrappedParts(gen);
      PayloadParts(w, maxBytes, sha);
    }
    hide Kept;
    assert SameBut(gen, t, {"input", "output"});
    ErrorOf(gen, t);
  }

  // A field of a record, turned into what f makes of it and gone when that is null.
  ghost predicate PartIs(gen: map<string, Json>, r: map<string, Json>, key: string, f: Json -> Json) {
    if key in gen && !f(gen[key]).Null? then key in r && r[key] == f(gen[key]) else key !in r
  }

  ghost predicate ErrorIs(gen: map<string, Json>, r: map<string, Json>) {
    && ("error" in r <==> "error" in gen)
    && ("error" in gen ==>
        var e := gen["error"];
        if e.Obj? && "message" in e.fields && e.fields["message"].Str? then
          && r["error"].Obj? && SameBut(e.fields, r["error"].fields, {"message"}) && "message" in r["error"].fields
          && r["error"].fields["message"].Str?
          && IsCut(e.fields["message"].text, 2048, r["error"].fields["message"].text)
        else r["error"] == e)
  }

  lemma PolicyKeysDiffer()
    ensures "input" != "output" && "error" !in {"input", "output", "status", "stop_kind", "id"}
    ensures "status" !in {"input", "output"} && "stop_kind" !in {"input", "output"} && "id" !in {"input", "output"}
  {
    assert "input"[0] == 'i' && "output"[0] == 'o' && "error"[0] == 'e' && "status"[0] == 's' && "stop_kind"[0] == 's';
    assert "id"[1] == 'd' && "input"[1] == 'n';
  }

  lemma WrappedParts(gen: map<string, Json>)
    ensures var w := Wrapped(gen);
      && SameBut(gen, w, {"input", "output"}) && ("input" in w <==> "input" in gen)
      && ("output" in w <==> "output" in gen)
      && ("input" in gen ==> w["input"] == if gen["input"].Str? then Obj(map["text" := gen["input"]]) else gen["input"])
      && ("output" in gen ==>
          w["output"] == if gen["output"].Str? then Obj(map["content" := gen["output"]]) else gen["output"])
  {
    PolicyKeysDiffer();
  }

  lemma PayloadParts(gen: map<string, Json>, maxBytes: nat, sha: string -> string)
    ensures var r := TruncatedPayload(gen, maxBytes, sha);
      && SameBut(gen, r, {"input", "output"})
      && PartIs(gen, r, "input", (v: Json) => TruncatedInput(v, maxBytes, sha))
      && PartIs(gen, r, "output", (v: Json) => TruncatedOutput(v, maxBytes))
  {
    hide TruncatedInput, TruncatedOutput;
    PolicyKeysDiffer();
  }

  lemma CappedKeeps(gen: map<string, Json>)
    ensures SameBut(gen, CappedError(gen), {"error"}) && ErrorIs(gen, CappedError(gen))
  {
    hide Truncated, IsCut;
    var message := At(At(Obj(gen), "error"), "message");
    if message.Str? {
      TruncatedMeans(message.text, 2048);
      ShortStays(message.text);
    }
  }

  lemma ShortStays(s: string)
    ensures |s| <= 2048 ==> IsCut(s, 2048, s)
  {
  }

  lemma ErrorOf(gen: map<string, Json>, t: map<string, Json>)
    requires SameBut(gen, t, {"input", "output"})
    ensures "error" in t <==> "error" in gen
    ensures "error" in gen ==> t["error"] == gen["error"]
  {
    PolicyKeysDiffer();
  }
}
