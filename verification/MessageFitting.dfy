/** What fitting a message list under its cap guarantees (payload.go). */
module MessageFitting {
  import opened Options
  import opened Utf8
  import opened CanonicalJson
  import opened Decimals
  import opened JsonSizes
  import opened Truncation
  import opened Payload
  import JsonRoundTrip

  /// The marker message

  lemma MarkerTextPlain(n: nat)
    ensures Plain(MarkerText(n)) && |MarkerText(n)| == 27 + |Decimal(n)|
  {
    hide RuneSize, Valid, Decimal;
    EllipsisIsValid();
    AsciiIsValid("[");
    AsciiIsValid(Decimal(n));
    AsciiIsValid(" messages truncated]");
    PlainConcat(ELLIPSIS, "[");
    PlainConcat(ELLIPSIS + "[", Decimal(n));
    PlainConcat(ELLIPSIS + "[" + Decimal(n), " messages truncated]");
    PlainConcat(ELLIPSIS + "[" + Decimal(n) + " messages truncated]", ELLIPSIS);
  }

  // A smaller count never makes a longer marker.
  lemma MarkerMonotone(m: nat, n: nat)
    requires m <= n
    ensures Size(Marker(m)) <= Size(Marker(n))
  {
    DecimalMonotone(m, n);
    MarkerTextPlain(m);
    MarkerTextPlain(n);
    PlainQuote(MarkerText(m));
    PlainQuote(MarkerText(n));
    var a, b := Marker(m), Marker(n);
    assert b.fields == a.fields["content" := Str(MarkerText(n))];
    assert Size(Str(MarkerText(m))) == |Quote(MarkerText(m))| && Size(Str(MarkerText(n))) == |Quote(MarkerText(n))|;
    hide Size, Quote, MarkerText;
    SizeReplace(a, b, "content");
  }

  /// The tail

  // The kept tail fits, and one message more would not.
  lemma {:induction false} TailIsLongest(list: seq<Json>, budget: nat)
    ensures var n := TailCount(list, budget);
      && SumSizes(list[|list| - n..]) <= budget
      && (n < |list| ==> SumSizes(list[|list| - n - 1..]) > budget)
  {
    hide Size, SumSizes;
    SumSizesEmpty();
    if list == [] {
      assert list[0..] == [];
    } else if Size(list[|list| - 1]) + 1 > budget {
      assert list[|list|..] == [];
      SumSizesLast(list, |list| - 1);
    } else {
      var front, last := list[..|list| - 1], list[|list| - 1];
      var left := budget - Size(last) - 1;
      TailIsLongest(front, left);
      var n := TailCount(front, left);
      assert TailCount(list, budget) == 1 + n;
      hide TailCount;
      assert list == front + [last];
      SuffixSize(front, last, |front| - n);
      if n < |front| { SuffixSize(front, last, |front| - n - 1); }
    }
  }

  lemma SumSizesEmpty()
    ensures SumSizes([]) == 0
  {
  }

  lemma SumSizesLast(list: seq<Json>, i: nat)
    requires i < |list|
    ensures SumSizes(list[i..]) == Size(list[i]) + 1 + SumSizes(list[i + 1..])
  {
    hide Size;
    assert list[i..][1..] == list[i + 1..];
  }

  lemma SuffixSize(front: seq<Json>, last: Json, i: nat)
    requires i <= |front|
    ensures (front + [last])[i..] == front[i..] + [last]
    ensures SumSizes((front + [last])[i..]) == SumSizes(front[i..]) + Size(last) + 1
  {
    hide Size;
    SumSizesConcat(front[i..], [last]);
    assert [last][1..] == [];
  }

  // A longer suffix only weighs more, so no longer one fits.
  lemma {:induction false} SuffixMonotone(list: seq<Json>, i: nat, j: nat)
    requires i <= j <= |list|
    ensures SumSizes(list[j..]) <= SumSizes(list[i..])
    decreases j - i
  {
    hide Size;
    if i < j {
      SumSizesLast(list, i);
      SuffixMonotone(list, i + 1, j);
    }
  }

  /// Dropping the middle

  // The first message after `k` shrinkings, while there is something to shrink.
  ghost function ShrunkTimes(first: Json, k: nat): Option<Json>
    decreases k
  {
    if k == 0 then Some(first)
    else if Shrunk(first).Some? then ShrunkTimes(Shrunk(first).value, k - 1)
    else None
  }

  // Shrunk `k` times, the first message fits beside a marker for `n` others.
  ghost predicate FitsAfter(first: Json, n: nat, limit: nat, k: nat) {
    ShrunkTimes(first, k).Some? && ListSize([ShrunkTimes(first, k).value, Marker(n)]) <= limit
  }

  ghost predicate FitsShrunk(first: Json, n: nat, limit: nat) {
    exists k: nat :: FitsAfter(first, n, limit, k)
  }

  // Shrunk `k` times it fits, and shrunk fewer times it does not.
  ghost predicate FirstFits(first: Json, n: nat, limit: nat, k: nat) {
    FitsAfter(first, n, limit, k) && forall j: nat :: j < k ==> !FitsAfter(first, n, limit, j)
  }

  // The first message shrunk `k` times and no more than it must be, a marker,
  // and the longest tail, of `kept` messages, that the rest of the cap holds.
  ghost predicate MarkedWith(list: seq<Json>, out: seq<Json>, limit: nat, k: nat, kept: nat)
    requires list != []
  {
    && kept <= |list| - 1 && FirstFits(list[0], |list| - 1, limit, k)
    && var first := ShrunkTimes(list[0], k).value;
      && out == [first, Marker(|list| - 1 - kept)] + list[|list| - kept..]
      && ListSize(out) <= limit
      && var budget := limit - ListSize([first, Marker(|list| - 1)]);
        && budget >= 0 && SumSizes(list[|list| - kept..]) <= budget
        && forall from :: 1 <= from < |list| - kept ==> SumSizes(list[from..]) > budget
  }

  // What a list becomes once its middle goes: a marked tail if some shrinking of
  // the first message fits, else one marker for all of it if that fits, else nothing.
  ghost predicate MiddleDropped(list: seq<Json>, out: seq<Json>, limit: nat)
    requires list != []
  {
    if FitsShrunk(list[0], |list| - 1, limit) then
      exists k: nat, kept: nat :: MarkedWith(list, out, limit, k, kept)
    else
      out == if ListSize([Marker(|list|)]) <= limit then [Marker(|list|)] else []
  }

  lemma TwoAndTail(a: Json, b: Json, tail: seq<Json>)
    ensures ListSize([a, b] + tail) == 1 + Size(a) + 1 + Size(b) + 1 + SumSizes(tail)
  {
    hide Size;
    SumSizesConcat([a, b], tail);
    assert [a, b][1..] == [b] && [b][1..] == [];
  }

  lemma DropMiddleOutcome(list: seq<Json>, limit: nat)
    requires list != []
    ensures MiddleDropped(list, DroppedMiddle(list[0], list[1..], limit), limit)
  {
    hide Marker, FitsAfter, ListSize, DroppedMiddle, MarkedWith;
    var first, n := list[0], |list| - 1;
    if FitsShrunk(first, n, limit) {
      var k: nat :| FitsAfter(first, n, limit, k);
      var least := LeastShrinking(first, n, limit, k);
      MarkedTail(list, limit, least);
    } else {
      NothingFits(first, list[1..], limit);
    }
  }

  lemma {:induction false} LeastShrinking(first: Json, n: nat, limit: nat, k: nat) returns (least: nat)
    requires FitsAfter(first, n, limit, k)
    ensures FirstFits(first, n, limit, least)
    decreases k
  {
    hide FitsAfter;
    least := k;
    if j: nat :| j < k && FitsAfter(first, n, limit, j) {
      least := LeastShrinking(first, n, limit, j);
    }
  }

  // The loop runs on to the least shrinking that fits, and stops there.
  lemma {:induction false} ShrinksUntilFit(first: Json, rest: seq<Json>, limit: nat, k: nat)
    requires FirstFits(first, |rest|, limit, k)
    ensures DroppedMiddle(first, rest, limit) == DroppedMiddle(ShrunkTimes(first, k).value, rest, limit)
    decreases k
  {
    hide ListSize, Marker, Shrunk, ShrinkMeasure, TailCount;
    if k > 0 {
      assert ShrunkTimes(first, 0) == Some(first) && !FitsAfter(first, |rest|, limit, 0);
      var smaller := Shrunk(first).value;
      forall j: nat | j < k - 1 ensures !FitsAfter(smaller, |rest|, limit, j) {
        assert ShrunkTimes(first, j + 1) == ShrunkTimes(smaller, j);
        assert !FitsAfter(first, |rest|, limit, j + 1);
      }
      ShrinksUntilFit(smaller, rest, limit, k - 1);
    }
  }

  lemma {:induction false} NothingFits(first: Json, rest: seq<Json>, limit: nat)
    requires !FitsShrunk(first, |rest|, limit)
    ensures var alone := [Marker(|rest| + 1)];
      DroppedMiddle(first, rest, limit) == if ListSize(alone) <= limit then alone else []
    decreases ShrinkMeasure(first)
  {
    hide ListSize, Marker, Shrunk, ShrinkMeasure, TailCount;
    assert ShrunkTimes(first, 0) == Some(first) && !FitsAfter(first, |rest|, limit, 0);
    if Shrunk(first).Some? {
      var smaller := Shrunk(first).value;
      ShrinkingEnds(first);
      forall k: nat ensures !FitsAfter(smaller, |rest|, limit, k) {
        assert ShrunkTimes(first, k + 1) == ShrunkTimes(smaller, k);
        assert !FitsAfter(first, |rest|, limit, k + 1);
      }
      NothingFits(smaller, rest, limit);
    }
  }

  lemma MarkedTail(list: seq<Json>, limit: nat, k: nat)
    requires list != [] && FirstFits(list[0], |list| - 1, limit, k)
    ensures exists kept: nat :: MarkedWith(list, DroppedMiddle(list[0], list[1..], limit), limit, k, kept)
  {
    hide Size, Marker, SumSizes, ListSize, TailCount, ShrunkTimes, Shrunk;
    var rest := list[1..];
    ShrinksUntilFit(list[0], rest, limit, k);
    var first := ShrunkTimes(list[0], k).value;
    var budget := limit - ListSize([first, Marker(|rest|)]);
    var n := TailCount(rest, budget);
    TailOfList(list, budget);
    MarkedSize(first, rest, limit);
    assert rest[|rest| - n..] == list[|list| - n..];
    assert MarkedWith(list, DroppedMiddle(list[0], rest, limit), limit, k, n);
  }

  lemma TailOfList(list: seq<Json>, budget: nat)
    requires list != []
    ensures var n := TailCount(list[1..], budget);
      && SumSizes(list[|list| - n..]) <= budget
      && forall from :: 1 <= from < |list| - n ==> SumSizes(list[from..]) > budget
  {
    hide Size, SumSizes, TailCount;
    var rest := list[1..];
    var n := TailCount(rest, budget);
    TailIsLongest(rest, budget);
    assert rest[|rest| - n..] == list[|list| - n..];
    forall from | 1 <= from < |list| - n ensures SumSizes(list[from..]) > budget {
      assert rest[from - 1..] == list[from..];
      SuffixMonotone(rest, from - 1, |rest| - n - 1);
    }
  }

  lemma MarkedSize(first: Json, rest: seq<Json>, limit: nat)
    requires ListSize([first, Marker(|rest|)]) <= limit
    ensures var n := TailCount(rest, limit - ListSize([first, Marker(|rest|)]));
      ListSize([first, Marker(|rest| - n)] + rest[|rest| - n..]) <= limit
  {
    hide Size, Marker, TailCount;
    var base := ListSize([first, Marker(|rest|)]);
    var n := TailCount(rest, limit - base);
    TailIsLongest(rest, limit - base);
    MarkerMonotone(|rest| - n, |rest|);
    TwoAndTail(first, Marker(|rest| - n), rest[|rest| - n..]);
    TwoAndTail(first, Marker(|rest|), []);
    assert [first, Marker(|rest|)] + [] == [first, Marker(|rest|)];
  }

  /// The whole of truncateMessages

  // The result is never longer than the cap, or than the two bytes of an empty
  // list when the cap is smaller still.
  lemma MessagesFit(list: seq<Json>, perMessage: nat, limit: nat)
    ensures ListSize(TruncatedMessages(list, perMessage, limit)) <= Max(limit, 2)
  {
    hide Size, TruncatedMessage, StubbedFrom, DroppedMiddle, FitsAfter, FirstFits, ShrunkTimes;
    var each := TruncatedEach(list, perMessage);
    var stubbed := StubbedFrom(each, 1, limit);
    if ListSize(each) > limit && ListSize(stubbed) > limit && each != [] {
      DropMiddleOutcome(each, limit);
    }
  }

  // Which of its forms the result takes, and what is accounted for in each: with
  // a marker, its count and the messages beside it make up the whole list.
  lemma MessagesOutcome(list: seq<Json>, perMessage: nat, limit: nat)
    requires list != []
    ensures var each := TruncatedEach(list, perMessage);
      var out := TruncatedMessages(list, perMessage, limit);
      if ListSize(each) <= limit then out == each
      else if ListSize(StubbedFrom(each, 1, limit)) <= limit then out == StubbedFrom(each, 1, limit) && |out| == |list|
      else MiddleDropped(each, out, limit)
  {
    hide Size, TruncatedMessage, StubbedFrom, DroppedMiddle, MiddleDropped;
    DropMiddleOutcome(TruncatedEach(list, perMessage), limit);
  }

  // Stubbing touches a middle message only, and no more of them than it must:
  // the first, the last and everything behind the last stub stay as they are.
  lemma {:induction false} StubbingKeeps(list: seq<Json>, i: nat, limit: nat)
    requires 0 < i
    ensures var out := StubbedFrom(list, i, limit);
      && (forall k :: 0 <= k < |list| && (k < i || k == |list| - 1) ==> out[k] == list[k])
      && (forall k :: 0 <= k < |list| ==> out[k] == list[k] || (list[k].Obj? && out[k] == Stub(list[k])))
    decreases |list| - i
  {
    hide Stub, ListSize;
    if !(i + 1 >= |list| || ListSize(list) <= limit) {
      StubbingKeeps(if list[i].Obj? then list[i := Stub(list[i])] else list, i + 1, limit);
    }
  }

  // Stubbing stops as soon as the list fits: had the last stub not been made,
  // the list would still be over the cap.
  lemma {:induction false} StubbingIsNeeded(list: seq<Json>, i: nat, limit: nat, k: nat)
    requires 0 < i <= k < |list| && StubbedFrom(list, i, limit)[k] != list[k]
    ensures exists j: nat :: k <= j < |list| && OverBefore(list, i, limit, j)
    decreases |list| - i
  {
    hide Stub, ListSize;
    var next := if list[i].Obj? then list[i := Stub(list[i])] else list;
    if k == i {
      assert OverBefore(list, i, limit, i);
    } else {
      StubbingIsNeeded(next, i + 1, limit, k);
      var j: nat :| k <= j < |list| && OverBefore(next, i + 1, limit, j);
      assert OverBefore(list, i, limit, j);
    }
  }

  // With messages i..j stubbed and no more, the list is over the cap.
  ghost predicate OverBefore(list: seq<Json>, i: nat, limit: nat, j: nat)
    requires i <= j < |list|
    decreases j - i
  {
    && ListSize(list) > limit
    && (i == j || OverBefore(if list[i].Obj? then list[i := Stub(list[i])] else list, i + 1, limit, j))
  }

  /// When there is nothing left to shrink

  lemma FieldNamesValid()
    ensures Valid("truncated") && Valid("role")
  {
    hide Valid;
    AsciiIsValid("truncated");
    AsciiIsValid("role");
  }

  lemma ObjWellFormed(fields: map<string, Json>)
    requires forall k :: k in fields ==> Valid(k) && JsonRoundTrip.WellFormed(fields[k])
    ensures JsonRoundTrip.WellFormed(Obj(fields))
  {
    hide Valid;
  }

  lemma FieldWellFormed(msg: Json, key: string)
    requires JsonRoundTrip.WellFormed(msg) && msg.Obj? && key in msg.fields
    ensures JsonRoundTrip.WellFormed(msg.fields[key])
  {
    hide Valid;
  }

  lemma FlagWellFormed()
    ensures JsonRoundTrip.WellFormed(Bool(true))
  {
  }

  lemma MinimalWellFormed(msg: Json)
    requires JsonRoundTrip.WellFormed(msg)
    ensures JsonRoundTrip.WellFormed(Minimal(msg))
  {
    FieldNamesValid();
    FlagWellFormed();
    hide Valid, JsonRoundTrip.WellFormed;
    if msg.Obj? && "role" in msg.fields { FieldWellFormed(msg, "role"); }
    ObjWellFormed(Minimal(msg).fields);
  }

  lemma MinimalIsEmpty(msg: Json)
    requires msg == Minimal(msg)
    ensures ContentBytes(msg) == 0
  {
    hide Size;
    assert At(Minimal(msg), "content") == Null;
  }

  // Shrinking stops, on decoded JSON, at the minimal message itself: the byte
  // comparison never takes another message for it.
  lemma ShrinkStops(msg: Json)
    requires JsonRoundTrip.WellFormed(msg)
    ensures Shrunk(msg).None? <==> !msg.Obj? || msg == Minimal(msg)
  {
    hide Encode, ContentBytes, Minimal, TruncatedMessage, JsonRoundTrip.WellFormed;
    MinimalWellFormed(msg);
    JsonRoundTrip.EncodeInjective(Minimal(msg), msg);
    if msg == Minimal(msg) { MinimalIsEmpty(msg); }
  }
}
