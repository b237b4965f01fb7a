/**
 UTF-8 as section 4 of RFC 3629 defines it, over Go strings.

 A Go string is a sequence of bytes.  It is a Dafny string here in which each
 character stands for the byte with that code, so "\U{00E2}" is the byte E2.
 A character above FF is no byte at all: every definition below treats it as a
 byte no UTF-8 sequence contains.
 */
module Utf8 {

  // The byte at index i, or -1 past the end.
  function ByteAt(s: string, i: nat): int {
    if i < |s| then s[i] as int else -1
  }

  predicate Continuation(b: int) {
    0x80 <= b <= 0xBF
  }

  // The length of the character s starts with, or 0 when s starts with none.
  function RuneSize(s: string): (n: nat)
    ensures n <= 4 && n <= |s|
  {
    var b0, b1 := ByteAt(s, 0), ByteAt(s, 1);
    if 0x00 <= b0 <= 0x7F then 1
    else if 0xC2 <= b0 <= 0xDF && Continuation(b1) then 2
    else if ThreeByteStart(b0, b1) && Continuation(ByteAt(s, 2)) then 3
    else if FourByteStart(b0, b1) && Continuation(ByteAt(s, 2)) && Continuation(ByteAt(s, 3)) then 4
    else 0
  }

  predicate ThreeByteStart(b0: int, b1: int) {
    || (b0 == 0xE0 && 0xA0 <= b1 <= 0xBF)
    || (0xE1 <= b0 <= 0xEC && Continuation(b1))
    || (b0 == 0xED && 0x80 <= b1 <= 0x9F)
    || (0xEE <= b0 <= 0xEF && Continuation(b1))
  }

  predicate FourByteStart(b0: int, b1: int) {
    || (b0 == 0xF0 && 0x90 <= b1 <= 0xBF)
    || (0xF1 <= b0 <= 0xF3 && Continuation(b1))
    || (b0 == 0xF4 && 0x80 <= b1 <= 0x8F)
  }

  predicate Valid(s: string) {
    s == "" || (RuneSize(s) > 0 && Valid(s[RuneSize(s)..]))
  }

  lemma ValidRest(s: string)
    requires Valid(s) && s != ""
    ensures RuneSize(s) > 0 && Valid(s[RuneSize(s)..])
  {
  }

  // The number of characters, an undecodable byte counting as one.
  function RuneCount(s: string): nat {
    if s == "" then 0
    else 1 + RuneCount(s[(if RuneSize(s) > 0 then RuneSize(s) else 1)..])
  }

  const REPLACEMENT := "\U{00EF}\U{00BF}\U{00BD}"

  // s with every undecodable byte replaced by U+FFFD.
  function ToValid(s: string): string {
    if s == "" then ""
    else if RuneSize(s) == 0 then REPLACEMENT + ToValid(s[1..])
    else s[..RuneSize(s)] + ToValid(s[RuneSize(s)..])
  }

  // A character is recognised by its own bytes alone.
  lemma RuneSizeOfPrefix(s: string, m: nat)
    requires m <= |s|
    ensures m >= RuneSize(s) > 0 ==> RuneSize(s[..m]) == RuneSize(s)
    ensures m < RuneSize(s) ==> RuneSize(s[..m]) == 0
  {
  }

  lemma RuneSizeConcat(a: string, b: string)
    requires RuneSize(a) > 0
    ensures RuneSize(a + b) == RuneSize(a)
  {
    assert (a + b)[..|a|] == a;
    assert forall i :: 0 <= i < 4 && i < |a| ==> ByteAt(a + b, i) == ByteAt(a, i);
  }

  lemma {:induction false} ValidConcat(a: string, b: string)
    requires Valid(a)
    ensures Valid(a + b) <==> Valid(b)
  {
    if a == "" {
      assert a + b == b;
    } else {
      var n := RuneSize(a);
      RuneSizeConcat(a, b);
      assert (a + b)[n..] == a[n..] + b;
      ValidConcat(a[n..], b);
    }
  }

  lemma {:induction false} ToValidIsValid(s: string)
    ensures Valid(ToValid(s))
  {
    if s == "" {
    } else if RuneSize(s) == 0 {
      ToValidIsValid(s[1..]);
      assert Valid(REPLACEMENT) by { assert REPLACEMENT[3..] == ""; }
      ValidConcat(REPLACEMENT, ToValid(s[1..]));
    } else {
      var n := RuneSize(s);
      ToValidIsValid(s[n..]);
      RuneSizeOfPrefix(s, n);
      assert s[..n][n..] == "";
      ValidConcat(s[..n], ToValid(s[n..]));
    }
  }

  lemma {:induction false} ToValidKeepsValid(s: string)
    requires Valid(s)
    ensures ToValid(s) == s
  {
    if s != "" {
      ToValidKeepsValid(s[RuneSize(s)..]);
    }
  }

  // Inside a character only continuation bytes follow the first one.
  lemma ContinuationsInside(s: string, i: nat)
    requires i < RuneSize(s)
    ensures Continuation(ByteAt(s, i)) <==> i > 0
  {
  }

  lemma ContinuationStartsNothing(s: string)
    requires Continuation(ByteAt(s, 0))
    ensures RuneSize(s) == 0 && !Valid(s)
  {
  }

  lemma {:induction false} AsciiIsValid(s: string)
    requires forall i :: 0 <= i < |s| ==> s[i] as int < 0x80
    ensures Valid(s)
  {
    if s != "" {
      assert ByteAt(s, 0) == s[0] as int;
      AsciiIsValid(s[1..]);
    }
  }
}
