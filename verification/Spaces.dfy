/** White space as Go's strings package trims and splits it, in UTF-8 bytes. */
module Spaces {

  // The encodings of a white space character (unicode.IsSpace), by their length.

  predicate OneByte(a: char) {
    a == ' ' || '\t' <= a <= '\r'
  }

  predicate TwoBytes(a: char, b: char) {
    a == '\U{00C2}' && (b == '\U{0085}' || b == '\U{00A0}')
  }

  predicate ThreeBytes(a: char, b: char, c: char) {
    || (a == '\U{00E1}' && b == '\U{009A}' && c == '\U{0080}')
    || (a == '\U{00E2}' && b == '\U{0080}' && '\U{0080}' <= c <= '\U{008A}')
    || (a == '\U{00E2}' && b == '\U{0080}' && (c == '\U{00A8}' || c == '\U{00A9}' || c == '\U{00AF}'))
    || (a == '\U{00E2}' && b == '\U{0081}' && c == '\U{009F}')
    || (a == '\U{00E3}' && b == '\U{0080}' && c == '\U{0080}')
  }

  // The size of the white space character s starts with, or 0.
  function SpaceSize(s: string): (n: nat)
    ensures n <= |s|
  {
    if |s| >= 1 && OneByte(s[0]) then 1
    else if |s| >= 2 && TwoBytes(s[0], s[1]) then 2
    else if |s| >= 3 && ThreeBytes(s[0], s[1], s[2]) then 3
    else 0
  }

  // The size of the white space character s ends with, or 0.
  function SpaceEnd(s: string): (n: nat)
    ensures n <= |s|
  {
    var e := |s|;
    if e >= 1 && OneByte(s[e - 1]) then 1
    else if e >= 2 && TwoBytes(s[e - 2], s[e - 1]) then 2
    else if e >= 3 && ThreeBytes(s[e - 3], s[e - 2], s[e - 1]) then 3
    else 0
  }

  function TrimLeft(s: string): (r: string)
    ensures |r| <= |s|
  {
    if SpaceSize(s) > 0 then TrimLeft(s[SpaceSize(s)..]) else s
  }

  function TrimRight(s: string): (r: string)
    ensures |r| <= |s|
  {
    if SpaceEnd(s) > 0 then TrimRight(s[..|s| - SpaceEnd(s)]) else s
  }

  function TrimSpace(s: string): string {
    TrimRight(TrimLeft(s))
  }

  // The bytes of s before its first white space.
  function WordSize(s: string): (n: nat)
    ensures n <= |s| && (s != "" && SpaceSize(s) == 0 ==> n > 0)
  {
    if s == "" || SpaceSize(s) > 0 then 0 else 1 + WordSize(s[1..])
  }

  function Fields(s: string): seq<string>
    decreases |s|
  {
    var t := TrimLeft(s);
    TrimmedLeft(s);
    if t == "" then [] else [t[..WordSize(t)]] + Fields(t[WordSize(t)..])
  }

  lemma {:induction false} TrimmedLeft(s: string)
    ensures SpaceSize(TrimLeft(s)) == 0
  {
    hide SpaceSize;
    if SpaceSize(s) > 0 { TrimmedLeft(s[SpaceSize(s)..]); }
  }

  // Nothing but white space, one character after another.
  predicate AllSpace(s: string) {
    s == "" || (SpaceSize(s) > 0 && AllSpace(s[SpaceSize(s)..]))
  }

  // Only white space trims to nothing.
  lemma {:induction false} BlankText(s: string)
    ensures TrimSpace(s) == "" <==> AllSpace(s)
  {
    hide SpaceSize;
    if SpaceSize(s) > 0 {
      BlankText(s[SpaceSize(s)..]);
    } else if s != "" {
      KeepsFirst(s);
    }
  }

  lemma {:induction false} KeepsFirst(s: string)
    requires s != "" && SpaceSize(s) == 0
    ensures TrimRight(s) != ""
  {
    if 0 < SpaceEnd(s) < |s| {
      KeepsFirst(s[..|s| - SpaceEnd(s)]);
    }
  }

  // A blank on either side of a trimmed text is trimmed off again.
  lemma PaddedTrims(b: string)
    requires TrimSpace(b) == b
    ensures TrimSpace(" " + b + " ") == b
  {
    hide SpaceSize, SpaceEnd;
    assert " " + b + " " == " " + (b + " ");
    BlankBefore(b + " ");
    BlankAfter(b);
    if b == "" {
      BlankBefore("");
      BlankAfter("");
      assert TrimLeft("") == "" && " " + "" == " " == "" + " ";
    } else {
      assert |TrimLeft(b)| == |b|;
      TrimmedLeft(b);
      NoSpaceAcross(b);
    }
  }

  lemma BlankBefore(s: string)
    ensures TrimLeft(" " + s) == TrimLeft(s)
  {
    assert (" " + s)[1..] == s;
  }

  lemma BlankAfter(s: string)
    ensures TrimRight(s + " ") == TrimRight(s)
  {
    assert (s + " ")[..|s|] == s;
  }

  lemma NoSpaceAcross(b: string)
    requires b != "" && SpaceSize(b) == 0
    ensures SpaceSize(b + " ") == 0
  {
  }
}
