/** UTF-8 by its characters: the table of section 3 of RFC 3629. */
module Utf8Runes {
  import opened Utf8
  import CanonicalJson

  // A Unicode scalar value.
  predicate Scalar(u: int) {
    0 <= u < 0xD800 || 0xE000 <= u < 0x11_0000
  }

  function Rune(u: int): string
    requires Scalar(u)
  {
    if u < 0x80 then [u as char]
    else if u < 0x800 then [(0xC0 + u / 0x40) as char, (0x80 + u % 0x40) as char]
    else if u < 0x1_0000 then
      [(0xE0 + u / 0x1000) as char, (0x80 + u / 0x40 % 0x40) as char, (0x80 + u % 0x40) as char]
    else
      [(0xF0 + u / 0x4_0000) as char, (0x80 + u / 0x1000 % 0x40) as char, (0x80 + u / 0x40 % 0x40) as char,
       (0x80 + u % 0x40) as char]
  }

  // Every character is decoded at its full length, whatever follows it.
  lemma RuneDecodes(u: int, rest: string)
    requires Scalar(u)
    ensures RuneSize(Rune(u) + rest) == |Rune(u)|
  {
    var s := Rune(u) + rest;
    assert forall i :: 0 <= i < |Rune(u)| ==> ByteAt(s, i) == Rune(u)[i] as int;
    assert ByteAt(s, 0) == s[0] as int;
    hide ByteAt;
    if 0x800 <= u < 0x1_0000 {
      ThirdParts(u);
    } else if u >= 0x1_0000 {
      FourthParts(u);
    }
  }

  lemma ThirdParts(u: int)
    requires 0x800 <= u < 0x1_0000
    ensures u / 0x1000 == 0 ==> u / 0x40 % 0x40 >= 0x20
    ensures u / 0x1000 == 0xD ==> 0x34_0 <= u / 0x40 < 0x38_0
    ensures u / 0x40 % 0x40 == u / 0x40 - u / 0x1000 * 0x40
  {
  }

  lemma FourthParts(u: int)
    requires 0x1_0000 <= u < 0x11_0000
    ensures u / 0x1000 % 0x40 == u / 0x1000 - u / 0x4_0000 * 0x40
    ensures u / 0x1000 >= 0x10 && u / 0x1000 < 0x110
  {
  }

  // And nothing else is decoded: what a string starts with is some character.
  lemma DecodedIsRune(s: string) returns (u: int)
    requires RuneSize(s) > 0
    ensures Scalar(u) && s[..RuneSize(s)] == Rune(u)
  {
    match RuneSize(s)
    case 1 => u := s[0] as int;
    case 2 => u := TwoBytes(s);
    case 3 => u := ThreeBytes(s);
    case 4 => u := FourBytes(s);
  }

  lemma TwoBytes(s: string) returns (u: int)
    requires RuneSize(s) == 2
    ensures Scalar(u) && s[..2] == Rune(u)
  {
    var a, b := ByteAt(s, 0) - 0xC0, ByteAt(s, 1) - 0x80;
    u := a * 0x40 + b;
    Digits(a, b, u);
    assert s[..2] == [s[0], s[1]];
  }

  lemma ThreeBytes(s: string) returns (u: int)
    requires RuneSize(s) == 3
    ensures Scalar(u) && s[..3] == Rune(u)
  {
    var a, b, c := ByteAt(s, 0) - 0xE0, ByteAt(s, 1) - 0x80, ByteAt(s, 2) - 0x80;
    u := (a * 0x40 + b) * 0x40 + c;
    Digits(a * 0x40 + b, c, u);
    Digits(a, b, a * 0x40 + b);
    TwiceDown(u);
    assert s[..3] == [s[0], s[1], s[2]];
  }

  lemma FourBytes(s: string) returns (u: int)
    requires RuneSize(s) == 4
    ensures Scalar(u) && s[..4] == Rune(u)
  {
    var a, b, c, d := ByteAt(s, 0) - 0xF0, ByteAt(s, 1) - 0x80, ByteAt(s, 2) - 0x80, ByteAt(s, 3) - 0x80;
    var x := (a * 0x40 + b) * 0x40 + c;
    u := x * 0x40 + d;
    Digits(x, d, u);
    Digits(a * 0x40 + b, c, x);
    Digits(a, b, a * 0x40 + b);
    TwiceDown(u);
    TwiceDown(x);
    ThriceDown(u);
    assert s[..4] == [s[0], s[1], s[2], s[3]];
  }

  lemma Digits(a: int, b: int, u: int)
    requires 0 <= b < 0x40 && u == a * 0x40 + b
    ensures u / 0x40 == a && u % 0x40 == b
  {
  }

  lemma TwiceDown(u: int)
    requires u >= 0
    ensures u / 0x1000 == u / 0x40 / 0x40
  {
  }

  lemma ThriceDown(u: int)
    requires u >= 0
    ensures u / 0x4_0000 == u / 0x40 / 0x40 / 0x40
  {
  }

  // The encoding of a sequence of characters.
  function Runes(us: seq<int>): string
    requires forall i :: 0 <= i < |us| ==> Scalar(us[i])
  {
    if us == [] then "" else Rune(us[0]) + Runes(us[1..])
  }

  // Valid strings are exactly those, one character counting as one.
  lemma {:induction false} RunesAreValid(us: seq<int>)
    requires forall i :: 0 <= i < |us| ==> Scalar(us[i])
    ensures Valid(Runes(us)) && RuneCount(Runes(us)) == |us|
  {
    hide RuneSize, Rune;
    if us != [] {
      RunesAreValid(us[1..]);
      RuneDecodes(us[0], Runes(us[1..]));
      RuneNotEmpty(us[0]);
      var s := Runes(us);
      assert s[|Rune(us[0])|..] == Runes(us[1..]);
    }
  }

  lemma RuneNotEmpty(u: int)
    requires Scalar(u)
    ensures 0 < |Rune(u)|
  {
  }

  lemma {:induction false} ValidIsRunes(s: string) returns (us: seq<int>)
    requires Valid(s)
    ensures forall i :: 0 <= i < |us| ==> Scalar(us[i])
    ensures Runes(us) == s
  {
    hide RuneSize, Rune;
    if s == "" {
      us := [];
    } else {
      var u := DecodedIsRune(s);
      var more := ValidIsRunes(s[RuneSize(s)..]);
      us := [u] + more;
      assert us[1..] == more;
      assert s == s[..RuneSize(s)] + s[RuneSize(s)..];
    }
  }

  // The decoder of JSON escapes builds the same bytes.
  lemma EscapesBuildRunes(u: int)
    requires Scalar(u)
    ensures CanonicalJson.EncodeRune(u) == Rune(u)
  {
  }
}
