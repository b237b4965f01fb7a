/**
 Canonical JSON (canonjson.go): object keys sorted byte-wise, no whitespace, no
 HTML escaping.  Encode and Quote are what the writers of JsonWriter append;
 Parse and Unquote decode by sections 3 to 7 of RFC 8259, texts that hold no
 white space between tokens, as none does that an encoder here writes.
 */
module CanonicalJson {
  import opened Options
  import opened SortedStrings
  import opened Utf8

  // A decoded JSON value.  Num carries the literal token, as json.Number does;
  // a Go int is the Num of its decimal digits.
  datatype Json =
    | Null
    | Bool(b: bool)
    | Str(text: string)
    | Num(token: string)
    | Arr(items: seq<Json>)
    | Obj(fields: map<string, Json>)

  /// Strings

  function HexDigit(d: nat): char
    requires d < 16
  {
    "0123456789abcdef"[d]
  }

  // An ASCII byte as it stands in a JSON string.
  function Escaped(c: char): string
    requires c as int < 0x80
  {
    match c
    case '"' => "\\\""
    case '\\' => "\\\\"
    case '\n' => "\\n"
    case '\r' => "\\r"
    case '\t' => "\\t"
    case '\U{0008}' => "\\b"
    case '\U{000C}' => "\\f"
    case _ =>
      if c as int < 0x20 then "\\u00" + [HexDigit(c as int / 16), HexDigit(c as int % 16)] else [c]
  }

  // What one step of writeJSONString writes, and how many bytes it consumes.
  function StepSize(s: string): (n: nat)
    requires s != ""
    ensures 0 < n <= |s|
  {
    if RuneSize(s) > 0 then RuneSize(s) else 1
  }

  function StepText(s: string): string
    requires s != ""
  {
    if s[0] as int < 0x80 then Escaped(s[0])
    else if RuneSize(s) == 0 then REPLACEMENT
    else s[..RuneSize(s)]
  }

  function QuoteBody(s: string): string {
    if s == "" then "" else StepText(s) + QuoteBody(s[StepSize(s)..])
  }

  function Quote(s: string): string {
    "\"" + QuoteBody(s) + "\""
  }

  /// Values

  function Encode(j: Json): string
    decreases j, 1
  {
    match j
    case Null => "null"
    case Bool(b) => if b then "true" else "false"
    case Str(text) => Quote(text)
    case Num(token) => if token == "" then "null" else token
    case Arr(items) => "[" + EncodeItems(items) + "]"
    case Obj(fields) => "{" + EncodeFields(j, SortedKeys(fields.Keys)) + "}"
  }

  function EncodeItems(items: seq<Json>): string
    decreases items
  {
    if items == [] then ""
    else Encode(items[0]) + (if |items| > 1 then "," + EncodeItems(items[1..]) else "")
  }

  function EncodeFields(j: Json, keys: seq<string>): string
    requires j.Obj? && forall i :: 0 <= i < |keys| ==> keys[i] in j.fields
    decreases j, 0, keys
  {
    if keys == [] then ""
    else
      Quote(keys[0]) + ":" + Encode(j.fields[keys[0]])
      + (if |keys| > 1 then "," + EncodeFields(j, keys[1..]) else "")
  }

  function Size(j: Json): nat {
    |Encode(j)|
  }

  /// Decoding strings (section 7 of RFC 8259)

  function HexValue(c: char): int {
    if '0' <= c <= '9' then c as int - '0' as int
    else if 'a' <= c <= 'f' then c as int - 'a' as int + 10
    else if 'A' <= c <= 'F' then c as int - 'A' as int + 10
    else -1
  }

  // The code unit of the four hex digits s starts with, or -1.
  function Hex4(s: string): (u: int)
    ensures u < 0x1_0000
  {
    if |s| < 4 || HexValue(s[0]) < 0 || HexValue(s[1]) < 0 || HexValue(s[2]) < 0 || HexValue(s[3]) < 0 then -1
    else 0x1000 * HexValue(s[0]) + 0x100 * HexValue(s[1]) + 0x10 * HexValue(s[2]) + HexValue(s[3])
  }

  function Byte(b: int): char {
    if 0 <= b < 256 then b as char else '\0'
  }

  function EncodeRune(u: int): string {
    if u < 0x80 then [Byte(u)]
    else if u < 0x800 then [Byte(0xC0 + u / 0x40), Byte(0x80 + u % 0x40)]
    else if u < 0x1_0000 then [Byte(0xE0 + u / 0x1000), Byte(0x80 + u / 0x40 % 0x40), Byte(0x80 + u % 0x40)]
    else
      [Byte(0xF0 + u / 0x4_0000), Byte(0x80 + u / 0x1000 % 0x40), Byte(0x80 + u / 0x40 % 0x40), Byte(0x80 + u % 0x40)]
  }

  // The text an escape after a reverse solidus stands for, and the number of
  // bytes it takes; None when it is no escape.  A lone surrogate is none.
  function Unescape(s: string): (r: Option<(string, nat)>)
    ensures r.Some? ==> 0 < r.value.1 <= |s|
  {
    if s == "" then None
    else match s[0]
      case '"' => Some(("\"", 1))
      case '\\' => Some(("\\", 1))
      case '/' => Some(("/", 1))
      case 'b' => Some(("\U{0008}", 1))
      case 'f' => Some(("\U{000C}", 1))
      case 'n' => Some(("\n", 1))
      case 'r' => Some(("\r", 1))
      case 't' => Some(("\t", 1))
      case 'u' =>
        var u := Hex4(s[1..]);
        if u < 0 || 0xDC00 <= u < 0xE000 then None
        else if u < 0xD800 || u >= 0xE000 then Some((EncodeRune(u), 5))
        else
          var low := if |s| >= 11 && s[5] == '\\' && s[6] == 'u' then Hex4(s[7..]) else -1;
          if 0xDC00 <= low < 0xE000 then Some((EncodeRune(0x1_0000 + (u - 0xD800) * 0x400 + (low - 0xDC00)), 11))
          else None
      case _ => None
  }

  // Reads string content up to the closing quotation mark: the text and what
  // follows it, or None when this is no legal JSON string.
  function Unquote(t: string): (r: Option<(string, string)>)
    ensures r.Some? ==> |r.value.1| < |t|
  {
    if t == "" then None
    else if t[0] == '"' then Some(("", t[1..]))
    else if t[0] == '\\' then
      match Unescape(t[1..]) {
        case None => None
        case Some((text, n)) => Prepend(text, Unquote(t[1 + n..]))
      }
    else if t[0] as int < 0x20 || RuneSize(t) == 0 then None
    else Prepend(t[..RuneSize(t)], Unquote(t[RuneSize(t)..]))
  }

  function Prepend(text: string, r: Option<(string, string)>): Option<(string, string)> {
    match r
    case None => None
    case Some((more, rest)) => Some((text + more, rest))
  }

  /// Decoding values (sections 3 to 6 of RFC 8259)

  predicate NumberChar(c: char) {
    '0' <= c <= '9' || c in "+-.eE"
  }

  function NumberSpan(s: string): (n: nat)
    ensures n <= |s|
  {
    if s != "" && NumberChar(s[0]) then 1 + NumberSpan(s[1..]) else 0
  }

  function DigitSpan(s: string): (n: nat)
    ensures n <= |s|
  {
    if s != "" && '0' <= s[0] <= '9' then 1 + DigitSpan(s[1..]) else 0
  }

  // number = [ minus ] int [ frac ] [ exp ]
  predicate WellFormedNumber(s: string) {
    if s != "" && s[0] == '-' then UnsignedNumber(s[1..]) else UnsignedNumber(s)
  }

  predicate UnsignedNumber(s: string) {
    var n := DigitSpan(s);
    n > 0 && (s[0] == '0' ==> n == 1) && Fraction(s[n..])
  }

  predicate Fraction(s: string) {
    if s != "" && s[0] == '.' then
      var n := DigitSpan(s[1..]);
      n > 0 && Exponent(s[1 + n..])
    else Exponent(s)
  }

  predicate Exponent(s: string) {
    if s == "" then true
    else
      && s[0] in "eE"
      && var digits := if |s| > 1 && s[1] in "+-" then s[2..] else s[1..];
        digits != "" && DigitSpan(digits) == |digits|
  }

  function Parse(s: string): (r: Option<(Json, string)>)
    ensures r.Some? ==> |r.value.1| < |s|
    decreases |s|, 1
  {
    if s == "" then None
    else if "null" <= s then Some((Null, s[4..]))
    else if "true" <= s then Some((Bool(true), s[4..]))
    else if "false" <= s then Some((Bool(false), s[5..]))
    else match s[0]
      case '"' =>
        (match Unquote(s[1..])
         case None => None
         case Some((text, rest)) => Some((Str(text), rest)))
      case '[' =>
        if |s| > 1 && s[1] == ']' then Some((Arr([]), s[2..])) else ParseItems(s[1..], [])
      case '{' =>
        if |s| > 1 && s[1] == '}' then Some((Obj(map[]), s[2..])) else ParseFields(s[1..], map[])
      case _ =>
        var n := NumberSpan(s);
        if n > 0 && WellFormedNumber(s[..n]) then Some((Num(s[..n]), s[n..])) else None
  }

  function ParseItems(s: string, before: seq<Json>): (r: Option<(Json, string)>)
    ensures r.Some? ==> |r.value.1| < |s|
    decreases |s|, 2
  {
    match Parse(s)
    case None => None
    case Some((item, rest)) =>
      if rest != "" && rest[0] == ',' then ParseItems(rest[1..], before + [item])
      else if rest != "" && rest[0] == ']' then Some((Arr(before + [item]), rest[1..]))
      else None
  }

  function ParseFields(s: string, before: map<string, Json>): (r: Option<(Json, string)>)
    ensures r.Some? ==> |r.value.1| < |s|
    decreases |s|, 2
  {
    if s == "" || s[0] != '"' then None
    else match Unquote(s[1..])
      case None => None
      case Some((key, rest)) =>
        if rest == "" || rest[0] != ':' then None
        else match Parse(rest[1..])
          case None => None
          case Some((value, more)) =>
            if more != "" && more[0] == ',' then ParseFields(more[1..], before[key := value])
            else if more != "" && more[0] == '}' then Some((Obj(before[key := value]), more[1..]))
            else None
  }

  // A whole JSON text.
  function Decode(s: string): Option<Json> {
    match Parse(s)
    case None => None
    case Some((j, rest)) => if rest == "" then Some(j) else None
  }
}
