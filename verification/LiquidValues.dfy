/** Value semantics of the Liquid subset (internal/liquid/value.go, render.go). */
module LiquidValues {
  import opened Options
  import opened LiquidSyntax
  import Decimals
  import SortedStrings
  import Utf8

  // What the renderer takes from Go's libraries: the float and integer readings
  // of a number token, and the text of a map, which SDKs leave unspecified.
  datatype Library = Library(
    float: string -> Option<real>,
    int64: string -> Option<int>,
    mapText: map<string, Value> -> string)

  predicate Truthy(v: Value) {
    match v
    case Nil => false
    case Bool(b) => b
    case _ => true
  }

  // The emptiness the default filter and `empty` react to.
  predicate Blank(v: Value) {
    match v
    case Nil => true
    case Bool(b) => !b
    case Str(s) => s == ""
    case List(items) => items == []
    case Map(entries) => entries == map[]
    case _ => false
  }

  function SizeOf(v: Value): nat {
    match v
    case Str(s) => Utf8.RuneCount(s)
    case List(items) => |items|
    case Map(entries) => |entries|
    case _ => 0
  }

  function IntText(i: int): string {
    if i < 0 then "-" + Decimals.Decimal(-i) else Decimals.Decimal(i)
  }

  function Number(i: int): Value {
    Num(IntText(i))
  }

  function ToString(lib: Library, v: Value): string
    decreases v, 1
  {
    match v
    case Nil => ""
    case Bool(b) => if b then "true" else "false"
    case Str(s) => s
    case Num(token) => token
    case List(items) => ToStrings(lib, items)
    case Map(entries) => lib.mapText(entries)
    case Empty => "{}"
  }

  function ToStrings(lib: Library, items: seq<Value>): string
    decreases items, 0
  {
    if items == [] then "" else ToString(lib, items[0]) + ToStrings(lib, items[1..])
  }

  function Joined(lib: Library, items: seq<Value>, sep: string): string {
    if items == [] then ""
    else if |items| == 1 then ToString(lib, items[0])
    else ToString(lib, items[0]) + sep + Joined(lib, items[1..], sep)
  }

  function NumberOf(lib: Library, v: Value): Option<real> {
    if v.Num? then lib.float(v.token) else None
  }

  predicate ValuesEqual(lib: Library, l: Value, r: Value)
    decreases l
  {
    if r.Empty? then Blank(l)
    else if l.Empty? then Blank(r)
    else if l.Nil? || r.Nil? then l.Nil? && r.Nil?
    else if NumberOf(lib, l).Some? && NumberOf(lib, r).Some? then NumberOf(lib, l) == NumberOf(lib, r)
    else match l
      case Str(s) => r == Str(s)
      case Bool(b) => r == Bool(b)
      case List(items) =>
        r.List? && |items| == |r.items| && forall i :: 0 <= i < |items| ==> ValuesEqual(lib, items[i], r.items[i])
      case _ => false
  }

  predicate Substring(h: string, n: string) {
    n <= h || (h != "" && Substring(h[1..], n))
  }

  predicate ContainsValue(lib: Library, h: Value, n: Value) {
    match h
    case Str(s) => Substring(s, ToString(lib, n))
    case List(items) => exists i :: 0 <= i < |items| && ValuesEqual(lib, items[i], n)
    case _ => false
  }

  predicate Ordered(op: Op, less: bool, equal: bool) {
    match op
    case Gt => !less && !equal
    case Lt => less
    case Ge => !less
    case Le => less || equal
    case _ => false
  }

  predicate Compared(lib: Library, op: Op, l: Value, r: Value) {
    match op
    case Eq => ValuesEqual(lib, l, r)
    case Ne => !ValuesEqual(lib, l, r)
    case Contains => ContainsValue(lib, l, r)
    case _ =>
      var ln, rn := NumberOf(lib, l), NumberOf(lib, r);
      if ln.Some? && rn.Some? then Ordered(op, ln.value < rn.value, ln.value == rn.value)
      else if l.Str? && r.Str? then Ordered(op, l.s != r.s && SortedStrings.Leq(l.s, r.s), l.s == r.s)
      else false
  }

  function IndexValue(lib: Library, container: Value, key: Value): Option<Value> {
    match container
    case Map(entries) =>
      var k := ToString(lib, key);
      if k in entries then Some(entries[k]) else None
    case List(items) =>
      if key.Num? then
        match lib.int64(key.token) {
          case None => None
          case Some(n) =>
            var i := if n < 0 then n + |items| else n;
            if 0 <= i < |items| then Some(items[i]) else None
        }
      else if key == Str("size") then Some(Number(|items|))
      else if key == Str("first") && items != [] then Some(items[0])
      else if key == Str("last") && items != [] then Some(items[|items| - 1])
      else None
    case Str(_) => if ToString(lib, key) == "size" then Some(Number(SizeOf(container))) else None
    case _ => None
  }

  // What a for loop runs over: a map as [key, value] pairs in key order, and
  // any other single value as itself.
  function Iterable(v: Value): seq<Value> {
    match v
    case Nil => []
    case List(items) => items
    case Map(entries) => Pairs(entries, SortedStrings.SortedKeys(entries.Keys))
    case _ => [v]
  }

  function Pairs(entries: map<string, Value>, keys: seq<string>): seq<Value>
    requires forall i :: 0 <= i < |keys| ==> keys[i] in entries
  {
    if keys == [] then [] else [List([Str(keys[0]), entries[keys[0]]])] + Pairs(entries, keys[1..])
  }
}
