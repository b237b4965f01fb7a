/**
 What template sources mean, character by character: the nodes a source parses
 to are given by what its parts parse to, and so is the text it renders to
 (internal/liquid/parse.go).
 */
module LiquidSource {
  import opened Options
  import opened LiquidSyntax
  import opened LiquidGrammar
  import opened LiquidParser
  import opened LiquidLexer
  import opened LiquidNesting
  import opened Spaces
  import LiquidExpressions
  import LiquidScanner
  import LiquidWords

  function Tagged(s: string): string {
    "{% " + s + " %}"
  }

  function Shown(s: string): string {
    "{{ " + s + " }}"
  }

  // What follows it cannot turn the end of a into an opening.
  predicate EndsPlainly(a: string) {
    a == "" || a[|a| - 1] != '{'
  }

  // The text can stand in a tag or an output closed by c and a brace.
  predicate Inside(s: string, c: char) {
    s != "" && TrimSpace(s) == s && forall i :: 0 <= i < |s| - 1 ==> !(s[i] == c && s[i + 1] == '}')
  }

  /// Sources side by side

  lemma {:induction false} OpenStays(a: string, tail: string)
    requires FindOpen(a) < |a|
    ensures FindOpen(a + tail) == FindOpen(a)
  {
    if OpensAt(a, 0) {
      assert OpensAt(a + tail, 0);
    } else {
      assert (a + tail)[1..] == a[1..] + tail;
      OpenStays(a[1..], tail);
      assert !OpensAt(a + tail, 0);
    }
  }

  lemma {:induction false} CloseStays(s: string, c: char, tail: string)
    requires FindClose(s, c) < |s|
    ensures FindClose(s + tail, c) == FindClose(s, c)
  {
    if s[0] != c || s[1] != '}' {
      assert (s + tail)[1..] == s[1..] + tail;
      CloseStays(s[1..], c, tail);
    }
  }

  lemma {:induction false} OpenAfter(a: string, tail: string)
    requires FindOpen(a) == |a| && EndsPlainly(a) && OpensAt(tail, 0)
    ensures FindOpen(a + tail) == |a|
  {
    if a == "" {
      assert a + tail == tail;
    } else {
      assert (a + tail)[1..] == a[1..] + tail && !OpensAt(a, 0);
      OpenAfter(a[1..], tail);
      assert !OpensAt(a + tail, 0);
    }
  }

  // What the front of a gives, it gives in front of anything.
  lemma FrontStays(a: string, tail: string, trim: bool)
    requires FrontOf(a, trim).Front?
    ensures FrontOf(a + tail, trim) == FrontOf(a, trim)
  {
    hide FindOpen, FindClose, BodyOf, TextOf, LastDash;
    var s, open := a + tail, FindOpen(a);
    OpenStays(a, tail);
    var after := a[open + 2..];
    assert s[open + 2..] == after + tail && s[open + 1] == a[open + 1] && s[..open] == a[..open];
    var c := Closer(a[open + 1] == '%')[0];
    CloseStays(after, c, tail);
    var end := FindClose(after, c);
    assert (after + tail)[..end] == after[..end] && Dash(after + tail) == Dash(after);
  }

  // An opening without a dash takes nothing from the text before it.
  lemma FrontMeets(a: string, tail: string, trim: bool)
    requires FindOpen(a) == |a| && EndsPlainly(a) && OpensAt(tail, 0) && !Dash(tail[2..])
    ensures FrontOf(a + tail, trim) == match FrontOf(tail, false)
      case Front(pieces, size, dash) => Front(TextOf(a, trim, false) + pieces, |a| + size, dash)
      case AllText(pieces) => AllText(TextOf(a, trim, false) + pieces)
      case Unclosed(closer) => Unclosed(closer)
  {
    OpenAfter(a, tail);
    assert FindOpen(tail) == 0 by { OpenAfter("", tail); assert "" + tail == tail; NothingOpens(); }
    Slices(a, tail);
    hide *;
    FrontsMeet(a, tail, a + tail, trim);
  }

  lemma FrontsMeet(a: string, tail: string, s: string, trim: bool)
    requires 1 < |tail| && |a| + 1 < |s| && FindOpen(s) == |a| && FindOpen(tail) == 0 && !Dash(tail[2..])
    requires s[|a| + 2..] == tail[2..] && s[|a| + 1] == tail[1] && s[..|a|] == a
    ensures FrontOf(s, trim) == match FrontOf(tail, false)
      case Front(pieces, size, dash) => Front(TextOf(a, trim, false) + pieces, |a| + size, dash)
      case AllText(pieces) => AllText(TextOf(a, trim, false) + pieces)
      case Unclosed(closer) => Unclosed(closer)
  {
    hide *;
    var p := FrontUnfolds(s, trim, |a|, tail[2..]);
    var r := FrontUnfolds(tail, false, 0, tail[2..]);
    assert p == r;
    assert TextOf(tail[..0], false, false) == [] by { TextAlone(""); assert tail[..0] == ""; }
    assert TextOf(a, trim, false) + ([] + [p]) == TextOf(a, trim, false) + [p];
  }

  lemma FrontUnfolds(s: string, trim: bool, open: nat, after: string) returns (p: Piece)
    requires FindOpen(s) == open < |s| && open + 1 < |s| && after == s[open + 2..]
    ensures var tag := s[open + 1] == '%';
      var end := FindClose(after, Closer(tag)[0]);
      && p == MakePiece(tag, BodyOf(after[..end], Dash(after)))
      && FrontOf(s, trim) == if end == |after| then Unclosed(Closer(tag))
        else Front(TextOf(s[..open], trim, Dash(after)) + [p], open + 2 + end + 2, LastDash(after[..end]))
  {
    hide FindOpen, FindClose, BodyOf, LastDash, Dash, TextOf, MakePiece, OpensAt;
    var tag := s[open + 1] == '%';
    p := MakePiece(tag, BodyOf(after[..FindClose(after, Closer(tag)[0])], Dash(after)));
  }

  lemma NothingOpens()
    ensures FindOpen("") == 0
  {
  }

  // A source in front of such an opening is read first.
  lemma {:induction false} LexBefore(a: string, tail: string, trim: bool)
    requires LexFrom(a, trim).Ok? && EndsPlainly(a) && OpensAt(tail, 0) && !Dash(tail[2..])
    ensures LexFrom(a + tail, trim) == Join(LexFrom(a, trim).value, LexFrom(tail, false))
    decreases |a|
  {
    hide FrontOf, Dash, TextOf, FindOpen;
    var last := LexFrom(tail, false);
    JoinNothing(last);
    if a == "" {
      assert a + tail == tail;
      TrimmedTail(tail, trim);
    } else if FrontOf(a, trim).Front? {
      var f := FrontOf(a, trim);
      FrontStays(a, tail, trim);
      assert (a + tail)[f.size..] == a[f.size..] + tail;
      LexBefore(a[f.size..], tail, f.trimNext);
      JoinTwice(f.pieces, LexFrom(a[f.size..], f.trimNext).value, last);
    } else {
      AllTextIs(a, trim);
      FrontMeets(a, tail, trim);
      var f := FrontOf(tail, false);
      if f.Front? {
        assert (a + tail)[|a| + f.size..] == tail[f.size..];
        JoinTwice(TextOf(a, trim, false), f.pieces, LexFrom(tail[f.size..], f.trimNext));
      }
    }
  }

  lemma AllTextIs(a: string, trim: bool)
    requires FrontOf(a, trim).AllText?
    ensures FindOpen(a) == |a| && FrontOf(a, trim) == AllText(TextOf(a, trim, false))
  {
    hide FindOpen, TextOf;
  }

  lemma TrimmedTail(tail: string, trim: bool)
    requires OpensAt(tail, 0) && !Dash(tail[2..])
    ensures LexFrom(tail, trim) == LexFrom(tail, false)
  {
    hide FrontOf, Dash, FindOpen;
    NothingOpens();
    assert "" + tail == tail;
    FrontMeets("", tail, trim);
    FrontMeets("", tail, false);
  }

  // A tag or an output in front of a source is read first.
  lemma LexTag(s: string, rest: string)
    requires Inside(s, '%')
    ensures LexFrom(Tagged(s) + rest, false) == Join([TagPiece(s)], LexFrom(rest, false))
  {
    hide LexFrom, FrontOf, Join;
    LexOne("", TagPiece(s), rest);
    assert "" + (PrintPiece(TagPiece(s)) + rest) == Tagged(s) + rest && [] + [TagPiece(s)] == [TagPiece(s)];
  }

  lemma LexShown(s: string, rest: string)
    requires Inside(s, '}')
    ensures LexFrom(Shown(s) + rest, false) == Join([OutPiece(s)], LexFrom(rest, false))
  {
    hide LexFrom, FrontOf, Join;
    LexOne("", OutPiece(s), rest);
    assert "" + (PrintPiece(OutPiece(s)) + rest) == Shown(s) + rest && [] + [OutPiece(s)] == [OutPiece(s)];
  }

  lemma TagOpens(s: string, rest: string)
    ensures var t := Tagged(s) + rest; OpensAt(t, 0) && !Dash(t[2..])
    ensures var t := Shown(s) + rest; OpensAt(t, 0) && !Dash(t[2..])
  {
    assert (Tagged(s) + rest)[2] == ' ' && (Shown(s) + rest)[2] == ' ';
  }

  /// The trees a source is read as

  ghost predicate Means(q: Quoting, src: string, ts: seq<Tree>) {
    var r := LexFrom(src, false);
    r.Ok? && ValidAll(ts) && Reads(q, r.value, FlatAll(ts))
  }

  lemma Understood(q: Quoting, src: string, nodes: seq<Node>) returns (ts: seq<Tree>)
    requires TemplateOf(q, src) == LiquidScanner.Ok(nodes)
    ensures Means(q, src, ts) && TrimAll(ts) == nodes
  {
    hide LexFrom, ReadTemplate, ValidAll, FlatAll, TrimAll, Reads;
    var ps := LexFrom(src, false).value;
    TemplateExact(q, ps, nodes);
    ts :| ValidAll(ts) && Reads(q, ps, FlatAll(ts)) && TrimAll(ts) == nodes;
  }

  lemma MeansNodes(q: Quoting, src: string, ts: seq<Tree>)
    requires Means(q, src, ts)
    ensures TemplateOf(q, src) == LiquidScanner.Ok(TrimAll(ts))
  {
    hide LexFrom, ReadTemplate, ValidAll, FlatAll, TrimAll, Reads;
    TemplateExact(q, LexFrom(src, false).value, TrimAll(ts));
  }

  lemma {:induction false} TreesConcat(a: seq<Tree>, b: seq<Tree>)
    requires ValidAll(a) && ValidAll(b)
    ensures ValidAll(a + b) && FlatAll(a + b) == FlatAll(a) + FlatAll(b) && TrimAll(a + b) == TrimAll(a) + TrimAll(b)
  {
    hide Valid, Flat, Trim, FlatAll, TrimAll;
    if a == [] {
      NoTrees();
      assert a + b == b && [] + FlatAll(b) == FlatAll(b) && [] + TrimAll(b) == TrimAll(b);
    } else {
      assert a == [a[0]] + a[1..] && a + b == [a[0]] + (a[1..] + b);
      TreesConcat(a[1..], b);
      FirstTree(a[0], a[1..]);
      FirstTree(a[0], a[1..] + b);
    }
  }

  lemma NoTrees()
    ensures FlatAll([]) == [] && TrimAll([]) == []
  {
  }

  lemma FirstTree(t: Tree, ts: seq<Tree>)
    requires Valid(t) && ValidAll(ts)
    ensures ValidAll([t] + ts)
    ensures FlatAll([t] + ts) == Flat(t) + FlatAll(ts) && TrimAll([t] + ts) == [Trim(t)] + TrimAll(ts)
  {
    hide Valid, Flat, Trim;
    assert ([t] + ts)[1..] == ts;
  }

  // One source after another, when the second starts with an opening.
  lemma Followed(q: Quoting, a: string, tail: string, an: seq<Node>, tn: seq<Node>)
    requires TemplateOf(q, a) == LiquidScanner.Ok(an) && TemplateOf(q, tail) == LiquidScanner.Ok(tn)
    requires EndsPlainly(a) && OpensAt(tail, 0) && !Dash(tail[2..])
    ensures TemplateOf(q, a + tail) == LiquidScanner.Ok(an + tn)
  {
    hide LexFrom, TemplateOf, ValidAll, FlatAll, TrimAll, Reads, Dash, Valid;
    var x := Understood(q, a, an);
    var y := Understood(q, tail, tn);
    LexBefore(a, tail, false);
    TreesConcat(x, y);
    ReadsConcat(q, LexFrom(a, false).value, LexFrom(tail, false).value, FlatAll(x), FlatAll(y));
    MeansNodes(q, a + tail, x + y);
  }

  // Text without an opening is itself, and no source is no nodes.
  lemma TextMeans(q: Quoting, text: string)
    requires EndsPlainly(text) && forall i :: 0 <= i < |text| ==> !OpensAt(text, i)
    ensures TemplateOf(q, text) == LiquidScanner.Ok(if text == "" then [] else [Text(text)])
  {
    hide LexFrom;
    if text == "" {
      LexNothing();
      NoPieces(q);
    } else {
      LexText(text);
      OnePlain(q, text, TextPiece(text), TextItem(text));
    }
  }

  lemma NoPieces(q: Quoting)
    ensures ReadTemplate(q, []) == LiquidScanner.Ok([])
  {
  }

  lemma Single(t: Tree)
    requires Valid(t)
    ensures ValidAll([t]) && FlatAll([t]) == Flat(t) && TrimAll([t]) == [Trim(t)]
  {
    hide Valid, Flat, Trim;
    assert [t][1..] == [];
  }

  lemma OnePlain(q: Quoting, src: string, p: Piece, item: Item)
    requires PlainItem(item) && ItemOf(q, p) == Some(item) && LexFrom(src, false) == LiquidScanner.Ok([p])
    ensures TemplateOf(q, src) == LiquidScanner.Ok([PlainNode(item)])
  {
    hide LexFrom, ItemOf, ValidAll, FlatAll, TrimAll, TemplateOf;
    Single(Plain(item));
    ReadsOne(q, p, item);
    MeansNodes(q, src, [Plain(item)]);
  }

  // A piece that is a node of its own, in front of a source.
  lemma PlainBefore(q: Quoting, src: string, p: Piece, item: Item, rest: string, nodes: seq<Node>)
    requires PlainItem(item) && ItemOf(q, p) == Some(item) && TemplateOf(q, rest) == LiquidScanner.Ok(nodes)
    requires LexFrom(src, false) == Join([p], LexFrom(rest, false))
    ensures TemplateOf(q, src) == LiquidScanner.Ok([PlainNode(item)] + nodes)
  {
    hide LexFrom, ItemOf, ValidAll, FlatAll, TrimAll, TemplateOf, Reads;
    var ts := Understood(q, rest, nodes);
    Single(Plain(item));
    TreesConcat([Plain(item)], ts);
    ReadsOne(q, p, item);
    ReadsConcat(q, [p], LexFrom(rest, false).value, [item], FlatAll(ts));
    MeansNodes(q, src, [Plain(item)] + ts);
  }

  /// Tags and what they are called

  // The text of a tag or of an output can be cut from the blanks around it.
  lemma TrimmedEnds(c: string)
    requires c != "" && TrimSpace(c) == c
    ensures SpaceSize(c) == 0 && SpaceEnd(c) == 0 && TrimLeft(c) == c
  {
    assert |TrimLeft(c)| == |c|;
    TrimmedLeft(c);
  }

  lemma NameAndArgument(name: string, c: string)
    requires LiquidWords.Name(name) && Inside(c, '%')
    ensures Inside(name + " " + c, '%') && SplitTag(name + " " + c) == Split(name, c)
  {
    NameTrims(name, c);
    ClosesNowhere(name, c);
    BlankFound(name, c);
    hide TrimSpace, LiquidWords.Name;
    SplitNamed(name, c);
  }

  lemma SplitNamed(name: string, c: string)
    requires TrimSpace(name + " " + c) == name + " " + c && TrimSpace(" " + c) == c
    requires IndexOf(name + " " + c, LiquidScanner.Blank) == |name|
    ensures SplitTag(name + " " + c) == Split(name, c)
  {
    hide TrimSpace, IndexOf, LiquidScanner.Blank;
    var s := name + " " + c;
    assert s[..|name|] == name && s[|name|..] == " " + c;
  }

  lemma NameTrims(name: string, c: string)
    requires LiquidWords.Name(name) && c != "" && TrimSpace(c) == c
    ensures TrimSpace(name + " " + c) == name + " " + c && TrimSpace(" " + c) == c
  {
    var s := name + " " + c;
    TrimmedEnds(c);
    assert SpaceSize(s) == 0;
    EndKept(name + " ", c);
    hide SpaceSize, SpaceEnd;
    BlankBefore(c);
  }

  lemma ClosesNowhere(name: string, c: string)
    requires LiquidWords.Name(name) && Inside(c, '%')
    ensures var s := name + " " + c; forall i :: 0 <= i < |s| - 1 ==> !(s[i] == '%' && s[i + 1] == '}')
  {
    var s, n := name + " " + c, |name| + 1;
    forall i | 0 <= i < |s| - 1 ensures !(s[i] == '%' && s[i + 1] == '}') {
      if i < n {
        assert s[i] != '%' by { assert i < |name| ==> s[i] == name[i]; }
      } else {
        assert s[i] == c[i - n] && s[i + 1] == c[i + 1 - n];
      }
    }
  }

  lemma EndKept(a: string, c: string)
    requires c != "" && SpaceEnd(c) == 0 && a != "" && a[|a| - 1] == ' '
    ensures SpaceEnd(a + c) == 0
  {
    var s := a + c;
    assert s[|s| - 1] == c[|c| - 1];
    assert |c| > 1 ==> s[|s| - 2] == c[|c| - 2];
    assert |c| > 2 ==> s[|s| - 3] == c[|c| - 3];
    assert |c| == 1 ==> s[|s| - 2] == ' ';
    assert |c| == 2 ==> s[|s| - 3] == ' ';
  }

  lemma {:induction false} BlankFound(name: string, c: string)
    requires forall i :: 0 <= i < |name| ==> !LiquidScanner.Blank(name[i])
    ensures IndexOf(name + " " + c, LiquidScanner.Blank) == |name|
  {
    var s := name + " " + c;
    if name == "" {
      assert s == " " + c;
    } else {
      assert s[0] == name[0] && s[1..] == name[1..] + " " + c;
      BlankFound(name[1..], c);
    }
  }

  lemma BareName(name: string)
    requires LiquidWords.Name(name)
    ensures Inside(name, '%') && SplitTag(name) == Split(name, "")
  {
    assert SpaceSize(name) == 0 && SpaceEnd(name) == 0;
    assert TrimSpace(name) == name;
    NoBlank(name);
  }

  lemma {:induction false} NoBlank(name: string)
    requires forall i :: 0 <= i < |name| ==> !LiquidScanner.Blank(name[i])
    ensures IndexOf(name, LiquidScanner.Blank) == |name|
  {
    if name != "" { NoBlank(name[1..]); }
  }

  /// Blocks

  // The source reads, piece by piece, as these items.
  ghost predicate Says(q: Quoting, src: string, items: seq<Item>) {
    LexFrom(src, false).Ok? && Reads(q, LexFrom(src, false).value, items)
  }

  lemma SaysTag(q: Quoting, s: string, item: Item, tail: string, items: seq<Item>)
    requires Inside(s, '%') && ItemOf(q, TagPiece(s)) == Some(item) && Says(q, tail, items)
    ensures Says(q, Tagged(s) + tail, [item] + items)
    ensures OpensAt(Tagged(s) + tail, 0) && !Dash((Tagged(s) + tail)[2..])
  {
    hide LexFrom, ItemOf, Reads, Inside;
    TagOpens(s, tail);
    hide OpensAt, Dash, Tagged;
    LexTag(s, tail);
    ReadsOne(q, TagPiece(s), item);
    ReadsConcat(q, [TagPiece(s)], LexFrom(tail, false).value, [item], items);
  }

  lemma SaysBefore(q: Quoting, a: string, x: seq<Item>, tail: string, items: seq<Item>)
    requires Says(q, a, x) && Says(q, tail, items) && EndsPlainly(a) && OpensAt(tail, 0) && !Dash(tail[2..])
    ensures Says(q, a + tail, x + items)
  {
    hide LexFrom, Reads, EndsPlainly, OpensAt, Dash;
    LexBefore(a, tail, false);
    ReadsConcat(q, LexFrom(a, false).value, LexFrom(tail, false).value, x, items);
  }

  lemma TagItems(q: Quoting, c: string, x: Expr, v: Loop, n: Node)
    requires Inside(c, '%')
    ensures LiquidExpressions.ConditionOf(q, c) == LiquidScanner.Ok(x) ==>
      && ItemOf(q, TagPiece("if " + c)) == Some(IfItem(x)) && ItemOf(q, TagPiece("elsif " + c)) == Some(ElsifItem(x))
      && ItemOf(q, TagPiece("unless " + c)) == Some(UnlessItem(x))
    ensures ForOf(q, c) == LiquidScanner.Ok(v) ==> ItemOf(q, TagPiece("for " + c)) == Some(ForItem(v))
    ensures AssignOf(q, c) == LiquidScanner.Ok(n) ==> ItemOf(q, TagPiece("assign " + c)) == Some(AssignItem(n))
    ensures Inside("if " + c, '%') && Inside("elsif " + c, '%') && Inside("unless " + c, '%') && Inside("for " + c, '%')
    ensures Inside("assign " + c, '%')
  {
    hide SplitTag, Inside, LiquidExpressions.ConditionOf, ForOf, AssignOf;
    NameAndArgument("if", c);
    assert "if" + " " + c == "if " + c;
    NameAndArgument("elsif", c);
    assert "elsif" + " " + c == "elsif " + c;
    NameAndArgument("unless", c);
    assert "unless" + " " + c == "unless " + c;
    NameAndArgument("for", c);
    assert "for" + " " + c == "for " + c;
    NameAndArgument("assign", c);
    assert "assign" + " " + c == "assign " + c;
  }

  lemma BareItems(q: Quoting)
    ensures Inside("else", '%') && ItemOf(q, TagPiece("else")) == Some(ElseItem)
    ensures Inside("endif", '%') && ItemOf(q, TagPiece("endif")) == Some(EndIf)
    ensures Inside("endunless", '%') && ItemOf(q, TagPiece("endunless")) == Some(EndUnless)
    ensures Inside("endfor", '%') && ItemOf(q, TagPiece("endfor")) == Some(EndFor)
  {
    hide SplitTag, Inside, LiquidWords.Name;
    EndingNames();
    BareName("else");
    BareName("endif");
    BareName("endunless");
    BareName("endfor");
  }

  lemma EndingNames()
    ensures forall s | s in ["else", "endif", "endunless", "endfor"] :: LiquidWords.Name(s)
  {
  }

  lemma LeavingItems(q: Quoting)
    ensures Inside("break", '%') && ItemOf(q, TagPiece("break")) == Some(BreakItem)
    ensures Inside("continue", '%') && ItemOf(q, TagPiece("continue")) == Some(ContinueItem)
  {
    hide SplitTag, Inside;
    BareName("break");
    BareName("continue");
  }

  // The block t and what follows it, from the items of its pieces.
  lemma BlockMeans(q: Quoting, src: string, t: Tree, rest: seq<Tree>, items: seq<Item>)
    requires Valid(t) && ValidAll(rest) && Says(q, src, items) && items == Flat(t) + FlatAll(rest)
    ensures TemplateOf(q, src) == LiquidScanner.Ok([Trim(t)] + TrimAll(rest))
  {
    hide LexFrom, Reads, Valid, ValidAll, Flat, FlatAll, Trim, TrimAll, TemplateOf;
    FirstTree(t, rest);
    MeansNodes(q, src, [t] + rest);
  }

  // A body, its closing tag and what follows it.
  lemma BodyAndEnd(q: Quoting, b: string, bn: seq<Node>, end: string, item: Item, tail: string, items: seq<Item>)
    returns (ts: seq<Tree>)
    requires TemplateOf(q, b) == LiquidScanner.Ok(bn) && EndsPlainly(b)
    requires Inside(end, '%') && ItemOf(q, TagPiece(end)) == Some(item) && Says(q, tail, items)
    ensures ValidAll(ts) && TrimAll(ts) == bn && Says(q, b + (Tagged(end) + tail), FlatAll(ts) + ([item] + items))
  {
    hide LexFrom, Reads, TemplateOf, ItemOf, Inside, Dash, OpensAt, Tagged, ValidAll, FlatAll, TrimAll, EndsPlainly;
    ts := Understood(q, b, bn);
    SaysTag(q, end, item, tail, items);
    SaysBefore(q, b, FlatAll(ts), Tagged(end) + tail, [item] + items);
  }

  // `{% if c %}b{% else %}e{% endif %}` and what follows it.
  lemma IfElseMeans(q: Quoting, c: string, b: string, e: string, rest: string, x: Expr, bn: seq<Node>, en: seq<Node>,
      nodes: seq<Node>)
    requires Inside(c, '%') && LiquidExpressions.ConditionOf(q, c) == LiquidScanner.Ok(x)
    requires TemplateOf(q, b) == LiquidScanner.Ok(bn) && TemplateOf(q, e) == LiquidScanner.Ok(en)
    requires EndsPlainly(b) && EndsPlainly(e) && TemplateOf(q, rest) == LiquidScanner.Ok(nodes)
    ensures TemplateOf(q, Tagged("if " + c) + (b + (Tagged("else") + (e + (Tagged("endif") + rest)))))
      == LiquidScanner.Ok([If([Branch(x, RemoveBlankText(bn))], RemoveBlankText(en))] + nodes)
  {
    var tr := Understood(q, rest, nodes);
    hide *;
    RestSays(q, rest, tr);
    BareItems(q);
    TagItems(q, c, x, Loop("", x), Break);
    var te := BodyAndEnd(q, e, en, "endif", EndIf, rest, FlatAll(tr));
    var s4 := e + (Tagged("endif") + rest);
    var tb := BodyAndEnd(q, b, bn, "else", ElseItem, s4, FlatAll(te) + ([EndIf] + FlatAll(tr)));
    var s2 := b + (Tagged("else") + s4);
    SaysTag(q, "if " + c, IfItem(x), s2, FlatAll(tb) + ([ElseItem] + (FlatAll(te) + ([EndIf] + FlatAll(tr)))));
    var t := IfTree(Arm(x, tb), [], Else(te));
    IfFlat(t, FlatAll(tr));
    BlockMeans(q, Tagged("if " + c) + s2, t, tr, Flat(t) + FlatAll(tr));
  }

  lemma RestSays(q: Quoting, rest: string, tr: seq<Tree>)
    requires Means(q, rest, tr)
    ensures Says(q, rest, FlatAll(tr)) && ValidAll(tr)
  {
    hide LexFrom, Reads, ValidAll, FlatAll;
  }

  lemma IfFlat(t: Tree, z: seq<Item>)
    requires t.IfTree? && t.more == [] && t.other.Else? && ValidAll(t.first.body) && ValidAll(t.other.body)
    ensures Valid(t) && Trim(t)
      == If([Branch(t.first.cond, RemoveBlankText(TrimAll(t.first.body)))], RemoveBlankText(TrimAll(t.other.body)))
    ensures Flat(t) + z
      == [IfItem(t.first.cond)] + (FlatAll(t.first.body) + ([ElseItem] + (FlatAll(t.other.body) + ([EndIf] + z))))
  {
    hide RemoveBlankText, FlatAll, TrimAll, ValidAll;
    NoArms();
    assert TrimArms([]) == [];
  }

  lemma NoArms()
    ensures FlatArms([]) == [] && ValidArms([]) && TrimArms([]) == []
  {
  }

  // `{% if c %}b{% endif %}` and what follows it.
  lemma IfMeans(q: Quoting, c: string, b: string, rest: string, x: Expr, bn: seq<Node>, nodes: seq<Node>)
    requires Inside(c, '%') && LiquidExpressions.ConditionOf(q, c) == LiquidScanner.Ok(x)
    requires TemplateOf(q, b) == LiquidScanner.Ok(bn) && EndsPlainly(b)
    requires TemplateOf(q, rest) == LiquidScanner.Ok(nodes)
    ensures TemplateOf(q, Tagged("if " + c) + (b + (Tagged("endif") + rest)))
      == LiquidScanner.Ok([If([Branch(x, RemoveBlankText(bn))], [])] + nodes)
  {
    var tr := Understood(q, rest, nodes);
    hide *;
    RestSays(q, rest, tr);
    BareItems(q);
    TagItems(q, c, x, Loop("", x), Break);
    var tb := BodyAndEnd(q, b, bn, "endif", EndIf, rest, FlatAll(tr));
    var s2 := b + (Tagged("endif") + rest);
    SaysTag(q, "if " + c, IfItem(x), s2, FlatAll(tb) + ([EndIf] + FlatAll(tr)));
    var t := IfTree(Arm(x, tb), [], Absent);
    IfAloneFlat(t, FlatAll(tr));
    BlockMeans(q, Tagged("if " + c) + s2, t, tr, Flat(t) + FlatAll(tr));
  }

  lemma IfAloneFlat(t: Tree, z: seq<Item>)
    requires t.IfTree? && t.more == [] && t.other.Absent? && ValidAll(t.first.body)
    ensures Valid(t) && Trim(t) == If([Branch(t.first.cond, RemoveBlankText(TrimAll(t.first.body)))], [])
    ensures Flat(t) + z == [IfItem(t.first.cond)] + (FlatAll(t.first.body) + ([EndIf] + z))
  {
    hide RemoveBlankText, FlatAll, TrimAll, ValidAll;
    NoArms();
  }

  // `{% if c %}b{% elsif d %}…` is one more branch before those of `{% if d %}…`.
  lemma ElsifMeans(q: Quoting, c: string, b: string, d: string, more: string, x: Expr, y: Expr, bn: seq<Node>, n: Node,
      nodes: seq<Node>)
    requires Inside(c, '%') && LiquidExpressions.ConditionOf(q, c) == LiquidScanner.Ok(x)
    requires Inside(d, '%') && LiquidExpressions.ConditionOf(q, d) == LiquidScanner.Ok(y)
    requires TemplateOf(q, b) == LiquidScanner.Ok(bn) && EndsPlainly(b)
    requires n.If? && TemplateOf(q, Tagged("if " + d) + more) == LiquidScanner.Ok([n] + nodes)
    ensures TemplateOf(q, Tagged("if " + c) + (b + (Tagged("elsif " + d) + more)))
      == LiquidScanner.Ok([If([Branch(x, RemoveBlankText(bn))] + n.branches, n.elseBody)] + nodes)
  {
    var ts := Understood(q, Tagged("if " + d) + more, [n] + nodes);
    TagItems(q, c, x, Loop("", x), Break);
    TagItems(q, d, y, Loop("", y), Break);
    hide *;
    var t, tr := FirstIsIf(ts, n, nodes);
    RestSays(q, Tagged("if " + d) + more, ts);
    var z := AfterIf(q, d, y, more, t, tr, ts);
    var tb := BodyAndEnd(q, b, bn, "elsif " + d, ElsifItem(y), more, z);
    var s2 := b + (Tagged("elsif " + d) + more);
    SaysTag(q, "if " + c, IfItem(x), s2, FlatAll(tb) + ([ElsifItem(y)] + z));
    var u := IfTree(Arm(x, tb), [t.first] + t.more, t.other);
    ElsifFlat(t, u, FlatAll(tr), z);
    BlockMeans(q, Tagged("if " + c) + s2, u, tr, Flat(u) + FlatAll(tr));
  }

  lemma FirstIsIf(ts: seq<Tree>, n: Node, nodes: seq<Node>) returns (t: Tree, tr: seq<Tree>)
    requires ValidAll(ts) && TrimAll(ts) == [n] + nodes && n.If?
    ensures ts == [t] + tr && Valid(t) && ValidAll(tr) && t.IfTree? && Trim(t) == n && TrimAll(tr) == nodes
    ensures FlatAll(ts) == Flat(t) + FlatAll(tr)
  {
    hide Flat, FlatAll;
    assert ts != [] && TrimAll(ts)[0] == n && TrimAll(ts)[1..] == nodes;
    t, tr := ts[0], ts[1..];
    assert ts == [t] + tr && Valid(t) && ValidAll(tr);
    FirstTree(t, tr);
    assert ([Trim(t)] + TrimAll(tr))[1..] == TrimAll(tr);
    hide ValidAll, TrimAll, ValidArms, TrimArms, TrimOther, ValidOther, RemoveBlankText;
    assert t.IfTree?;
  }

  // What the pieces after `{% if d %}` read as.
  lemma AfterIf(q: Quoting, d: string, y: Expr, more: string, t: Tree, tr: seq<Tree>, ts: seq<Tree>)
    returns (z: seq<Item>)
    requires t.IfTree? && Says(q, Tagged("if " + d) + more, FlatAll(ts)) && FlatAll(ts) == Flat(t) + FlatAll(tr)
    requires Inside("if " + d, '%') && ItemOf(q, TagPiece("if " + d)) == Some(IfItem(y))
    ensures Says(q, more, z) && Flat(t) + FlatAll(tr) == [IfItem(y)] + z && t.first.cond == y
    ensures z == FlatAll(t.first.body) + FlatArms(t.more) + FlatOther(t.other) + [EndIf] + FlatAll(tr)
  {
    hide LexFrom, Reads, Inside, ItemOf, FlatAll, FlatArms, FlatOther;
    LexTag("if " + d, more);
    z := FlatAll(t.first.body) + FlatArms(t.more) + FlatOther(t.other) + [EndIf] + FlatAll(tr);
    assert Flat(t) + FlatAll(tr) == [IfItem(t.first.cond)] + z;
    var ps := LexFrom(Tagged("if " + d) + more, false).value;
    assert LexFrom(more, false).Ok? && ps == [TagPiece("if " + d)] + LexFrom(more, false).value;
    ReadsHead(q, ps, IfItem(t.first.cond), z);
    assert ps[1..] == LexFrom(more, false).value;
  }

  lemma ElsifFlat(t: Tree, u: Tree, r: seq<Item>, z: seq<Item>)
    requires t.IfTree? && Valid(t) && u.IfTree? && u.more == [t.first] + t.more && u.other == t.other
    requires ValidAll(u.first.body)
    requires z == FlatAll(t.first.body) + FlatArms(t.more) + FlatOther(t.other) + [EndIf] + r
    ensures Valid(u) && Trim(u)
      == If([Branch(u.first.cond, RemoveBlankText(TrimAll(u.first.body)))] + Trim(t).branches, Trim(t).elseBody)
    ensures Flat(u) + r == [IfItem(u.first.cond)] + (FlatAll(u.first.body) + ([ElsifItem(t.first.cond)] + z))
  {
    hide RemoveBlankText, FlatAll, TrimAll, ValidAll, FlatOther, TrimOther, ValidOther;
    FirstArm(t.first, t.more);
    hide FlatArms, TrimArms, ValidArms;
    assert Trim(t).branches == [TrimArm(t.first)] + TrimArms(t.more);
  }

  lemma FirstArm(a: Arm, arms: seq<Arm>)
    requires ValidArm(a) && ValidArms(arms)
    ensures ValidArms([a] + arms) && TrimArms([a] + arms) == [TrimArm(a)] + TrimArms(arms)
    ensures FlatArms([a] + arms) == [ElsifItem(a.cond)] + FlatAll(a.body) + FlatArms(arms)
  {
    hide FlatAll, ValidArm, TrimArm;
    assert ([a] + arms)[1..] == arms;
  }

  // `{% unless c %}b{% else %}e{% endunless %}` and what follows it.
  lemma UnlessElseMeans(q: Quoting, c: string, b: string, e: string, rest: string, x: Expr, bn: seq<Node>,
      en: seq<Node>, nodes: seq<Node>)
    requires Inside(c, '%') && LiquidExpressions.ConditionOf(q, c) == LiquidScanner.Ok(x)
    requires TemplateOf(q, b) == LiquidScanner.Ok(bn) && TemplateOf(q, e) == LiquidScanner.Ok(en)
    requires EndsPlainly(b) && EndsPlainly(e) && TemplateOf(q, rest) == LiquidScanner.Ok(nodes)
    ensures TemplateOf(q, Tagged("unless " + c) + (b + (Tagged("else") + (e + (Tagged("endunless") + rest)))))
      == LiquidScanner.Ok([Unless(x, RemoveBlankText(bn), RemoveBlankText(en))] + nodes)
  {
    TagItems(q, c, x, Loop("", x), Break);
    BareItems(q);
    hide *;
    var tr, tb, te := ElseBodies(q, "unless " + c, UnlessItem(x), b, e, rest, bn, en, nodes, "endunless", EndUnless);
    var t := UnlessTree(x, tb, Else(te));
    UnlessFlat(t, FlatAll(tr));
    assert Trim(t) == Unless(x, RemoveBlankText(bn), RemoveBlankText(en)) by { ElseTrim(t); }
    BlockMeans(q, Tagged("unless " + c) + (b + (Tagged("else") + (e + (Tagged("endunless") + rest)))), t, tr,
      Flat(t) + FlatAll(tr));
  }

  // `{% unless c %}b{% endunless %}` and what follows it.
  lemma UnlessMeans(q: Quoting, c: string, b: string, rest: string, x: Expr, bn: seq<Node>, nodes: seq<Node>)
    requires Inside(c, '%') && LiquidExpressions.ConditionOf(q, c) == LiquidScanner.Ok(x)
    requires TemplateOf(q, b) == LiquidScanner.Ok(bn) && EndsPlainly(b)
    requires TemplateOf(q, rest) == LiquidScanner.Ok(nodes)
    ensures TemplateOf(q, Tagged("unless " + c) + (b + (Tagged("endunless") + rest)))
      == LiquidScanner.Ok([Unless(x, RemoveBlankText(bn), [])] + nodes)
  {
    TagItems(q, c, x, Loop("", x), Break);
    BareItems(q);
    hide *;
    var tr, tb := OneBody(q, "unless " + c, UnlessItem(x), b, rest, bn, nodes, "endunless", EndUnless);
    var t := UnlessTree(x, tb, Absent);
    UnlessFlat(t, FlatAll(tr));
    assert Trim(t) == Unless(x, RemoveBlankText(bn), []) by { ElseTrim(t); }
    BlockMeans(q, Tagged("unless " + c) + (b + (Tagged("endunless") + rest)), t, tr, Flat(t) + FlatAll(tr));
  }

  // `{% for c %}b{% else %}e{% endfor %}` and what follows it.
  lemma ForElseMeans(q: Quoting, c: string, b: string, e: string, rest: string, v: Loop, bn: seq<Node>, en: seq<Node>,
      nodes: seq<Node>)
    requires Inside(c, '%') && ForOf(q, c) == LiquidScanner.Ok(v)
    requires TemplateOf(q, b) == LiquidScanner.Ok(bn) && TemplateOf(q, e) == LiquidScanner.Ok(en)
    requires EndsPlainly(b) && EndsPlainly(e) && TemplateOf(q, rest) == LiquidScanner.Ok(nodes)
    ensures TemplateOf(q, Tagged("for " + c) + (b + (Tagged("else") + (e + (Tagged("endfor") + rest)))))
      == LiquidScanner.Ok([For(v.varName, v.source, RemoveBlankText(bn), RemoveBlankText(en))] + nodes)
  {
    TagItems(q, c, v.source, v, Break);
    BareItems(q);
    hide *;
    var tr, tb, te := ElseBodies(q, "for " + c, ForItem(v), b, e, rest, bn, en, nodes, "endfor", EndFor);
    var t := ForTree(v, tb, Else(te));
    ForFlat(t, FlatAll(tr));
    assert Trim(t) == For(v.varName, v.source, RemoveBlankText(bn), RemoveBlankText(en)) by { ElseTrim(t); }
    BlockMeans(q, Tagged("for " + c) + (b + (Tagged("else") + (e + (Tagged("endfor") + rest)))), t, tr,
      Flat(t) + FlatAll(tr));
  }

  // `{% for c %}b{% endfor %}` and what follows it.
  lemma ForMeans(q: Quoting, c: string, b: string, rest: string, v: Loop, bn: seq<Node>, nodes: seq<Node>)
    requires Inside(c, '%') && ForOf(q, c) == LiquidScanner.Ok(v)
    requires TemplateOf(q, b) == LiquidScanner.Ok(bn) && EndsPlainly(b)
    requires TemplateOf(q, rest) == LiquidScanner.Ok(nodes)
    ensures TemplateOf(q, Tagged("for " + c) + (b + (Tagged("endfor") + rest)))
      == LiquidScanner.Ok([For(v.varName, v.source, RemoveBlankText(bn), [])] + nodes)
  {
    TagItems(q, c, v.source, v, Break);
    BareItems(q);
    hide *;
    var tr, tb := OneBody(q, "for " + c, ForItem(v), b, rest, bn, nodes, "endfor", EndFor);
    var t := ForTree(v, tb, Absent);
    ForFlat(t, FlatAll(tr));
    assert Trim(t) == For(v.varName, v.source, RemoveBlankText(bn), []) by { ElseTrim(t); }
    BlockMeans(q, Tagged("for " + c) + (b + (Tagged("endfor") + rest)), t, tr, Flat(t) + FlatAll(tr));
  }

  // The trees of a body, an else body and what follows.
  lemma ElseBodies(q: Quoting, open: string, first: Item, b: string, e: string, rest: string, bn: seq<Node>,
      en: seq<Node>, nodes: seq<Node>, end: string, item: Item)
    returns (tr: seq<Tree>, tb: seq<Tree>, te: seq<Tree>)
    requires Inside(open, '%') && ItemOf(q, TagPiece(open)) == Some(first)
    requires Inside(end, '%') && ItemOf(q, TagPiece(end)) == Some(item)
    requires TemplateOf(q, b) == LiquidScanner.Ok(bn) && TemplateOf(q, e) == LiquidScanner.Ok(en)
    requires EndsPlainly(b) && EndsPlainly(e) && TemplateOf(q, rest) == LiquidScanner.Ok(nodes)
    ensures ValidAll(tr) && ValidAll(tb) && ValidAll(te)
    ensures TrimAll(tr) == nodes && TrimAll(tb) == bn && TrimAll(te) == en
    ensures Says(q, Tagged(open) + (b + (Tagged("else") + (e + (Tagged(end) + rest)))),
      [first] + (FlatAll(tb) + ([ElseItem] + (FlatAll(te) + ([item] + FlatAll(tr))))))
  {
    tr := Understood(q, rest, nodes);
    BareItems(q);
    hide *;
    RestSays(q, rest, tr);
    te := BodyAndEnd(q, e, en, end, item, rest, FlatAll(tr));
    var s4 := e + (Tagged(end) + rest);
    tb := BodyAndEnd(q, b, bn, "else", ElseItem, s4, FlatAll(te) + ([item] + FlatAll(tr)));
    SaysTag(q, open, first, b + (Tagged("else") + s4),
      FlatAll(tb) + ([ElseItem] + (FlatAll(te) + ([item] + FlatAll(tr)))));
  }

  lemma OneBody(q: Quoting, open: string, first: Item, b: string, rest: string, bn: seq<Node>, nodes: seq<Node>,
      end: string, item: Item)
    returns (tr: seq<Tree>, tb: seq<Tree>)
    requires Inside(open, '%') && ItemOf(q, TagPiece(open)) == Some(first)
    requires Inside(end, '%') && ItemOf(q, TagPiece(end)) == Some(item)
    requires TemplateOf(q, b) == LiquidScanner.Ok(bn) && EndsPlainly(b)
    requires TemplateOf(q, rest) == LiquidScanner.Ok(nodes)
    ensures ValidAll(tr) && ValidAll(tb) && TrimAll(tr) == nodes && TrimAll(tb) == bn
    ensures Says(q, Tagged(open) + (b + (Tagged(end) + rest)), [first] + (FlatAll(tb) + ([item] + FlatAll(tr))))
  {
    tr := Understood(q, rest, nodes);
    hide *;
    RestSays(q, rest, tr);
    tb := BodyAndEnd(q, b, bn, end, item, rest, FlatAll(tr));
    SaysTag(q, open, first, b + (Tagged(end) + rest), FlatAll(tb) + ([item] + FlatAll(tr)));
  }

  lemma UnlessFlat(t: Tree, z: seq<Item>)
    requires t.UnlessTree? && ValidAll(t.body) && (t.other.Else? ==> ValidAll(t.other.body))
    ensures Valid(t)
    ensures Flat(t) + z == [UnlessItem(t.cond)] + (FlatAll(t.body)
      + if t.other.Else? then [ElseItem] + (FlatAll(t.other.body) + ([EndUnless] + z)) else [EndUnless] + z)
  {
    hide RemoveBlankText, FlatAll, TrimAll, ValidAll;
  }

  lemma ForFlat(t: Tree, z: seq<Item>)
    requires t.ForTree? && ValidAll(t.body) && (t.other.Else? ==> ValidAll(t.other.body))
    ensures Valid(t)
    ensures Flat(t) + z == [ForItem(t.loop)] + (FlatAll(t.body)
      + if t.other.Else? then [ElseItem] + (FlatAll(t.other.body) + ([EndFor] + z)) else [EndFor] + z)
  {
    hide RemoveBlankText, FlatAll, TrimAll, ValidAll;
  }

  lemma ElseTrim(t: Tree)
    requires Valid(t) && (t.UnlessTree? || t.ForTree? ==> t.other.Else? ==> ValidAll(t.other.body))
    ensures t.UnlessTree? ==> Trim(t) == Unless(t.cond, RemoveBlankText(TrimAll(t.body)),
      if t.other.Else? then RemoveBlankText(TrimAll(t.other.body)) else [])
    ensures t.ForTree? ==> Trim(t) == For(t.loop.varName, t.loop.source, RemoveBlankText(TrimAll(t.body)),
      if t.other.Else? then RemoveBlankText(TrimAll(t.other.body)) else [])
  {
    hide RemoveBlankText, FlatAll, TrimAll, ValidAll;
  }

  /// Single nodes

  // `{{ s }}` and what follows it.
  lemma OutputMeans(q: Quoting, s: string, rest: string, o: Output, nodes: seq<Node>)
    requires Inside(s, '}') && LiquidExpressions.OutputOf(q, s) == LiquidScanner.Ok(o)
    requires TemplateOf(q, rest) == LiquidScanner.Ok(nodes)
    ensures TemplateOf(q, Shown(s) + rest) == LiquidScanner.Ok([Out(o)] + nodes)
  {
    hide LexFrom, TemplateOf, Inside, Shown, LiquidExpressions.OutputOf;
    LexShown(s, rest);
    PlainBefore(q, Shown(s) + rest, OutPiece(s), OutItem(o), rest, nodes);
  }

  // `{% break %}` and `{% continue %}` and what follows them.
  lemma LeavingMeans(q: Quoting, rest: string, nodes: seq<Node>)
    requires TemplateOf(q, rest) == LiquidScanner.Ok(nodes)
    ensures TemplateOf(q, Tagged("break") + rest) == LiquidScanner.Ok([Break] + nodes)
    ensures TemplateOf(q, Tagged("continue") + rest) == LiquidScanner.Ok([Continue] + nodes)
  {
    hide LexFrom, TemplateOf, Inside, Tagged, ItemOf;
    LeavingItems(q);
    LexTag("break", rest);
    PlainBefore(q, Tagged("break") + rest, TagPiece("break"), BreakItem, rest, nodes);
    LexTag("continue", rest);
    PlainBefore(q, Tagged("continue") + rest, TagPiece("continue"), ContinueItem, rest, nodes);
  }

  // What an assign may give a value to: [A-Za-z_][A-Za-z0-9_]*.
  predicate Target(k: string) {
    LiquidWords.Name(k) && '-' !in k
  }

  // `{% assign k = a %}` and what follows it.
  lemma AssignMeans(q: Quoting, k: string, a: string, rest: string, o: Output, nodes: seq<Node>)
    requires Target(k) && LiquidExpressions.OutputOf(q, a) == LiquidScanner.Ok(o) && Inside(k + " = " + a, '%')
    requires TemplateOf(q, rest) == LiquidScanner.Ok(nodes)
    ensures TemplateOf(q, Tagged("assign " + (k + " = " + a)) + rest) == LiquidScanner.Ok([Assign(k, o)] + nodes)
  {
    hide LexFrom, TemplateOf, Inside, Tagged, ItemOf, Target, AssignOf, LiquidExpressions.OutputOf;
    var c := k + " = " + a;
    AssignReads(q, k, a, o);
    TagItems(q, c, o.base, Loop("", o.base), Assign(k, o));
    LexTag("assign " + c, rest);
    PlainBefore(q, Tagged("assign " + c) + rest, TagPiece("assign " + c), AssignItem(Assign(k, o)), rest, nodes);
  }

  lemma AssignReads(q: Quoting, k: string, a: string, o: Output)
    requires Target(k) && LiquidExpressions.OutputOf(q, a) == LiquidScanner.Ok(o)
    ensures AssignOf(q, k + " = " + a) == LiquidScanner.Ok(Assign(k, o))
  {
    var c := k + " = " + a;
    assert IndexOf(c, c => c == '=') == |k| + 1 by { EqualsFound(k, a); }
    assert c[..|k| + 1] == k + " " && c[|k| + 2..] == " " + a;
    assert TrimSpace(k + " ") == k && Identifier(k) by { TargetTrims(k); }
    assert LiquidExpressions.OutputOf(q, " " + a) == LiquidExpressions.OutputOf(q, a) by { LiquidWords.BlankFirst(a); }
  }

  lemma TargetTrims(k: string)
    requires Target(k)
    ensures TrimSpace(k + " ") == k && Identifier(k)
  {
    assert SpaceSize(k) == 0 && SpaceSize(k + " ") == 0 && SpaceEnd(k) == 0;
    BlankAfter(k);
  }

  lemma {:induction false} EqualsFound(k: string, a: string)
    requires forall i :: 0 <= i < |k| ==> k[i] != '='
    ensures IndexOf(k + " = " + a, c => c == '=') == |k| + 1
  {
    var s := k + " = " + a;
    if k == "" {
      assert s == " = " + a && s[1..][0] == '=';
    } else {
      assert s[0] == k[0] && s[1..] == k[1..] + " = " + a;
      EqualsFound(k[1..], a);
    }
  }

  // No white space, in ASCII.
  predicate Solid(s: string) {
    s != "" && forall i :: 0 <= i < |s| ==> '!' <= s[i] <= '~'
  }

  // `v in a` loops over what a is; a run of white space in a counts as one blank.
  lemma LoopMeans(q: Quoting, v: string, a: string, x: Expr)
    requires Solid(v) && Fields(a) != [] && LiquidExpressions.OperandOf(q, Joined(Fields(a))) == LiquidScanner.Ok(x)
    ensures ForOf(q, v + " in " + a) == LiquidScanner.Ok(Loop(v, x))
  {
    hide LiquidExpressions.OperandOf, Fields, Joined, Solid;
    LoopFields(v, a);
    assert ([v] + (["in"] + Fields(a)))[2..] == Fields(a);
  }

  lemma LoopFields(v: string, a: string)
    requires Solid(v)
    ensures Fields(v + " in " + a) == [v] + (["in"] + Fields(a))
  {
    assert Solid("in");
    hide *;
    assert v + " in " + a == v + " " + ("in" + " " + a);
    FirstField(v, "in" + " " + a);
    FirstField("in", a);
  }

  lemma SolidField(a: string)
    requires Solid(a)
    ensures Fields(a) == [a] && Joined(Fields(a)) == a
  {
    assert SpaceSize(a) == 0 && TrimLeft(a) == a;
    SolidSize(a, "");
    assert a + "" == a && a[|a|..] == "" && TrimLeft("") == "" && a[..|a|] == a;
    assert Fields("") == [];
  }

  lemma FirstField(v: string, s: string)
    requires Solid(v)
    ensures Fields(v + " " + s) == [v] + Fields(s)
  {
    var t := v + " " + s;
    assert SpaceSize(t) == 0 && TrimLeft(t) == t;
    assert t == v + (" " + s);
    SolidSize(v, " " + s);
    assert t[..|v|] == v && t[|v|..] == " " + s;
    BlankBefore(s);
    assert Fields(" " + s) == Fields(s);
  }

  lemma {:induction false} SolidSize(v: string, more: string)
    requires forall i :: 0 <= i < |v| ==> '!' <= v[i] <= '~'
    requires more == "" || more[0] == ' '
    ensures WordSize(v + more) == |v|
  {
    if v == "" {
      assert v + more == more;
    } else {
      assert (v + more)[0] == v[0] && (v + more)[1..] == v[1..] + more;
      SolidSize(v[1..], more);
    }
  }

  /// Blank bodies

  predicate Quiet(n: Node) {
    n.Assign? || (n.Text? && AllSpace(n.text))
  }

  // A body keeps all its nodes, unless it shows nothing but white space: then
  // it keeps its assignments, in their order.
  lemma KeptMeans(body: seq<Node>, more: seq<Node>, n: Node)
    ensures (exists i :: 0 <= i < |body| && !Quiet(body[i])) ==> RemoveBlankText(body) == body
    ensures Quiet(n) ==> RemoveBlankText([n]) == if n.Assign? then [n] else []
    ensures (forall i :: 0 <= i < |body| ==> Quiet(body[i])) && (forall i :: 0 <= i < |more| ==> Quiet(more[i])) ==>
      RemoveBlankText(body + more) == RemoveBlankText(body) + RemoveBlankText(more)
  {
    hide Quiet, RemoveBlankText;
    KeptWhole(body);
    KeptOne(n);
    KeptConcat(body, more);
  }

  lemma KeptWhole(body: seq<Node>)
    ensures (exists i :: 0 <= i < |body| && !Quiet(body[i])) ==> RemoveBlankText(body) == body
  {
    QuietIs(body);
    hide BlankNode, Quiet, WithoutText;
  }

  lemma KeptOne(n: Node)
    ensures Quiet(n) ==> RemoveBlankText([n]) == if n.Assign? then [n] else []
  {
    QuietIs([n]);
    QuietKinds(n);
    hide BlankNode, Quiet;
    assert [n][0] == n && [n][1..] == [] && WithoutText([]) == [];
  }

  lemma KeptConcat(body: seq<Node>, more: seq<Node>)
    ensures (forall i :: 0 <= i < |body| ==> Quiet(body[i])) && (forall i :: 0 <= i < |more| ==> Quiet(more[i])) ==>
      RemoveBlankText(body + more) == RemoveBlankText(body) + RemoveBlankText(more)
  {
    QuietIs(body);
    QuietIs(more);
    hide BlankNode, Quiet, WithoutText;
    WithoutConcat(body, more);
  }

  lemma QuietKinds(n: Node)
    ensures Quiet(n) ==> n.Assign? || n.Text?
  {
  }

  lemma QuietIs(body: seq<Node>)
    ensures forall i :: 0 <= i < |body| ==> (BlankNode(body[i]) <==> Quiet(body[i]))
  {
    hide TrimSpace, AllSpace;
    forall i | 0 <= i < |body| ensures BlankNode(body[i]) <==> Quiet(body[i]) {
      if body[i].Text? { BlankText(body[i].text); }
    }
  }

  lemma {:induction false} WithoutConcat(a: seq<Node>, b: seq<Node>)
    ensures WithoutText(a + b) == WithoutText(a) + WithoutText(b)
  {
    if a == [] {
      assert a + b == b;
    } else {
      assert (a + b)[0] == a[0] && (a + b)[1..] == a[1..] + b;
      WithoutConcat(a[1..], b);
    }
  }
}
