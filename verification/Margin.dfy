/** The column that the writer counts is the length of the line, and where it breaks lines. */
module Margin {
  import opened CStrings
  import opened Entities
  import opened XmlText
  import opened RoundTrip

  // ---- lines ----

  /** The length of the line that the text ends in, when the line it starts in is that long already. */
  function LineLength(s: CStr, col: int): int {
    if s == [] then col else if s[|s| - 1] == '\n' then 0 else LineLength(s[..|s| - 1], col) + 1
  }

  lemma {:induction false} LineJoin(a: CStr, b: CStr, col: int)
    ensures LineLength(a + b, col) == LineLength(b, LineLength(a, col))
    decreases |b|
  {
    if b == [] {
      assert a + b == a;
    } else {
      assert (a + b)[..|a + b| - 1] == a + b[..|b| - 1];
      LineJoin(a, b[..|b| - 1], col);
    }
  }

  lemma LineJoin3(a: CStr, b: CStr, c: CStr, col: int)
    ensures LineLength(a + b + c, col) == LineLength(c, LineLength(b, LineLength(a, col)))
  {
    LineJoin(a, b, col);
    LineJoin(a + b, c, col);
  }

  predicate Unbroken(s: CStr) {
    '\n' !in s
  }

  lemma {:induction false} UnbrokenLine(s: CStr, col: int)
    requires Unbroken(s)
    ensures LineLength(s, col) == col + |s|
  {
    if s != [] {
      UnbrokenLine(s[..|s| - 1], col);
    }
  }

  /** Text that is written as it is, in one line. */
  predicate Plain(s: CStr) {
    Unbroken(s) && forall i | 0 <= i < |s| :: EntityName(s[i]).None?
  }

  lemma PlainWritten(s: CStr, col: int)
    requires Plain(s)
    ensures Escape(s) == s && LineLength(s, col) == col + |s|
  {
    EscapePlain(s);
    UnbrokenLine(s, col);
  }

  predicate PlainName(s: CStr) {
    Plain(s) && s != [] && s[0] != '\'' && s[0] != '\"'
  }

  // ---- attributes ----

  predicate PlainAttr(a: Attr) {
    PlainName(a.name) && a.value.Some? && Plain(a.value.value)
  }

  predicate PlainAttrs(attrs: seq<Attr>) {
    forall i | 0 <= i < |attrs| :: PlainAttr(attrs[i])
  }

  /** An attribute as it stands in the text. */
  function Body(a: Attr): CStr
    requires a.value.Some?
  {
    a.name + "=\"" + a.value.value + "\""
  }

  lemma BodyLine(a: Attr, sep: Byte, col: int)
    requires PlainAttr(a)
    ensures LineLength([sep] + Body(a), col) == (if sep == '\n' then 0 else col + 1) + |Body(a)|
  {
    var b := Body(a);
    assert Unbroken(b);
    assert [sep][..0] == [];
    LineJoin([sep], b, col);
    UnbrokenLine(b, LineLength([sep], col));
  }

  /** The attribute behind a line of that length goes into the next line if and only if its end would lie more than
      one column past the margin: the space in front of it is not counted. */
  function Led(a: Attr, line: int, wrap: int): CStr
    requires a.value.Some?
  {
    [if wrap > 0 && line + 1 + |Body(a)| > wrap + 1 then '\n' else ' '] + Body(a)
  }

  /** The column is the length of the line. */
  predicate Counted(w: Out, col: int) {
    w.col == LineLength(w.text, col)
  }

  lemma AttrLine(a: Attr, col: int, wrap: int)
    requires PlainAttr(a)
    ensures WriteAttr(a, col, wrap).text == Led(a, col, wrap) && Counted(WriteAttr(a, col, wrap), col)
  {
    PlainWritten(a.value.value, 0);
    assert NameText(a.name) == a.name;
    assert |Body(a)| == AttrWidth(a);
    assert a.name + ("=\"" + a.value.value + "\"") == Body(a);
    BodyLine(a, if wrap > 0 && col + AttrWidth(a) > wrap then '\n' else ' ', col);
  }

  lemma {:induction false} AttrsLine(attrs: seq<Attr>, col: int, wrap: int)
    requires PlainAttrs(attrs)
    ensures Counted(WriteAttrs(attrs, col, wrap), col)
    decreases |attrs|
  {
    if attrs != [] {
      var first := WriteAttr(attrs[0], col, wrap);
      AttrLine(attrs[0], col, wrap);
      AttrsLine(attrs[1..], first.col, wrap);
      LineJoin(first.text, WriteAttrs(attrs[1..], first.col, wrap).text, col);
    }
  }

  lemma Prefix(a: CStr, b: CStr, c: CStr)
    requires b <= c
    ensures a + b <= a + c
  {
  }

  lemma AttrsFirst(attrs: seq<Attr>, k: nat, col: int, wrap: int)
    requires 0 < k <= |attrs|
    ensures var first := WriteAttr(attrs[0], col, wrap);
      && WriteAttrs(attrs[..k], col, wrap).text == first.text + WriteAttrs(attrs[1..][..k - 1], first.col, wrap).text
      && WriteAttrs(attrs, col, wrap).text == first.text + WriteAttrs(attrs[1..], first.col, wrap).text
  {
    assert attrs[..k][0] == attrs[0] && attrs[..k][1..] == attrs[1..][..k - 1];
  }

  lemma TextStep(first: CStr, before: CStr, tail: CStr, others: CStr)
    requires before + tail <= others
    ensures first + before + tail <= first + others
  {
    Prefix(first, before + tail, others);
    assert first + before + tail == first + (before + tail);
  }

  lemma MarginFirst(attrs: seq<Attr>, col: int, wrap: int)
    requires PlainAttrs(attrs) && attrs != []
    ensures WriteAttrs(attrs[..0], col, wrap).text == []
    ensures [] + Led(attrs[0], col, wrap) <= WriteAttrs(attrs, col, wrap).text
  {
    AttrLine(attrs[0], col, wrap);
    AttrsFirst(attrs, 1, col, wrap);
    assert [] + Led(attrs[0], col, wrap) == Led(attrs[0], col, wrap);
  }

  /** The text in front of the k-th attribute, which ends in a line of some length, is followed by a line break
      or a space, as that length and the attribute say, and by the attribute. */
  lemma {:induction false} MarginKept(attrs: seq<Attr>, col: int, wrap: int, k: nat)
    requires PlainAttrs(attrs) && k < |attrs|
    ensures var before := WriteAttrs(attrs[..k], col, wrap).text;
      before + Led(attrs[k], LineLength(before, col), wrap) <= WriteAttrs(attrs, col, wrap).text
    decreases k
  {
    var first := WriteAttr(attrs[0], col, wrap);
    AttrLine(attrs[0], col, wrap);
    if k == 0 {
      MarginFirst(attrs, col, wrap);
    } else {
      AttrsFirst(attrs, k, col, wrap);
      MarginKept(attrs[1..], first.col, wrap, k - 1);
      var before := WriteAttrs(attrs[1..][..k - 1], first.col, wrap).text;
      LineJoin(first.text, before, col);
      TextStep(first.text, before, Led(attrs[k], LineLength(before, first.col), wrap),
               WriteAttrs(attrs[1..], first.col, wrap).text);
    }
  }

  /** No line of a tag is longer than the margin and one column, unless it holds one attribute only. */
  lemma LineFits(attrs: seq<Attr>, col: int, wrap: int, k: nat)
    requires PlainAttrs(attrs) && k < |attrs| && wrap > 0
    ensures var before := WriteAttrs(attrs[..k], col, wrap).text;
      exists sep: Byte | sep == '\n' || sep == ' ' ::
        && before + ([sep] + Body(attrs[k])) <= WriteAttrs(attrs, col, wrap).text
        && (sep == ' ' ==> LineLength(before + ([sep] + Body(attrs[k])), col) <= wrap + 1)
        && (sep == '\n' ==> LineLength(before, col) + 1 + |Body(attrs[k])| > wrap + 1)
  {
    MarginKept(attrs, col, wrap, k);
    var before := WriteAttrs(attrs[..k], col, wrap).text;
    LineJoin(before, [' '] + Body(attrs[k]), col);
    BodyLine(attrs[k], ' ', LineLength(before, col));
  }

  // ---- whole trees ----

  ghost predicate PlainTree(x: Xml) {
    match x
    case Text(_, text) => Plain(text)
    case Elem(name, attrs, kids) =>
      PlainName(name) && PlainAttrs(attrs) && forall i | 0 <= i < |kids| :: PlainTree(kids[i])
  }

  lemma StartLine(name: CStr, start: CStr, col: int)
    requires PlainName(name) && start == "<" + name
    ensures LineLength(start, col) == col + |name| + 1 && "<" + ElemNameText(name) == start
  {
    assert Unbroken(start);
    UnbrokenLine(start, col);
  }

  lemma EndLine(name: CStr, leaf: bool, col: int)
    ensures LineLength(TagEnd(name, leaf), col) == col + |TagEnd(name, leaf)|
  {
    assert Unbroken(" />") && Unbroken(">");
    UnbrokenLine(TagEnd(name, leaf), col);
  }

  lemma Joined(w: Out, a: CStr, b: CStr, c: CStr, col: int)
    requires w.text == a + b + c && w.col == LineLength(c, LineLength(b, LineLength(a, col)))
    ensures Counted(w, col)
  {
    LineJoin3(a, b, c, col);
  }

  lemma OpenIs(name: CStr, attrs: seq<Attr>, leaf: bool, col: int, wrap: int, start: CStr, inside: Out, end: CStr)
    requires start == "<" + ElemNameText(name) && inside == WriteAttrs(attrs, col + |name| + 1, wrap)
    requires end == TagEnd(name, leaf)
    ensures WriteOpen(name, attrs, leaf, col, wrap) == Out(start + inside.text + end, inside.col + |end|)
  {
  }

  lemma OpenLine(name: CStr, attrs: seq<Attr>, leaf: bool, col: int, wrap: int)
    requires PlainName(name) && PlainAttrs(attrs)
    ensures Counted(WriteOpen(name, attrs, leaf, col, wrap), col)
  {
    var start, end := "<" + name, TagEnd(name, leaf);
    var inside := WriteAttrs(attrs, col + |name| + 1, wrap);
    StartLine(name, start, col);
    AttrsLine(attrs, col + |name| + 1, wrap);
    EndLine(name, leaf, inside.col);
    OpenIs(name, attrs, leaf, col, wrap, start, inside, end);
    Joined(WriteOpen(name, attrs, leaf, col, wrap), start, inside.text, end, col);
  }

  lemma CloseLine(name: CStr, col: int)
    requires PlainName(name)
    ensures Counted(WriteClose(name, col), col)
  {
    PlainWritten(name, col);
    if !HasNoEndTag(name) {
      UnbrokenLine("</" + name + ">", col);
    }
  }

  lemma TextLine(whitespace: bool, text: CStr, col: int, wrap: int)
    requires Plain(text)
    ensures Counted(WriteTextNode(whitespace, text, col, wrap), col)
  {
    if whitespace && col > 0 && wrap > 0 && col > wrap {
      PlainWritten(text, 0);
      assert "\n"[..0] == [] && LineLength("\n", col) == 0;
      LineJoin("\n", text, col);
    } else if whitespace && col > 0 {
      PlainWritten(text, col + 1);
      UnbrokenLine(" ", col);
      LineJoin(" ", text, col);
    } else {
      PlainWritten(text, col);
    }
  }

  /** The column after a node is the length of the line in which it ends. */
  lemma {:induction false} NodeLine(x: Xml, col: int, wrap: int)
    requires PlainTree(x)
    ensures Counted(WriteNode(x, col, wrap), col)
    decreases x, 0
  {
    match x
    case Text(whitespace, text) => TextLine(whitespace, text, col, wrap);
    case Elem(name, attrs, kids) =>
      var open := WriteOpen(name, attrs, kids == [], col, wrap);
      OpenLine(name, attrs, kids == [], col, wrap);
      if kids != [] {
        var inside := WriteNodes(kids, open.col, wrap);
        NodesLine(kids, open.col, wrap);
        CloseLine(name, inside.col);
        LineJoin3(open.text, inside.text, WriteClose(name, inside.col).text, col);
      }
  }

  lemma {:induction false} NodesLine(xs: seq<Xml>, col: int, wrap: int)
    requires forall i | 0 <= i < |xs| :: PlainTree(xs[i])
    ensures Counted(WriteNodes(xs, col, wrap), col)
    decreases xs, 1
  {
    if xs != [] {
      var first := WriteNode(xs[0], col, wrap);
      NodeLine(xs[0], col, wrap);
      NodesLine(xs[1..], first.col, wrap);
      LineJoin(first.text, WriteNodes(xs[1..], first.col, wrap).text, col);
    }
  }

  lemma LineEnd(w: CStr, col: int)
    ensures LineLength(w + "\n", col) == 0
  {
    assert (w + "\n")[|w|] == '\n';
  }

  /** A saved text ends at the start of a line. */
  lemma SavedEnds(x: Xml, wrap: int)
    requires PlainTree(x) && x.Elem?
    ensures LineLength(SaveText(x, wrap), 0) <= 0
  {
    var w := WriteNode(x, 0, wrap);
    NodeLine(x, 0, wrap);
    if w.col > 0 {
      LineEnd(w.text, 0);
    } else {
      assert w.text + [] == w.text;
    }
  }

  /** White space in front of a text: nothing at the start of a line, a line break if the line has passed the
      margin. */
  function Separator(line: int, wrap: int): CStr {
    if line <= 0 then [] else if wrap > 0 && line > wrap then "\n" else " "
  }

  lemma SeparatedText(text: CStr, line: int, wrap: int)
    requires Plain(text)
    ensures WriteNode(Text(true, text), line, wrap).text == Separator(line, wrap) + text
  {
    PlainWritten(text, 0);
    assert [] + text == text;
  }

  lemma NodesFirst(xs: seq<Xml>, k: nat, col: int, wrap: int)
    requires 0 < k <= |xs|
    ensures var first := WriteNode(xs[0], col, wrap);
      && WriteNodes(xs[..k], col, wrap).text == first.text + WriteNodes(xs[1..][..k - 1], first.col, wrap).text
      && WriteNodes(xs, col, wrap).text == first.text + WriteNodes(xs[1..], first.col, wrap).text
  {
    assert xs[..k][0] == xs[0] && xs[..k][1..] == xs[1..][..k - 1];
  }

  /** Behind the text of the nodes in front of it, a text with white space follows as the length of the line there
      says. */
  lemma {:induction false} TextBreaks(xs: seq<Xml>, col: int, wrap: int, k: nat)
    requires (forall i | 0 <= i < |xs| :: PlainTree(xs[i])) && k < |xs| && xs[k].Text? && xs[k].whitespace
    ensures var before := WriteNodes(xs[..k], col, wrap).text;
      before + (Separator(LineLength(before, col), wrap) + xs[k].text) <= WriteNodes(xs, col, wrap).text
    decreases k
  {
    var first := WriteNode(xs[0], col, wrap);
    NodesFirst(xs, 1, col, wrap);
    if k == 0 {
      assert xs[..0] == [];
      SeparatedText(xs[0].text, col, wrap);
      assert [] + first.text == first.text;
    } else {
      NodesFirst(xs, k, col, wrap);
      NodeLine(xs[0], col, wrap);
      TextBreaks(xs[1..], first.col, wrap, k - 1);
      var before := WriteNodes(xs[1..][..k - 1], first.col, wrap).text;
      LineJoin(first.text, before, col);
      TextStep(first.text, before, Separator(LineLength(before, first.col), wrap) + xs[k].text,
               WriteNodes(xs[1..], first.col, wrap).text);
    }
  }
}
