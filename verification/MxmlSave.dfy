/** The writer: it walks the linked nodes without a stack and puts single characters into a bounded buffer.
    The proof keeps the goal, the recursive text of the whole subtree, fixed: what has been written, followed
    by the text of what is still to come at the current place, is always that goal. The place of a node says
    what comes after it: its following siblings, the end tag of its parent, and so on up to the node that
    is written. */
module MxmlSave {
  import opened CStrings
  import opened Entities
  import opened XmlText
  import opened Forests
  import opened Preorder
  import opened MxmlNode
  import opened MxmlSearch
  import opened MxmlTree

  // ---- the bounded buffer ----

  class Sink {
    const buffer: array<char>
    var pos: nat
    ghost var written: CStr
    ghost const initial: seq<char>

    constructor (b: array<char>)
      ensures buffer == b && pos == 0 && written == [] && initial == b[..] && Valid()
    {
      buffer, pos, written, initial := b, 0, [], b[..];
    }

    /** The buffer holds as much of what was written as fits, and is untouched behind that. */
    ghost predicate Valid()
      reads this, buffer
    {
      && pos == |written| && |initial| == buffer.Length
      && (forall k | 0 <= k < buffer.Length && k < pos :: buffer[k] == written[k])
      && (forall k | pos <= k < buffer.Length :: buffer[k] == initial[k])
    }

    /** mxml_string_putc. */
    method Putc(ch: Byte)
      requires Valid()
      modifies this, buffer
      ensures Valid() && written == old(written) + [ch]
    {
      if pos < buffer.Length {
        buffer[pos] := ch;
      }
      pos := pos + 1;
      written := written + [ch];
    }

    /** Several characters in a row. */
    method Puts(s: CStr)
      requires Valid()
      modifies this, buffer
      ensures Valid() && written == old(written) + s
    {
      var i := 0;
      while i < |s|
        invariant 0 <= i <= |s| && Valid() && written == old(written) + s[..i]
      {
        Putc(s[i]);
        i := i + 1;
      }
      assert s[..i] == s;
    }
  }

  // ---- strings and names ----

  lemma Assoc(a: CStr, b: CStr, c: CStr)
    ensures a + (b + c) == a + b + c
  {
  }

  /** The part of a string before the first occurrence of a quote, if one is given. */
  function UpTo(s: CStr, quote: Option<Byte>): CStr {
    if quote.None? then s else Before(s, quote.value)
  }

  lemma BeforeNone(s: CStr)
    ensures UpTo(s, None) == s
  {
  }

  lemma UpToNext(s: CStr, i: nat, quote: Option<Byte>) returns (later: CStr)
    requires i < |s| && (quote.None? || s[i] != quote.value)
    ensures later == Escape(UpTo(s[i + 1..], quote))
    ensures Escape(UpTo(s[i..], quote)) == EscapeByte(s[i]) + later
  {
    later := Escape(UpTo(s[i + 1..], quote));
    var t := UpTo(s[i + 1..], quote);
    assert s[i..][1..] == s[i + 1..];
    assert UpTo(s[i..], quote) == [s[i]] + t;
    assert ([s[i]] + t)[1..] == t;
  }

  lemma Join3(w: CStr, a: CStr, b: CStr, c: CStr)
    ensures w + a + b + c == w + (a + b + c)
  {
  }

  method PutEscaped(ch: Byte, sink: Sink)
    requires sink.Valid()
    modifies sink, sink.buffer
    ensures sink.Valid() && sink.written == old(sink.written) + EscapeByte(ch)
  {
    var name := EntityName(ch);
    if name.Some? {
      sink.Puts("&");
      sink.Puts(name.value);
      sink.Puts(";");
      Join3(old(sink.written), "&", name.value, ";");
    } else {
      sink.Putc(ch);
    }
  }

  /** What is still to be written from the i-th character on completes the goal. */
  predicate Completes(s: CStr, i: nat, quote: Option<Byte>, written: CStr, goal: CStr)
    requires i <= |s|
  {
    written + Escape(UpTo(s[i..], quote)) == goal
  }

  method WriteNext(s: CStr, i: nat, quote: Option<Byte>, sink: Sink, ghost goal: CStr)
    requires i < |s| && (quote.None? || s[i] != quote.value)
    requires sink.Valid() && Completes(s, i, quote, sink.written, goal)
    modifies sink, sink.buffer
    ensures sink.Valid() && Completes(s, i + 1, quote, sink.written, goal)
  {
    ghost var later := UpToNext(s, i, quote);
    Assoc(sink.written, EscapeByte(s[i]), later);
    PutEscaped(s[i], sink);
  }

  lemma UpToEnd(s: CStr, i: nat, quote: Option<Byte>, written: CStr, goal: CStr)
    requires i <= |s| && (i == |s| || (quote.Some? && s[i] == quote.value)) && Completes(s, i, quote, written, goal)
    ensures written == goal
  {
    assert UpTo(s[i..], quote) == [];
  }

  /** The escaping loop of mxml_write_string and of mxml_write_name, which stops at a quote. */
  method WriteEscaped(s: CStr, quote: Option<Byte>, sink: Sink)
    requires sink.Valid()
    modifies sink, sink.buffer
    ensures sink.Valid() && sink.written == old(sink.written) + Escape(UpTo(s, quote))
  {
    var i := 0;
    ghost var goal := sink.written + Escape(UpTo(s, quote));
    assert s[0..] == s;
    while i < |s| && (quote.None? || s[i] != quote.value)
      invariant 0 <= i <= |s| && sink.Valid() && Completes(s, i, quote, sink.written, goal)
    {
      WriteNext(s, i, quote, sink, goal);
      i := i + 1;
    }
    UpToEnd(s, i, quote, sink.written, goal);
  }

  /** mxml_write_string. */
  method WriteString(s: CStr, sink: Sink)
    requires sink.Valid()
    modifies sink, sink.buffer
    ensures sink.Valid() && sink.written == old(sink.written) + Escape(s)
  {
    WriteEscaped(s, None, sink);
    BeforeNone(s);
  }

  lemma Join4(w: CStr, a: CStr, b: CStr, c: CStr, d: CStr)
    ensures w + a + b + c + d == w + (a + b + c + d)
  {
  }

  /** mxml_write_name. */
  method WriteName(s: CStr, sink: Sink)
    requires sink.Valid()
    modifies sink, sink.buffer
    ensures sink.Valid() && sink.written == old(sink.written) + NameText(s)
  {
    if s != [] && (s[0] == '\"' || s[0] == '\'') {
      sink.Putc(s[0]);
      WriteEscaped(s[1..], Some(s[0]), sink);
      sink.Putc(s[0]);
      Join3(old(sink.written), [s[0]], Escape(Before(s[1..], s[0])), [s[0]]);
    } else {
      sink.Puts(s);
    }
  }

  // ---- tags ----

  lemma AttrsNext(attrs: seq<Attr>, i: nat, col: int, wrap: int)
    requires i < |attrs|
    ensures var first := WriteAttr(attrs[i], col, wrap); var others := WriteAttrs(attrs[i + 1..], first.col, wrap);
      WriteAttrs(attrs[i..], col, wrap) == Out(first.text + others.text, others.col)
  {
    assert attrs[i..][1..] == attrs[i + 1..];
  }

  function PairText(a: Attr): CStr {
    NameText(a.name) + if a.value.Some? then "=\"" + Escape(a.value.value) + "\"" else []
  }

  method PutPair(a: Attr, sink: Sink)
    requires sink.Valid()
    modifies sink, sink.buffer
    ensures sink.Valid() && sink.written == old(sink.written) + PairText(a)
  {
    WriteName(a.name, sink);
    if a.value.Some? {
      ghost var was := sink.written;
      sink.Puts("=\"");
      WriteString(a.value.value, sink);
      sink.Puts("\"");
      Join3(was, "=\"", Escape(a.value.value), "\"");
      Assoc(old(sink.written), NameText(a.name), "=\"" + Escape(a.value.value) + "\"");
    }
  }

  /** One attribute. */
  method PutAttr(a: Attr, sink: Sink, start: int, wrap: int) returns (col: int)
    requires sink.Valid()
    modifies sink, sink.buffer
    ensures sink.Valid() && sink.written == old(sink.written) + WriteAttr(a, start, wrap).text
    ensures col == WriteAttr(a, start, wrap).col
  {
    var width := |a.name|;
    if a.value.Some? {
      width := width + |a.value.value| + 3;
    }
    ghost var gap: CStr;
    if wrap > 0 && start + width > wrap {
      gap := "\n";
      sink.Puts("\n");
      col := 0;
    } else {
      gap := " ";
      sink.Puts(" ");
      col := start + 1;
    }
    ghost var was := sink.written;
    PutPair(a, sink);
    Assoc(old(sink.written), gap, PairText(a));
    col := col + width;
  }

  /** All attributes of an element, each on the line or, past the margin, on the next one. */
  method WriteAttributes(attrs: seq<Attr>, sink: Sink, start: int, wrap: int) returns (col: int)
    requires sink.Valid()
    modifies sink, sink.buffer
    ensures sink.Valid() && sink.written == old(sink.written) + WriteAttrs(attrs, start, wrap).text
    ensures col == WriteAttrs(attrs, start, wrap).col
  {
    col := start;
    var i := 0;
    ghost var left := WriteAttrs(attrs, start, wrap);
    assert attrs[0..] == attrs;
    while i < |attrs|
      invariant 0 <= i <= |attrs| && sink.Valid()
      invariant left == WriteAttrs(attrs[i..], col, wrap) && left.col == WriteAttrs(attrs, start, wrap).col
      invariant sink.written + left.text == old(sink.written) + WriteAttrs(attrs, start, wrap).text
    {
      AttrsNext(attrs, i, col, wrap);
      left := WriteAttrs(attrs[i + 1..], WriteAttr(attrs[i], col, wrap).col, wrap);
      Assoc(sink.written, WriteAttr(attrs[i], col, wrap).text, left.text);
      col := PutAttr(attrs[i], sink, col, wrap);
      i := i + 1;
    }
    assert left == Out([], col);
  }

  method PutElemName(name: CStr, sink: Sink)
    requires sink.Valid()
    modifies sink, sink.buffer
    ensures sink.Valid() && sink.written == old(sink.written) + ElemNameText(name)
  {
    if IsRaw(name) {
      sink.Puts(name);
    } else {
      WriteName(name, sink);
    }
  }

  /** An opening tag. */
  method PutOpen(name: CStr, attrs: seq<Attr>, leaf: bool, sink: Sink, start: int, wrap: int) returns (col: int)
    requires sink.Valid()
    modifies sink, sink.buffer
    ensures sink.Valid() && sink.written == old(sink.written) + WriteOpen(name, attrs, leaf, start, wrap).text
    ensures col == WriteOpen(name, attrs, leaf, start, wrap).col
  {
    sink.Puts("<");
    PutElemName(name, sink);
    col := WriteAttributes(attrs, sink, start + |name| + 1, wrap);
    ghost var inside := WriteAttrs(attrs, start + |name| + 1, wrap).text;
    if !leaf || HasNoEndTag(name) {
      sink.Puts(">");
      col := col + 1;
    } else {
      sink.Puts(" />");
      col := col + 3;
    }
    Join4(old(sink.written), "<", ElemNameText(name), inside, TagEnd(name, leaf));
  }

  /** An end tag, unless the element has none. */
  method PutClose(name: CStr, sink: Sink, start: int) returns (col: int)
    requires sink.Valid()
    modifies sink, sink.buffer
    ensures sink.Valid() && sink.written == old(sink.written) + WriteClose(name, start).text
    ensures col == WriteClose(name, start).col
  {
    col := start;
    if !HasNoEndTag(name) {
      sink.Puts("</");
      WriteString(name, sink);
      sink.Puts(">");
      Join3(old(sink.written), "</", Escape(name), ">");
      col := col + |name| + 3;
    }
  }

  /** The text of a text node. */
  method PutText(whitespace: bool, text: CStr, sink: Sink, start: int, wrap: int) returns (col: int)
    requires sink.Valid()
    modifies sink, sink.buffer
    ensures sink.Valid() && sink.written == old(sink.written) + WriteTextNode(whitespace, text, start, wrap).text
    ensures col == WriteTextNode(whitespace, text, start, wrap).col
  {
    col := start;
    ghost var gap: CStr := [];
    if whitespace && col > 0 {
      gap := if wrap > 0 && col > wrap then "\n" else " ";
      if wrap > 0 && col > wrap {
        sink.Puts("\n");
        col := 0;
      } else {
        sink.Puts(" ");
        col := col + 1;
      }
    }
    WriteString(text, sink);
    Assoc(old(sink.written), gap, Escape(text));
    col := col + |text|;
  }

  // ---- what is left to write ----

  function Then(a: Out, b: Out): Out {
    Out(a.text + b.text, b.col)
  }

  lemma ThenAssoc(a: Out, b: Out, c: Out)
    ensures Then(a, Then(b, c)) == Then(Then(a, b), c)
  {
    Assoc(a.text, b.text, c.text);
  }

  /** Everything after a node: its following siblings and the end tag of every level above. */
  function Tail(p: Place, col: int, wrap: int): Out {
    match p
    case Top => Out([], col)
    case Below(name, after, above) =>
      var inside := WriteNodes(after, col, wrap);
      var close := WriteClose(name, inside.col);
      Then(inside, Then(close, Tail(above, close.col, wrap)))
  }

  /** A node and everything after it. */
  function Todo(x: Xml, p: Place, col: int, wrap: int): Out {
    var me := WriteNode(x, col, wrap);
    Then(me, Tail(p, me.col, wrap))
  }

  /** What is written for a node before its children. */
  function Start(x: Xml, col: int, wrap: int): Out {
    match x
    case Elem(name, attrs, kids) => WriteOpen(name, attrs, kids == [], col, wrap)
    case Text(whitespace, text) => WriteTextNode(whitespace, text, col, wrap)
  }

  predicate Childless(x: Xml) {
    x.Text? || x.kids == []
  }

  lemma TodoLeaf(x: Xml, p: Place, col: int, wrap: int)
    requires Childless(x)
    ensures var start := Start(x, col, wrap); Todo(x, p, col, wrap) == Then(start, Tail(p, start.col, wrap))
  {
  }

  lemma NodesNext(x: Xml, xs: seq<Xml>, col: int, wrap: int)
    ensures var first := WriteNode(x, col, wrap);
      WriteNodes([x] + xs, col, wrap) == Then(first, WriteNodes(xs, first.col, wrap))
  {
    assert ([x] + xs)[0] == x && ([x] + xs)[1..] == xs;
  }

  lemma ElemWritten(name: CStr, attrs: seq<Attr>, kids: seq<Xml>, col: int, wrap: int)
    requires kids != []
    ensures var open := Start(Elem(name, attrs, kids), col, wrap);
      var inside := WriteNodes(kids, open.col, wrap);
      WriteNode(Elem(name, attrs, kids), col, wrap) == Then(Then(open, inside), WriteClose(name, inside.col))
  {
  }

  lemma TailNext(name: CStr, x: Xml, xs: seq<Xml>, above: Place, col: int, wrap: int)
    ensures Tail(Below(name, [x] + xs, above), col, wrap) == Todo(x, Below(name, xs, above), col, wrap)
  {
    NodesNext(x, xs, col, wrap);
    var first := WriteNode(x, col, wrap);
    var others := WriteNodes(xs, first.col, wrap);
    var close := WriteClose(name, others.col);
    ThenAssoc(first, others, Then(close, Tail(above, close.col, wrap)));
  }

  lemma TodoChild(name: CStr, attrs: seq<Attr>, x: Xml, xs: seq<Xml>, p: Place, col: int, wrap: int)
    ensures var start := Start(Elem(name, attrs, [x] + xs), col, wrap);
      Todo(Elem(name, attrs, [x] + xs), p, col, wrap) == Then(start, Todo(x, Below(name, xs, p), start.col, wrap))
  {
    var open := Start(Elem(name, attrs, [x] + xs), col, wrap);
    var inside := WriteNodes([x] + xs, open.col, wrap);
    var close := WriteClose(name, inside.col);
    ElemWritten(name, attrs, [x] + xs, col, wrap);
    TailNext(name, x, xs, p, open.col, wrap);
    ThenAssoc(Then(open, inside), close, Tail(p, close.col, wrap));
    ThenAssoc(open, inside, Then(close, Tail(p, close.col, wrap)));
  }

  lemma TailLast(name: CStr, above: Place, col: int, wrap: int)
    ensures var close := WriteClose(name, col);
      Tail(Below(name, [], above), col, wrap) == Then(close, Tail(above, close.col, wrap))
  {
    var close := WriteClose(name, col);
    var tail := Tail(above, close.col, wrap);
    assert [] + (close.text + tail.text) == close.text + tail.text;
  }

  // ---- mxml_write_node ----

  /** What is put out for a node when the walk comes to it. */
  method PutStart(node: Node, sink: Sink, start: int, wrap: int, ghost x: Xml) returns (col: int)
    requires sink.Valid() && (node.child == null <==> Childless(x))
    requires match node.value
             case Element(name, attrs) => x.Elem? && x.name == name && x.attrs == attrs
             case TextValue(whitespace, text) => x == Text(whitespace, text)
    modifies sink, sink.buffer
    ensures sink.Valid() && sink.written == old(sink.written) + Start(x, start, wrap).text
    ensures col == Start(x, start, wrap).col
  {
    match node.value
    case Element(name, attrs) => col := PutOpen(name, attrs, node.child == null, sink, start, wrap);
    case TextValue(whitespace, text) => col := PutText(whitespace, text, sink, start, wrap);
  }

  /** The document being written: the nodes, and what is to have been written in the end. */
  datatype Job = Job(f: Forest<Node>, r: map<Node, nat>, vals: map<Node, Value>, node: Node, wrap: int, goal: Out)

  /** The document is as the job says, and current lies d levels below the node to be written. */
  ghost predicate Writing(j: Job, current: Node, d: nat)
    reads j.f.kids.Keys
  {
    && Document(j.f, j.r) && Labelled(j.f, j.vals) && Typed(j.f, j.vals) && Within(j.f, current, j.node, d)
    && j.node in j.f.kids && j.node.next == null
  }

  ghost function Tree(j: Job, n: Node): Xml
    requires Ordered(j.f, j.r) && Typed(j.f, j.vals) && n in j.f.kids
  {
    TreeOf(j.f, j.r, j.vals, n)
  }

  /** Writing the subtree of current and all that follows reaches the goal. */
  ghost predicate TodoReaches(j: Job, current: Node, d: nat, col: int, now: CStr) {
    && Ordered(j.f, j.r) && Typed(j.f, j.vals) && current in j.f.kids && Ancestor(j.f, current, d).Some?
    && Then(Out(now, 0), Todo(Tree(j, current), PlaceOf(j.f, j.r, j.vals, current, d), col, j.wrap)) == j.goal
  }

  /** Writing all that follows the subtree of current reaches the goal. */
  ghost predicate TailReaches(j: Job, current: Node, d: nat, col: int, now: CStr) {
    && Ordered(j.f, j.r) && Typed(j.f, j.vals) && current in j.f.kids && Ancestor(j.f, current, d).Some?
    && Then(Out(now, 0), Tail(PlaceOf(j.f, j.r, j.vals, current, d), col, j.wrap)) == j.goal
  }

  /** The subtree of current is next. */
  ghost predicate Here(j: Job, current: Node, d: nat, col: int, now: CStr)
    reads j.f.kids.Keys
  {
    Writing(j, current, d) && TodoReaches(j, current, d, col, now)
  }

  /** The subtree of current is done. */
  ghost predicate Done(j: Job, current: Node, d: nat, col: int, now: CStr)
    reads j.f.kids.Keys
  {
    Writing(j, current, d) && TailReaches(j, current, d, col, now)
  }

  /** How many nodes are still to come when current is. */
  ghost function ToCome(j: Job, current: Node?, d: nat): nat
    requires Ordered(j.f, j.r) && (current != null ==> current in j.f.kids && Ancestor(j.f, current, d).Some?)
  {
    if current == null then 0 else 1 + |Rest(j.f, j.r, current, d)|
  }

  lemma GoDown(j: Job, current: Node, d: nat, col: int, now: CStr)
    requires Here(j, current, d, col, now) && current.child != null
    ensures var start := Start(Tree(j, current), col, j.wrap);
      Here(j, current.child, d + 1, start.col, now + start.text)
    ensures ToCome(j, current.child, d + 1) < ToCome(j, current, d)
  {
    assert LinksOf(current) == LinksIn(j.f, current);
    var c, x, xs := ChildPlace(j.f, j.r, j.vals, current, d);
    var v, p := j.vals[current], PlaceOf(j.f, j.r, j.vals, current, d);
    TodoChild(v.name, v.attrs, x, xs, p, col, j.wrap);
    RestChild(j.f, j.r, current, d);
    var start := Start(Tree(j, current), col, j.wrap);
    ThenAssoc(Out(now, 0), start, Todo(x, Below(v.name, xs, p), start.col, j.wrap));
  }

  lemma GoOver(j: Job, current: Node, d: nat, col: int, now: CStr)
    requires Here(j, current, d, col, now) && current.child == null
    ensures var start := Start(Tree(j, current), col, j.wrap); Done(j, current, d, start.col, now + start.text)
    ensures |After(j.f, j.r, current, d)| < ToCome(j, current, d)
  {
    assert LinksOf(current) == LinksIn(j.f, current);
    var x, p := Tree(j, current), PlaceOf(j.f, j.r, j.vals, current, d);
    assert Childless(x);
    TodoLeaf(x, p, col, j.wrap);
    RestLeaf(j.f, j.r, current, d);
    var start := Start(x, col, j.wrap);
    ThenAssoc(Out(now, 0), start, Tail(p, start.col, j.wrap));
  }

  lemma GoUp(j: Job, current: Node, d: nat, col: int, now: CStr)
    requires Done(j, current, d, col, now) && current != j.node && current.next == null
    ensures d > 0 && current.parent != null && current.parent in j.f.kids && current.parent.value.Element?
    ensures var close := WriteClose(current.parent.value.name, col);
      Done(j, current.parent, d - 1, close.col, now + close.text)
    ensures After(j.f, j.r, current, d) == After(j.f, j.r, current.parent, d - 1)
  {
    TopIsZero(j.f, j.r, current, j.node, d);
    assert LinksOf(current) == LinksIn(j.f, current);
    var p := LastPlace(j.f, j.r, j.vals, current, d);
    var above := PlaceOf(j.f, j.r, j.vals, p, d - 1);
    TailLast(p.value.name, above, col, j.wrap);
    ParentWithin(j.f, j.r, current, j.node, d);
    var close := WriteClose(p.value.name, col);
    ThenAssoc(Out(now, 0), close, Tail(above, close.col, j.wrap));
  }

  lemma GoNext(j: Job, current: Node, d: nat, col: int, now: CStr)
    requires Done(j, current, d, col, now) && current.next != null
    ensures Here(j, current.next, d, col, now) && ToCome(j, current.next, d) == |After(j.f, j.r, current, d)|
  {
    TopIsZero(j.f, j.r, current, j.node, d);
    assert LinksOf(current) == LinksIn(j.f, current);
    var name, m, x, xs, above := NextPlace(j.f, j.r, j.vals, current, d);
    TailNext(name, x, xs, above, col, j.wrap);
    NextWithin(j.f, j.r, current, j.node, d);
  }

  lemma GoHome(j: Job, d: nat, col: int, now: CStr)
    requires Done(j, j.node, d, col, now)
    ensures Out(now, col) == j.goal
  {
    TopIsZero(j.f, j.r, j.node, j.node, d);
    assert now + [] == now;
  }

  /** The opening tag or the text of current; the document stays as it is. */
  method Begin(current: Node, sink: Sink, start: int, ghost j: Job, ghost d: nat, wrap: int) returns (col: int)
    requires sink.Valid() && Here(j, current, d, start, sink.written) && wrap == j.wrap
    modifies sink, sink.buffer
    ensures sink.Valid() && Here(j, current, d, start, old(sink.written))
    ensures sink.written == old(sink.written) + Start(Tree(j, current), start, wrap).text
    ensures col == Start(Tree(j, current), start, wrap).col
  {
    assert LinksOf(current) == LinksIn(j.f, current);
    col := PutStart(current, sink, start, wrap, Tree(j, current));
  }

  method Close(parent: Node, sink: Sink, start: int, ghost j: Job, ghost d: nat) returns (col: int)
    requires sink.Valid() && parent.value.Element?
    requires Writing(j, parent, d)
    requires var close := WriteClose(parent.value.name, start);
      TailReaches(j, parent, d, close.col, sink.written + close.text)
    modifies sink, sink.buffer
    ensures sink.Valid() && Writing(j, parent, d) && TailReaches(j, parent, d, col, sink.written)
  {
    col := PutClose(parent.value.name, sink, start);
  }

  /** The end tag of the parent, when its last child is done. */
  method End(current: Node, sink: Sink, start: int, ghost j: Job, ghost d: nat)
      returns (parent: Node, col: int, ghost e: nat)
    requires sink.Valid() && Done(j, current, d, start, sink.written) && current != j.node && current.next == null
    modifies sink, sink.buffer
    ensures sink.Valid() && d == e + 1 && Done(j, parent, e, col, sink.written)
    ensures After(j.f, j.r, current, d) == After(j.f, j.r, parent, e)
  {
    GoUp(j, current, d, start, sink.written);
    parent := current.parent;
    e := d - 1;
    col := Close(parent, sink, start, j, e);
  }

  /** The goal is reached, or next is the node to go on with. */
  ghost predicate Reached(j: Job, next: Node?, d: nat, col: int, now: CStr)
    reads j.f.kids.Keys
  {
    && Writing(j, j.node, 0)
    && if next == null then Out(now, col) == j.goal else Here(j, next, d, col, now)
  }

  /** The end of a subtree: end tags until some ancestor has a next sibling or the node itself is reached. */
  method Leave(node: Node, start: Node, sink: Sink, col0: int, ghost j: Job, ghost d0: nat)
      returns (next: Node?, col: int, ghost d: nat)
    requires sink.Valid() && Done(j, start, d0, col0, sink.written) && node == j.node
    modifies sink, sink.buffer
    ensures sink.Valid() && Reached(j, next, d, col, sink.written)
    ensures ToCome(j, next, d) <= |After(j.f, j.r, start, d0)|
  {
    var current: Node := start;
    col, d := col0, d0;
    while current.next == null
      invariant sink.Valid() && Done(j, current, d, col, sink.written)
      invariant After(j.f, j.r, start, d0) == After(j.f, j.r, current, d)
      decreases d
    {
      if current == node {
        GoHome(j, d, col, sink.written);
        return null, col, d;
      }
      current, col, d := End(current, sink, col, j, d);
    }
    GoNext(j, current, d, col, sink.written);
    next := current.next;
  }

  /** One round of the loop. */
  method Round(node: Node, current: Node, sink: Sink, start: int, wrap: int, ghost j: Job, ghost d0: nat)
      returns (next: Node?, col: int, ghost d: nat)
    requires sink.Valid() && Here(j, current, d0, start, sink.written) && node == j.node && wrap == j.wrap
    modifies sink, sink.buffer
    ensures sink.Valid() && Reached(j, next, d, col, sink.written)
    ensures ToCome(j, next, d) < ToCome(j, current, d0)
  {
    ghost var was := sink.written;
    col := Begin(current, sink, start, j, d0, wrap);
    if current.child != null {
      GoDown(j, current, d0, start, was);
      next, d := current.child, d0 + 1;
    } else {
      GoOver(j, current, d0, start, was);
      next, col, d := Leave(node, current, sink, col, j, d0);
    }
  }

  /** The goal is the recursive text of the whole subtree, from column zero. */
  ghost predicate Aimed(j: Job) {
    && Ordered(j.f, j.r) && Typed(j.f, j.vals) && j.node in j.f.kids
    && j.goal == WriteNode(TreeOf(j.f, j.r, j.vals, j.node), 0, j.wrap)
  }

  lemma Beginning(j: Job)
    requires Writing(j, j.node, 0) && Aimed(j)
    ensures Here(j, j.node, 0, 0, [])
  {
    assert [] + (j.goal.text + []) == j.goal.text;
    assert Ancestor(j.f, j.node, 0) == Some(j.node);
    assert PlaceOf(j.f, j.r, j.vals, j.node, 0) == Top;
  }

  lemma Twice<T>(a: seq<T>, b: seq<T>, c: seq<T>, m: T)
    requires m in b && m in c
    ensures !NoDup(a + b + c)
  {
    var all := a + b + c;
    var i :| 0 <= i < |b| && b[i] == m;
    var j :| 0 <= j < |c| && c[j] == m;
    assert all[|a| + i] == all[|a| + |b| + j];
  }

  lemma InThree<T>(f: Forest<T>, r: map<T, nat>, n: T, d: nat)
    requires Ordered(f, r) && n in f.kids && Ancestor(f, n, d).Some?
    ensures Ancestor(f, n, d).value in f.kids
    ensures Pre(f, r, Ancestor(f, n, d).value) == Front(f, r, n, d) + Pre(f, r, n) + After(f, r, n, d)
  {
    FrontRest(f, r, n, d);
    assert Front(f, r, n, d) + [n] + (PreFrom(f, r, n, 0) + After(f, r, n, d))
        == Front(f, r, n, d) + ([n] + PreFrom(f, r, n, 0)) + After(f, r, n, d);
  }

  /** The walk ends when the way up comes to the node that it began with. From whatever follows the subtree of that
      node the way up never does: a walk that goes on to a next sibling ends above the root. */
  lemma NeverBack<T>(f: Forest<T>, r: map<T, nat>, n: T, d: nat, m: T, k: nat)
    requires Ordered(f, r) && n in f.kids && Ancestor(f, n, d).Some? && m in After(f, r, n, d)
    ensures Ancestor(f, m, k) != Some(n)
  {
    if Ancestor(f, m, k) == Some(n) {
      InThree(f, r, n, d);
      PreMembers(f, r, n, m);
      PreNoDup(f, r, Ancestor(f, n, d).value);
      Twice(Front(f, r, n, d), Pre(f, r, n), After(f, r, n, d), m);
    }
  }

  /** mxml_write_node: the recursive text of the subtree, and the column after it. */
  method WriteTree(node: Node, sink: Sink, wrap: int, ghost j: Job) returns (col: int)
    requires sink.Valid() && sink.written == [] && Writing(j, j.node, 0) && Aimed(j) && node == j.node && wrap == j.wrap
    modifies sink, sink.buffer
    ensures sink.Valid() && Out(sink.written, col) == j.goal
  {
    Beginning(j);
    col := 0;
    ghost var d: nat := 0;
    var current: Node? := node;
    while current != null
      invariant sink.Valid() && Reached(j, current, d, col, sink.written)
      decreases ToCome(j, current, d)
    {
      current, col, d := Round(node, current, sink, col, wrap, j, d);
    }
  }

  // ---- mxmlSaveString and mxmlSaveAllocString ----

  /** The whole text: that of the subtree, and a line end unless the column is back at zero. */
  function Whole(j: Job): CStr {
    j.goal.text + if j.goal.col > 0 then "\n" else []
  }

  lemma WholeIsText(j: Job)
    requires Aimed(j)
    ensures Whole(j) == SaveText(TreeOf(j.f, j.r, j.vals, j.node), j.wrap)
  {
  }

  /** A buffer holds the longest prefix of text that leaves room for the terminator, then the terminator,
      and behind that what it held before. */
  ghost predicate Holds(now: seq<char>, before: seq<char>, text: CStr) {
    && |now| == |before| && |now| > 0
    && var n := if |text| < |now| then |text| else |now| - 1;
       now[..n] == text[..n] && now[n] == 0 as char && now[n + 1..] == before[n + 1..]
  }

  method WriteAll(node: Node, ptr: Sink, wrap: int, ghost j: Job)
    requires Writing(j, j.node, 0) && Aimed(j) && node == j.node && wrap == j.wrap && ptr.Valid() && ptr.written == []
    modifies ptr, ptr.buffer
    ensures ptr.Valid() && ptr.written == Whole(j)
  {
    var col := WriteTree(node, ptr, wrap, j);
    if col > 0 {
      ptr.Puts("\n");
    }
  }

  method Terminate(ptr: Sink, buffer: array<char>) returns (bytes: int)
    requires ptr.Valid() && buffer == ptr.buffer && buffer.Length > 0
    modifies buffer
    ensures bytes == |ptr.written| && Holds(buffer[..], ptr.initial, ptr.written)
  {
    if ptr.pos >= buffer.Length {
      buffer[buffer.Length - 1] := 0 as char;
    } else {
      buffer[ptr.pos] := 0 as char;
    }
    bytes := ptr.pos;
  }

  /** mxmlSaveString. */
  method SaveString(node: Node, buffer: array<char>, wrap: int, ghost j: Job) returns (bytes: int)
    requires Writing(j, j.node, 0) && Aimed(j) && node == j.node && wrap == j.wrap && buffer.Length > 0
    modifies buffer
    ensures bytes == |Whole(j)| && Holds(buffer[..], old(buffer[..]), Whole(j))
  {
    var ptr := new Sink(buffer);
    WriteAll(node, ptr, wrap, j);
    bytes := Terminate(ptr, buffer);
  }

  /** strdup. */
  method StrDup(s: array<char>) returns (copy: array<char>)
    requires exists n :: 0 <= n < s.Length && s[n] == 0 as char
    ensures fresh(copy) && copy.Length > 0 && copy[copy.Length - 1] == 0 as char
    ensures copy.Length <= s.Length && copy[..] == s[..copy.Length]
    ensures forall k | 0 <= k < copy.Length - 1 :: s[k] != 0 as char
  {
    var n := 0;
    while s[n] != 0 as char
      invariant 0 <= n < s.Length && forall k | 0 <= k < n :: s[k] != 0 as char
      decreases s.Length - n
    {
      n := n + 1;
    }
    copy := new char[n + 1](i requires 0 <= i <= n reads s => s[i]);
  }

  lemma HoldsAll(now: seq<char>, before: seq<char>, text: CStr)
    requires Holds(now, before, text) && |now| == |text| + 1
    ensures now == text + [0 as char]
  {
    assert now == now[..|text|] + [now[|text|]];
  }

  /** The text does not fit: it is written again, into a buffer of the right size. */
  method Long(node: Node, bytes: int, wrap: int, ghost j: Job) returns (s: array<char>)
    requires Writing(j, j.node, 0) && Aimed(j) && node == j.node && wrap == j.wrap && bytes == |Whole(j)|
    ensures fresh(s) && s[..] == Whole(j) + [0 as char]
  {
    s := new char[bytes + 1];
    ghost var before := s[..];
    var n := SaveString(node, s, wrap, j);
    HoldsAll(s[..], before, Whole(j));
  }

  /** The text fits: what is copied up to the terminator is all of it. */
  method Short(buffer: array<char>, ghost text: CStr) returns (s: array<char>)
    requires |text| + 1 < buffer.Length && buffer[..|text|] == text && buffer[|text|] == 0 as char
    ensures fresh(s) && s[..] == text + [0 as char]
  {
    assert forall k | 0 <= k < |text| :: buffer[k] == text[k];
    s := StrDup(buffer);
    assert s.Length == |text| + 1;
  }

  /** mxmlSaveAllocString: the complete text in a buffer of its own, or null when the text is empty. */
  method SaveAllocString(node: Node, wrap: int, ghost j: Job) returns (s: array?<char>)
    requires Writing(j, j.node, 0) && Aimed(j) && node == j.node && wrap == j.wrap
    ensures if Whole(j) == [] then s == null else s != null && fresh(s) && s[..] == Whole(j) + [0 as char]
  {
    var buffer := new char[8192];
    var bytes := SaveString(node, buffer, wrap, j);
    if bytes <= 0 {
      return null;
    }
    if bytes < 8191 {
      s := Short(buffer, Whole(j));
      return;
    }
    s := Long(node, bytes, wrap, j);
  }
}
