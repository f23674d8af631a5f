/** The loader's main loop over the linked nodes. A ghost document goes along with the local variables: the
    forest and the values that the nodes stand for. Every round does to the variables and the nodes what the
    specification's step does to its state, which holds the open elements as a list; parent is the
    innermost of them and first is the root. At the end the nodes represent the tree that the
    specification returns. */
module MxmlLoad {
  import opened CStrings
  import opened Utf8
  import opened XmlText
  import opened XmlReader
  import opened Forests
  import opened MxmlNode
  import MxmlSearch
  import opened MxmlTree
  import opened MxmlScan
  import opened MxmlSpine

  /** The document built so far. */
  datatype Doc = Doc(f: Forest<Node>, r: map<Node, nat>, vals: map<Node, Value>)

  /** The nodes are linked as the document says, and spell the state; parent is the innermost open
      element and first the root. */
  ghost predicate Shows(d: Doc, parent: Node?, first: Node?, st: State)
    reads d.f.kids.Keys
  {
    MxmlSearch.Document(d.f, d.r) && MxmlSearch.Labelled(d.f, d.vals) && Spells(d.f, d.r, d.vals, parent, first, st)
  }

  ghost predicate SpellsDoc(d: Doc, parent: Node?, first: Node?, st: State) {
    Spells(d.f, d.r, d.vals, parent, first, st)
  }

  /** The innermost open element carries the name that an end tag must have. */
  lemma ParentName(d: Doc, parent: Node, first: Node?, st: State)
    requires Shows(d, parent, first, st)
    ensures st.open != [] && parent.value.Element? && parent.value.name == st.open[0].name
  {
    SpineEnd(d.f, d.r, d.vals, first, parent, st.open);
  }

  ghost function Placed(f: Forest<Node>, parent: Node?, leaf: Node): Forest<Node>
    requires parent != null ==> parent in f.kids
  {
    if parent == null then Grow(f, leaf) else Appended(f, parent, leaf)
  }

  lemma PlacedKeys(f: Forest<Node>, parent: Node?, leaf: Node)
    requires parent != null ==> parent in f.kids
    ensures Placed(f, parent, leaf).kids.Keys == f.kids.Keys + {leaf}
  {
  }

  /** A new node hangs below parent; the others have the values they had. */
  ghost predicate Hangs(d: Doc, g: Forest<Node>, leaf: Node)
    reads leaf, g.kids.Keys
  {
    && Represents(g) && leaf !in d.f.kids && g.kids.Keys == d.f.kids.Keys + {leaf} && d.vals.Keys == d.f.kids.Keys
    && forall n | n in d.f.kids :: n.value == d.vals[n]
  }

  method Hang(parent: Node?, v: Value, ghost d: Doc) returns (leaf: Node)
    requires Represents(d.f) && MxmlSearch.Labelled(d.f, d.vals) && (parent != null ==> parent in d.f.kids)
    modifies d.f.kids.Keys
    ensures fresh(leaf) && leaf.value == v && Hangs(d, Placed(d.f, parent, leaf), leaf)
  {
    leaf := NewNode(parent, v, d.f);
    PlacedKeys(d.f, parent, leaf);
  }

  lemma HangsLabelled(d: Doc, g: Forest<Node>, leaf: Node)
    requires Hangs(d, g, leaf)
    ensures MxmlSearch.Labelled(g, d.vals[leaf := leaf.value])
  {
  }

  lemma TextHung(d: Doc, parent: Node, first: Node?, st: State, leaf: Node) returns (e: Doc)
    requires SpellsDoc(d, parent, first, st) && parent in d.f.kids && Hangs(d, Placed(d.f, parent, leaf), leaf)
    requires leaf.value.TextValue?
    ensures Shows(e, parent, first, Append(st, Text(leaf.value.whitespace, leaf.value.text)))
    ensures forall n | n in e.f.kids :: n in d.f.kids || n == leaf
  {
    var q := TextSpells(d.f, d.r, d.vals, parent, leaf, first, st, leaf.value);
    e := Doc(Appended(d.f, parent, leaf), q, d.vals[leaf := leaf.value]);
    HangsLabelled(d, e.f, leaf);
  }

  method AddTextTo(parent: Node, whitespace: bool, text: CStr, ghost first: Node?, ghost d: Doc, ghost st: State)
      returns (ghost e: Doc)
    requires Shows(d, parent, first, st)
    modifies d.f.kids.Keys
    ensures Shows(e, parent, first, Append(st, Text(whitespace, text)))
    ensures forall n | n in e.f.kids :: n in d.f.kids || fresh(n)
  {
    var leaf := Hang(parent, TextValue(whitespace, text), d);
    e := TextHung(d, parent, first, st, leaf);
  }

  /** A new text node under parent, or a lost one. */
  method AddText(parent: Node?, whitespace: bool, text: CStr, ghost first: Node?, ghost d: Doc, ghost st: State)
      returns (ghost e: Doc)
    requires Shows(d, parent, first, st)
    modifies d.f.kids.Keys
    ensures Shows(e, parent, first, Append(st, Text(whitespace, text)))
    ensures forall n | n in e.f.kids :: n in d.f.kids || fresh(n)
  {
    if parent == null {
      var _ := new Node(TextValue(whitespace, text));
      return d;
    }
    e := AddTextTo(parent, whitespace, text, first, d, st);
  }

  // ---- elements ----

  /** The element's node has been made and hangs where it belongs; its attributes are still to come. */
  ghost predicate Started(d: Doc, parent: Node?, first: Node?, st: State, leaf: Node)
    reads leaf, d.f.kids.Keys
  {
    && SpellsDoc(d, parent, first, st) && leaf.value.Element?
    && (parent == null ==> first == null) && (parent != null ==> parent in d.f.kids)
    && Hangs(d, Placed(d.f, parent, leaf), leaf)
  }

  method NewElement(parent: Node?, name: CStr, ghost first: Node?, ghost d: Doc, ghost st: State) returns (leaf: Node)
    requires Shows(d, parent, first, st) && (parent == null ==> first == null)
    modifies d.f.kids.Keys
    ensures Started(d, parent, first, st, leaf) && fresh(leaf) && leaf.value == Element(name, [])
  {
    leaf := Hang(parent, Element(name, []), d);
  }

  /** What follows when the attributes are complete: the element is done, or it is open. */
  ghost predicate Joined(e: Doc, d: Doc, parent: Node?, root: Node, st: State, leaf: Node, v: Value)
    requires v.Element?
    reads e.f.kids.Keys
  {
    && (forall n | n in e.f.kids :: n in d.f.kids || n == leaf)
    && Shows(e, parent, root, Append(st, Elem(v.name, v.attrs, [])))
    && Shows(e, leaf, root, st.(open := [Frame(v.name, v.attrs, [])] + st.open, textMode := true))
  }

  lemma RootHung(d: Doc, st: State, leaf: Node) returns (e: Doc)
    requires SpellsDoc(d, null, null, st) && Hangs(d, Placed(d.f, null, leaf), leaf) && leaf.value.Element?
    ensures Joined(e, d, null, leaf, st, leaf, leaf.value)
  {
    var q := RootElementSpells(d.f, d.r, d.vals, leaf, st, leaf.value);
    e := Doc(Grow(d.f, leaf), q, d.vals[leaf := leaf.value]);
    HangsLabelled(d, e.f, leaf);
  }

  lemma ChildHung(d: Doc, parent: Node, first: Node?, st: State, leaf: Node) returns (e: Doc)
    requires SpellsDoc(d, parent, first, st) && parent in d.f.kids && Hangs(d, Placed(d.f, parent, leaf), leaf)
    requires leaf.value.Element?
    ensures first != null && Joined(e, d, parent, first, st, leaf, leaf.value)
  {
    var q := ElementSpells(d.f, d.r, d.vals, parent, leaf, first, st, leaf.value);
    e := Doc(Appended(d.f, parent, leaf), q, d.vals[leaf := leaf.value]);
    HangsLabelled(d, e.f, leaf);
  }

  lemma Hung(d: Doc, parent: Node?, first: Node?, st: State, leaf: Node) returns (e: Doc)
    requires Started(d, parent, first, st, leaf)
    ensures Joined(e, d, parent, if first == null then leaf else first, st, leaf, leaf.value)
  {
    if parent == null {
      e := RootHung(d, st, leaf);
    } else {
      e := ChildHung(d, parent, first, st, leaf);
    }
  }

  /** The gathered text and the white space flag are not part of what the nodes spell. */
  lemma SameNodes(d: Doc, parent: Node?, first: Node?, st: State, st1: State)
    requires Shows(d, parent, first, st) && st1 == st.(buffer := st1.buffer, space := st1.space)
    ensures Shows(d, parent, first, st1)
  {
  }

  // ---- one tag ----

  /** The other variables of the loader: the innermost open element, the root, whether white space was
      seen, and whether values become text nodes. */
  datatype Locals = Locals(parent: Node?, first: Node?, whitespace: bool, textMode: bool)

  /** How a round of the main loop ends: go on, end of the input, an error, or something unmodelled. */
  datatype Turn = GoOn(rest: CStr) | Finished | Failure | Beyond

  ghost predicate Holds(d: Doc, m: Locals, st: State)
    reads d.f.kids.Keys
  {
    Shows(d, m.parent, m.first, st) && m.whitespace == st.space && m.textMode == st.textMode
  }

  /** A round ends as the step says, in the state st. */
  ghost predicate Follows(out: Turn, step: Step, d: Doc, m: Locals, st: State)
    reads d.f.kids.Keys
  {
    match out
    case GoOn(rest) => step == Go(rest, st) && Holds(d, m, st)
    case Finished => step == Stop(XmlReader.Finish(st)) && Holds(d, m, st)
    case Failure => step == Stop(Null)
    case Beyond => step == Stop(Unmodelled)
  }

  /** An end tag. */
  method EndTag(tag: CStr, stop: Got, m: Locals, ghost d: Doc, ghost st: State)
      returns (out: Turn, n: Locals, ghost st1: State)
    requires Holds(d, m, st) && tag != [] && !stop.Utf16?
    ensures Follows(out, CloseStep(Scan(tag, stop), st), d, n, st1) && (out.GoOn? ==> st1.buffer == [])
  {
    n, st1 := m, st;
    if m.parent == null {
      return Failure, n, st1;
    }
    ParentName(d, m.parent, m.first, st);
    if tag[1..] != m.parent.value.name {
      return Failure, n, st1;
    }
    var end := PassTag(stop);
    if end.Utf16? {
      return Beyond, n, st1;
    }
    assert LinksOf(m.parent) == LinksIn(d.f, m.parent);
    CloseSpells(d.f, d.r, d.vals, m.parent, m.first, st);
    n := m.(parent := m.parent.parent);
    st1 := Append(st.(open := st.open[1..]), Close(st.open[0])).(buffer := []);
    out := GoOn(end.rest);
  }

  ghost function TagOf(ent: EntityCb, stop: Got): Tag
    requires stop.Char?
  {
    if IsSpace(stop.ch) then ParseElement(ent, stop.rest, [])
    else if stop.ch == '/' as int then XmlReader.CloseTag([], '/' as int, stop.rest)
    else Tag([], stop.ch, stop.rest)
  }

  /** The attributes of a new element, or the end of a tag without any. */
  method Attributes(ent: EntityCb, node: Node, stop: Got) returns (r: Round)
    requires stop.Char? && node.value.Element? && node.value.attrs == []
    modifies node`value
    ensures Agrees(r, End(TagOf(ent, stop)), old(node.value.name), node.value) && node.value.Element?
  {
    if IsSpace(stop.ch) {
      r := ParseTag(ent, node, stop.rest);
    } else if stop.ch == '/' as int {
      r := ReadClose(stop.ch, stop.rest, [], node.value.name);
    } else {
      r := Ended(stop.ch, stop.rest);
    }
  }

  /** Storing the attributes leaves the links and the other nodes alone. */
  method AttributesOf(ent: EntityCb, node: Node, stop: Got, ghost g: Forest<Node>) returns (r: Round)
    requires stop.Char? && node.value.Element? && node.value.attrs == [] && Represents(g)
    modifies node`value
    ensures Represents(g) && forall n: Node | n in g.kids && n != node :: n.value == old(n.value)
    ensures Agrees(r, End(TagOf(ent, stop)), old(node.value.name), node.value) && node.value.Element?
  {
    r := Attributes(ent, node, stop);
  }

  method ReadAttributes(ent: EntityCb, node: Node, stop: Got, ghost m: Locals, ghost d: Doc, ghost st: State)
      returns (r: Round)
    requires stop.Char? && Started(d, m.parent, m.first, st, node) && node.value.attrs == []
    modifies node`value
    ensures Started(d, m.parent, m.first, st, node)
    ensures Agrees(r, End(TagOf(ent, stop)), old(node.value.name), node.value)
  {
    r := AttributesOf(ent, node, stop, Placed(d.f, m.parent, node));
  }

  function WithFirst(m: Locals, node: Node): Locals {
    if m.first == null then m.(first := node) else m
  }

  /** The element is finished, or it is the innermost open one from now on. */
  lemma Entered(d: Doc, m: Locals, st: State, node: Node) returns (e: Doc)
    requires Started(d, m.parent, m.first, st, node) && m.whitespace == st.space && m.textMode == st.textMode
    ensures forall x | x in e.f.kids :: x in d.f.kids || x == node
    ensures Holds(e, WithFirst(m, node), Append(st, Elem(node.value.name, node.value.attrs, [])))
    ensures Holds(e, WithFirst(m, node).(parent := node, textMode := true),
                  st.(open := [Frame(node.value.name, node.value.attrs, [])] + st.open, textMode := true))
  {
    e := Hung(d, m.parent, m.first, st, node);
  }

  /** What the loader does with the tag that was read. */
  ghost function AfterParse(t: Tag, tag: CStr, st: State): Step {
    match t
    case TagUtf16 => Stop(Unmodelled)
    case TagFailed => Stop(Null)
    case Tag(attrs, end, rest) =>
      if end == '/' as int then Go(rest, Append(st, Elem(tag, attrs, [])).(buffer := []))
      else Go(rest, st.(open := [Frame(tag, attrs, [])] + st.open, buffer := [], textMode := true))
  }

  lemma OpenStepIs(ent: EntityCb, tag: CStr, stop: Got, st: State)
    requires stop.Char? && (st.open == [] ==> st.root.None?)
    ensures OpenStep(ent, Scan(tag, stop), st) == AfterParse(TagOf(ent, stop), tag, st)
  {
  }

  /** The end of an opening tag, after its attributes. */
  method AfterTag(node: Node, r: Round, m: Locals, ghost t: Tag, ghost d: Doc, ghost st: State)
      returns (out: Turn, n: Locals, ghost e: Doc, ghost st1: State)
    requires Started(d, m.parent, m.first, st, node) && Agrees(r, End(t), node.value.name, node.value)
    requires m.whitespace == st.space && m.textMode == st.textMode
    ensures Follows(out, AfterParse(t, node.value.name, st), e, n, st1) && (out.GoOn? ==> st1.buffer == [])
    ensures forall x | x in e.f.kids :: x in d.f.kids || x == node
  {
    n, e, st1 := m, d, st;
    if r.Wide? {
      return Beyond, n, e, st1;
    }
    if r.Bad? {
      return Failure, n, e, st1;
    }
    e := Entered(d, m, st, node);
    n := WithFirst(m, node);
    if r.ch != '/' as int {
      n := n.(parent := node, textMode := true);
      st1 := AfterParse(t, node.value.name, st).st;
      SameNodes(e, n.parent, n.first, st1.(buffer := st.buffer), st1);
    } else {
      st1 := AfterParse(t, node.value.name, st).st;
      SameNodes(e, n.parent, n.first, Append(st, Elem(node.value.name, node.value.attrs, [])), st1);
    }
    out := GoOn(r.rest);
  }

  /** An opening tag. */
  method StartTag(ent: EntityCb, tag: CStr, stop: Got, m: Locals, ghost d: Doc, ghost st: State)
      returns (out: Turn, n: Locals, ghost e: Doc, ghost st1: State)
    requires Holds(d, m, st) && !stop.Utf16?
    modifies d.f.kids.Keys
    ensures Follows(out, OpenStep(ent, Scan(tag, stop), st), e, n, st1) && (out.GoOn? ==> st1.buffer == [])
    ensures forall x | x in e.f.kids :: x in d.f.kids || fresh(x)
  {
    n, e, st1 := m, d, st;
    if m.parent == null && m.first != null {
      return Failure, n, e, st1;
    }
    var node := NewElement(m.parent, tag, m.first, d, st);
    if stop.Eof? {
      e := Entered(d, m, st, node);
      n := WithFirst(m, node);
      st1 := Append(st, Elem(tag, [], []));
      return Finished, n, e, st1;
    }
    OpenStepIs(ent, tag, stop, st);
    var r := ReadAttributes(ent, node, stop, m, d, st);
    out, n, e, st1 := AfterTag(node, r, m, TagOf(ent, stop), d, st);
  }

  method TagWord(ent: EntityCb, s: CStr, buffer: CharBuffer) returns (failed: bool, stop: Got, tag: CStr)
    requires buffer.Valid()
    modifies buffer, buffer.data
    ensures buffer.Valid() && (buffer.data == old(buffer.data) || fresh(buffer.data))
    ensures var r := ScanTag(ent, s, []); failed == r.Failed? && (!failed ==> stop == r.stop && tag == r.text)
  {
    buffer.Clear();
    failed, stop := ReadTag(ent, s, buffer);
    buffer.Terminate();
    tag := CString(buffer.Text());
    CStringWhole(ScanText(ScanTag(ent, s, [])));
  }

  method TagTurn(ent: EntityCb, tag: CStr, stop: Got, m: Locals, ghost d: Doc, ghost st: State)
      returns (out: Turn, n: Locals, ghost e: Doc, ghost st1: State)
    requires Holds(d, m, st) && !stop.Utf16?
    modifies d.f.kids.Keys
    ensures Follows(out, if StartsWith(tag, '/') then CloseStep(Scan(tag, stop), st)
                         else OpenStep(ent, Scan(tag, stop), st),
                    e, n, st1)
    ensures out.GoOn? ==> st1.buffer == []
    ensures forall x | x in e.f.kids :: x in d.f.kids || fresh(x)
  {
    if StartsWith(tag, '/') {
      out, n, st1 := EndTag(tag, stop, m, d, st);
      e := d;
    } else {
      out, n, e, st1 := StartTag(ent, tag, stop, m, d, st);
    }
  }

  /** Whatever stands between '<' and '>'. */
  method AnyTag(ent: EntityCb, s: CStr, m: Locals, buffer: CharBuffer, ghost d: Doc, ghost st: State)
      returns (out: Turn, n: Locals, ghost e: Doc, ghost st1: State)
    requires Holds(d, m, st) && buffer.Valid()
    modifies d.f.kids.Keys, buffer, buffer.data
    ensures Follows(out, TagStepOf(ent, ScanTag(ent, s, []), st), e, n, st1)
    ensures buffer.Valid() && (buffer.data == old(buffer.data) || fresh(buffer.data))
    ensures out.GoOn? ==> buffer.Text() == st1.buffer == []
    ensures forall x | x in e.f.kids :: x in d.f.kids || fresh(x)
  {
    n, e, st1 := m, d, st;
    var failed, stop, tag := TagWord(ent, s, buffer);
    if failed {
      return Failure, n, e, st1;
    }
    if stop.Utf16? || StartsWith(tag, '?') || StartsWith(tag, '!') {
      return Beyond, n, e, st1;
    }
    out, n, e, st1 := TagTurn(ent, tag, stop, m, d, st);
    buffer.Clear();
  }

  // ---- values ----

  method TakeWord(buffer: CharBuffer, ghost word: CStr) returns (text: CStr)
    requires buffer.Valid() && buffer.Text() == word
    modifies buffer`pos, buffer.data
    ensures buffer.Valid() && buffer.Text() == [] && text == word
  {
    buffer.Terminate();
    CStringWhole(word);
    text := CString(buffer.Text());
    buffer.Clear();
  }

  function Worded(st: State, ch: int): State {
    var added := if st.textMode then Append(st, Text(st.space, st.buffer)) else st;
    added.(buffer := [], space := IsSpace(ch) && st.textMode)
  }

  method AddWord(ch: int, text: CStr, m: Locals, ghost d: Doc, ghost st: State) returns (n: Locals, ghost e: Doc)
    requires Holds(d, m, st) && text == st.buffer
    modifies d.f.kids.Keys
    ensures Holds(e, n, Worded(st, ch))
    ensures forall x | x in e.f.kids :: x in d.f.kids || fresh(x)
  {
    e := d;
    ghost var added := st;
    if m.textMode {
      e := AddText(m.parent, m.whitespace, text, m.first, d, st);
      added := Append(st, Text(st.space, st.buffer));
    }
    SameNodes(e, m.parent, m.first, added, Worded(st, ch));
    n := m.(whitespace := IsSpace(ch) && m.textMode);
  }

  /** The word before '<' or white space becomes a text node, or is thrown away. */
  method EndWord(ch: int, m: Locals, buffer: CharBuffer, ghost d: Doc, ghost st: State)
      returns (n: Locals, ghost e: Doc)
    requires Holds(d, m, st) && buffer.Valid() && buffer.Text() == st.buffer && st.buffer != []
    modifies d.f.kids.Keys, buffer`pos, buffer.data
    ensures Holds(e, n, Worded(st, ch)) && buffer.Valid() && buffer.data == old(buffer.data) && buffer.Text() == []
    ensures forall x | x in e.f.kids :: x in d.f.kids || fresh(x)
  {
    var text := TakeWord(buffer, st.buffer);
    n, e := AddWord(ch, text, m, d, st);
  }

  function Spaced(st: State, ch: int): State {
    if ch == '<' as int && st.space && st.textMode then
      (if st.open != [] then Append(st, Text(true, [])) else st).(space := false)
    else st
  }

  /** White space before '<' becomes an empty text node. */
  method LoneSpace(ch: int, m: Locals, ghost d: Doc, ghost st: State) returns (n: Locals, ghost e: Doc)
    requires Holds(d, m, st)
    modifies d.f.kids.Keys
    ensures Holds(e, n, Spaced(st, ch))
    ensures forall x | x in e.f.kids :: x in d.f.kids || fresh(x)
  {
    n, e := m, d;
    if ch == '<' as int && m.whitespace && m.textMode {
      if m.parent != null {
        e := AddText(m.parent, true, [], m.first, d, st);
      }
      n := m.(whitespace := false);
    }
  }

  lemma FlushIs(st: State, ch: int)
    ensures var st1 := if (ch == '<' as int || IsSpace(ch)) && st.buffer != [] then Worded(st, ch)
                       else if IsSpace(ch) && st.textMode then st.(space := true) else st;
      FlushValue(st, ch) == Spaced(st1, ch) && Spaced(st1, ch).buffer == st1.buffer
  {
  }

  /** The part of a round that deals with value nodes. */
  method EndValue(ch: int, m: Locals, buffer: CharBuffer, ghost d: Doc, ghost st: State)
      returns (n: Locals, ghost e: Doc)
    requires Holds(d, m, st) && buffer.Valid() && buffer.Text() == st.buffer
    modifies d.f.kids.Keys, buffer`pos, buffer.data
    ensures Holds(e, n, FlushValue(st, ch)) && buffer.Valid() && buffer.data == old(buffer.data)
    ensures buffer.Text() == FlushValue(st, ch).buffer
    ensures forall x | x in e.f.kids :: x in d.f.kids || fresh(x)
  {
    FlushIs(st, ch);
    n, e := m, d;
    ghost var st1 := st;
    if (ch == '<' as int || IsSpace(ch)) && buffer.pos > 0 {
      n, e := EndWord(ch, m, buffer, d, st);
      st1 := Worded(st, ch);
    } else if IsSpace(ch) && m.textMode {
      n := m.(whitespace := true);
      st1 := st.(space := true);
    }
    n, e := LoneSpace(ch, n, e, st1);
  }

  // ---- mxml_load_data ----

  /** A character outside of tags. */
  ghost function CharStep(ent: EntityCb, g: Got, st: State): Step
    requires g.Char? && Accepted(g.ch)
  {
    if g.ch == '&' as int then
      var e := GetEntity(ent, g.rest);
      if e.Utf16? then Stop(Unmodelled)
      else if e.Eof? then Stop(Null)
      else Go(e.rest, st.(buffer := st.buffer + Encode(e.ch)))
    else if IsSpace(g.ch) then Go(g.rest, st)
    else Go(g.rest, st.(buffer := st.buffer + Encode(g.ch)))
  }

  lemma LoadStepIs(ent: EntityCb, s: CStr, st: State)
    requires Getc(s).Char?
    ensures var g := Getc(s); var st1 := FlushValue(st, g.ch);
      LoadStep(ent, s, st) == if g.ch == '<' as int then TagStepOf(ent, ScanTag(ent, g.rest, []), st1)
                              else CharStep(ent, g, st1)
  {
  }

  method OneChar(ent: EntityCb, g: Got, buffer: CharBuffer, ghost st: State) returns (out: Turn)
    requires buffer.Valid() && buffer.Text() == st.buffer && g.Char? && Accepted(g.ch)
    modifies buffer, buffer.data
    ensures buffer.Valid() && (buffer.data == old(buffer.data) || fresh(buffer.data))
    ensures match CharStep(ent, g, st)
            case Go(rest, st1) => out == GoOn(rest) && buffer.Text() == st1.buffer && st1 == st.(buffer := st1.buffer)
            case Stop(Null) => out == Failure
            case Stop(_) => out == Beyond
  {
    if g.ch == '&' as int {
      var e := ReadEntity(ent, g.rest);
      if e.Utf16? {
        return Beyond;
      }
      if e.Eof? {
        return Failure;
      }
      buffer.AddChar(e.ch);
      return GoOn(e.rest);
    }
    if !IsSpace(g.ch) {
      buffer.AddChar(g.ch);
    }
    out := GoOn(g.rest);
  }

  method CharTurn(ent: EntityCb, g: Got, ghost m: Locals, buffer: CharBuffer, ghost d: Doc, ghost st: State)
      returns (out: Turn, ghost st1: State)
    requires Holds(d, m, st) && buffer.Valid() && buffer.Text() == st.buffer && g.Char? && Accepted(g.ch)
    modifies buffer, buffer.data
    ensures Follows(out, CharStep(ent, g, st), d, m, st1)
    ensures buffer.Valid() && (buffer.data == old(buffer.data) || fresh(buffer.data))
    ensures out.GoOn? ==> buffer.Text() == st1.buffer
  {
    ghost var step := CharStep(ent, g, st);
    st1 := if step.Go? then step.st else st;
    if step.Go? {
      SameNodes(d, m.parent, m.first, st, st1);
    }
    out := OneChar(ent, g, buffer, st);
  }

  /** One round of the main loop. */
  method Turning(ent: EntityCb, s: CStr, m: Locals, buffer: CharBuffer, ghost d: Doc, ghost st: State)
      returns (out: Turn, n: Locals, ghost e: Doc, ghost st1: State)
    requires Holds(d, m, st) && buffer.Valid() && buffer.Text() == st.buffer
    modifies d.f.kids.Keys, buffer, buffer.data
    ensures Follows(out, LoadStep(ent, s, st), e, n, st1)
    ensures buffer.Valid() && (buffer.data == old(buffer.data) || fresh(buffer.data))
    ensures out.GoOn? ==> buffer.Text() == st1.buffer
    ensures forall x | x in e.f.kids :: x in d.f.kids || fresh(x)
  {
    n, e, st1 := m, d, st;
    var g := Getc(s);
    if g.Utf16? {
      return Beyond, n, e, st1;
    }
    if g.Eof? {
      return Finished, n, e, st1;
    }
    LoadStepIs(ent, s, st);
    n, e := EndValue(g.ch, m, buffer, d, st);
    st1 := FlushValue(st, g.ch);
    if g.ch == '<' as int {
      out, n, e, st1 := AnyTag(ent, g.rest, n, buffer, e, st1);
    } else {
      out, st1 := CharTurn(ent, g, n, buffer, e, st1);
    }
  }

  /** A node is the root of a tree in its document. */
  ghost predicate IsTree(d: Doc, node: Node, x: Xml)
    reads d.f.kids.Keys
  {
    && MxmlSearch.Document(d.f, d.r) && MxmlSearch.Labelled(d.f, d.vals) && Typed(d.f, d.vals)
    && node in d.f.kids && node !in d.f.up && TreeOf(d.f, d.r, d.vals, node) == x
  }

  /** A bound of all ranks. */
  ghost function MaxRank(r: map<Node, nat>, s: set<Node>): nat
    requires s <= r.Keys
    decreases |s|
  {
    if s == {} then 0
    else
      var n :| n in s;
      var m := MaxRank(r, s - {n});
      if r[n] > m then r[n] else m
  }

  lemma {:induction false} RankBound(r: map<Node, nat>, s: set<Node>, x: Node)
    requires s <= r.Keys && x in s
    ensures r[x] <= MaxRank(r, s)
    decreases |s|
  {
    var n :| n in s && MaxRank(r, s) == (if r[n] > MaxRank(r, s - {n}) then r[n] else MaxRank(r, s - {n}));
    if n != x {
      RankBound(r, s - {n}, x);
    }
  }

  method TopOf(start: Node, ghost d: Doc) returns (top: Node)
    requires MxmlSearch.Document(d.f, d.r) && start in d.f.kids
    ensures top == start <==> start !in d.f.up
  {
    top := start;
    while top.parent != null
      invariant top in d.f.kids && (top == start || (start in d.f.up && d.r[top] > d.r[start]))
      decreases MaxRank(d.r, d.r.Keys) - d.r[top]
    {
      assert LinksOf(top) == LinksIn(d.f, top);
      RankBound(d.r, d.r.Keys, top.parent);
      top := top.parent;
    }
    assert LinksOf(top) == LinksIn(d.f, top);
  }

  lemma EndOfSpine(d: Doc, parent: Node, first: Node?, st: State)
    requires Shows(d, parent, first, st)
    ensures parent !in d.f.up ==> XmlReader.Finish(st) == Tree(TreeOf(d.f, d.r, d.vals, parent))
    ensures parent in d.f.up ==> XmlReader.Finish(st) == Null
  {
    if |st.open| == 1 {
      SpineEnd(d.f, d.r, d.vals, first, parent, st.open);
    } else {
      ChainParent(d.f, d.r, first, parent, |st.open| - 1);
    }
  }

  /** At the end of the input: the root, unless an end tag other than its own is missing. */
  method AtEnd(m: Locals, ghost d: Doc, ghost st: State) returns (node: Node?)
    requires Holds(d, m, st)
    ensures match XmlReader.Finish(st)
            case Tree(x) => node != null && IsTree(d, node, x)
            case Null => node == null
            case Unmodelled => false
  {
    if m.parent == null {
      return m.first;
    }
    var top := TopOf(m.parent, d);
    EndOfSpine(d, m.parent, m.first, st);
    node := if top == m.parent then top else null;
  }

  lemma Nothing()
    ensures Holds(Doc(Forest(map[], map[]), map[], map[]), Locals(null, null, false, false), INITIAL)
  {
  }

  /** Wherever the loop stands, what is still to be done gives the result of the whole load. */
  ghost predicate Leads(out: Turn, result: Loaded, ent: EntityCb, d: Doc, m: Locals, st: State)
    reads d.f.kids.Keys
  {
    match out
    case GoOn(rest) => Holds(d, m, st) && Load(ent, rest, st) == result
    case Finished => Holds(d, m, st) && XmlReader.Finish(st) == result
    case Failure => result == Null
    case Beyond => result == Unmodelled
  }

  lemma StillLeads(ent: EntityCb, s: CStr, st: State, out: Turn, d: Doc, m: Locals, st1: State)
    requires Follows(out, LoadStep(ent, s, st), d, m, st1)
    ensures Leads(out, Load(ent, s, st), ent, d, m, st1)
    ensures out.GoOn? ==> |out.rest| < |s|
  {
  }

  method TurnOnce(ent: EntityCb, s: CStr, m: Locals, buffer: CharBuffer, ghost result: Loaded, ghost d: Doc,
                  ghost st: State)
      returns (out: Turn, n: Locals, ghost e: Doc, ghost st1: State)
    requires Leads(GoOn(s), result, ent, d, m, st) && buffer.Valid() && buffer.Text() == st.buffer
    modifies d.f.kids.Keys, buffer, buffer.data
    ensures Leads(out, result, ent, e, n, st1) && (out.GoOn? ==> |out.rest| < |s|)
    ensures buffer.Valid() && (buffer.data == old(buffer.data) || fresh(buffer.data))
    ensures out.GoOn? ==> buffer.Text() == st1.buffer
    ensures forall x | x in e.f.kids :: x in d.f.kids || fresh(x)
  {
    out, n, e, st1 := Turning(ent, s, m, buffer, d, st);
    StillLeads(ent, s, st, out, e, n, st1);
  }

  /** The buffer and the nodes lie in a set of objects. */
  ghost predicate Within(mine: set<object>, buffer: CharBuffer, d: Doc)
    reads buffer
  {
    buffer in mine && buffer.data in mine && forall n | n in d.f.kids :: n in mine
  }

  method TurnMine(ent: EntityCb, s: CStr, m: Locals, buffer: CharBuffer, ghost result: Loaded, ghost d: Doc,
                  ghost st: State,
                  ghost mine: set<object>)
      returns (out: Turn, n: Locals, ghost e: Doc, ghost st1: State, ghost more: set<object>)
    requires Leads(GoOn(s), result, ent, d, m, st) && buffer.Valid() && buffer.Text() == st.buffer
    requires Within(mine, buffer, d)
    modifies mine
    ensures Leads(out, result, ent, e, n, st1) && (out.GoOn? ==> |out.rest| < |s|)
    ensures buffer.Valid() && (out.GoOn? ==> buffer.Text() == st1.buffer)
    ensures Within(more, buffer, e) && forall x | x in more :: x in mine || fresh(x)
  {
    out, n, e, st1 := TurnOnce(ent, s, m, buffer, result, d, st);
    ghost var nodes: set<object> := set x | x in e.f.kids;
    assert forall x | x in nodes :: x in mine || fresh(x);
    more := mine + {buffer.data} + nodes;
  }

  method LoadLoop(ent: EntityCb, s: CStr, buffer: CharBuffer, ghost result: Loaded, ghost all: set<object>)
      returns (out: Turn, m: Locals, ghost d: Doc, ghost st: State)
    requires result == LoadText(ent, s) && buffer.Valid() && buffer.Text() == [] && all == {buffer, buffer.data}
    modifies all
    ensures !out.GoOn? && Leads(out, result, ent, d, m, st)
  {
    m := Locals(null, null, false, false);
    st := INITIAL;
    d := Doc(Forest(map[], map[]), map[], map[]);
    ghost var mine := all;
    out := GoOn(s);
    Nothing();
    while out.GoOn?
      invariant (forall x | x in mine :: x in all || fresh(x)) && Within(mine, buffer, d) && buffer.Valid()
      invariant Leads(out, result, ent, d, m, st) && (out.GoOn? ==> buffer.Text() == st.buffer)
      decreases if out.GoOn? then |out.rest| + 1 else 0
    {
      out, m, d, st, mine := TurnMine(ent, out.rest, m, buffer, result, d, st, mine);
    }
  }

  /** mxml_load_data without a parent and without a callback: the loop. */
  method LoadData(ent: EntityCb, s: CStr) returns (out: Turn, m: Locals, ghost d: Doc, ghost st: State)
    ensures !out.GoOn? && Leads(out, LoadText(ent, s), ent, d, m, st)
  {
    var buffer := new CharBuffer();
    out, m, d, st := LoadLoop(ent, s, buffer, LoadText(ent, s), {buffer, buffer.data});
  }

  /** mxmlLoadString: the linked document that the text describes, or null. */
  method LoadString(ent: EntityCb, s: CStr) returns (node: Node?, beyond: bool, ghost d: Doc)
    ensures match LoadText(ent, s)
            case Tree(x) => node != null && !beyond && IsTree(d, node, x)
            case Null => node == null && !beyond
            case Unmodelled => beyond
  {
    var out, m;
    ghost var st;
    out, m, d, st := LoadData(ent, s);
    match out
    case Finished => node := AtEnd(m, d, st); beyond := false;
    case Failure => node, beyond := null, false;
    case Beyond => node, beyond := null, true;
  }
}
