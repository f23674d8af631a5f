/** What the loader makes of text around the root, of a second root and of end tags that are missing or wrong. */
module LoadErrors {
  import opened CStrings
  import opened Utf8
  import opened XmlText
  import opened Attributes
  import opened XmlReader
  import opened RoundTrip
  import opened WordRoundTrip
  import opened TreeRoundTrip

  /** Accepted characters without a tag or an entity. */
  predicate Idle(s: CStr) {
    WellEncoded(s) && forall i | 0 <= i < |s| :: s[i] != '<' && s[i] != '&'
  }

  lemma IdleFront(s: CStr) returns (ch: int, r: CStr)
    requires Idle(s) && s != []
    ensures Accepted(ch) && ch != '<' as int && ch != '&' as int
    ensures s == Encode(ch) + r && |r| < |s| && Idle(r)
  {
    EncodeGetc(s);
    ch, r := Getc(s).ch, Getc(s).rest;
    assert s[0] == Encode(ch)[0];
    forall i | 0 <= i < |r| ensures r[i] != '<' && r[i] != '&' {
      assert r[i] == s[|Encode(ch)| + i];
    }
  }

  /** No element is open; what is gathered will be thrown away. */
  predicate Outside(st: State) {
    st.open == [] && (!st.textMode ==> !st.space)
  }

  lemma IdleStep(ent: EntityCb, ch: int, t: CStr, st: State) returns (now: State)
    requires Outside(st) && Accepted(ch) && ch != '<' as int && ch != '&' as int
    ensures Load(ent, Encode(ch) + t, st) == Load(ent, t, now)
    ensures Outside(now) && now.root == st.root && now.textMode == st.textMode
  {
    GetcEncode(ch, t);
    now := LoadStep(ent, Encode(ch) + t, st).st;
    LoadGo(ent, Encode(ch) + t, st, t, now);
  }

  /** Text outside of the root changes nothing that lasts. */
  lemma {:induction false} LoadIdle(ent: EntityCb, s: CStr, t: CStr, st: State) returns (now: State)
    requires Outside(st) && Idle(s)
    ensures Load(ent, s + t, st) == Load(ent, t, now)
    ensures Outside(now) && now.root == st.root && now.textMode == st.textMode
    decreases |s|
  {
    if s == [] {
      assert s + t == t;
      now := st;
    } else {
      var ch, r := IdleFront(s);
      Assoc(Encode(ch), r, t);
      now := IdleStep(ent, ch, r + t, st);
      now := LoadIdle(ent, r, t, now);
    }
  }

  lemma OutsideTag(st: State)
    requires Outside(st)
    ensures FlushValue(st, '<' as int) == st.(buffer := [], space := false)
  {
  }

  lemma FromStart(ent: EntityCb, u: CStr, now: State)
    requires Outside(now) && now.root == None && !now.textMode
    ensures Load(ent, "<" + u, now) == Load(ent, "<" + u, INITIAL)
  {
    OutsideTag(now);
    TagStepAt(ent, u, now);
    TagStepAt(ent, u, INITIAL);
  }

  lemma OutsideEnd(ent: EntityCb, now: State)
    requires Outside(now) && now.root.Some?
    ensures Load(ent, [], now) == Tree(now.root.value)
  {
  }

  lemma AfterRoot(x: Xml)
    requires x.Elem?
    ensures Outside(After(INITIAL, x)) && After(INITIAL, x).root == Some(x)
  {
  }

  lemma SavedIs(x: Xml, wrap: int) returns (tail: CStr)
    ensures SaveText(x, wrap) == WriteNode(x, 0, wrap).text + tail && Idle(tail)
  {
    tail := if WriteNode(x, 0, wrap).col > 0 then "\n" else [];
    if tail != [] {
      assert Getc(tail) == Char(10, tail[1..]);
    }
  }

  /** A saved tree is loaded and more text follows. */
  lemma LoadSaved(ent: EntityCb, x: Xml, wrap: int, t: CStr) returns (now: State)
    requires StandardEntities(ent) && TreeOk(x)
    ensures Load(ent, SaveText(x, wrap) + t, INITIAL) == Load(ent, t, now)
    ensures Outside(now) && now.root == Some(x)
  {
    var w := WriteNode(x, 0, wrap).text;
    var tail := SavedIs(x, wrap);
    Assoc(w, tail, t);
    LoadNode(ent, x, 0, wrap, w, tail + t, INITIAL);
    AfterRoot(x);
    now := LoadIdle(ent, tail, t, After(INITIAL, x));
  }

  lemma SavedStarts(x: Xml, wrap: int) returns (u: CStr)
    requires x.Elem?
    ensures SaveText(x, wrap) == "<" + u
  {
    u := StartsTag(x, 0, wrap);
    var tail := SavedIs(x, wrap);
    Assoc("<", u, tail);
    u := u + tail;
  }

  /** Text before and after the root is ignored. */
  lemma AroundRoot(ent: EntityCb, x: Xml, wrap: int, before: CStr, after: CStr)
    requires StandardEntities(ent) && TreeOk(x) && Idle(before) && Idle(after)
    ensures LoadText(ent, before + (SaveText(x, wrap) + after)) == Tree(x)
  {
    var now := LoadIdle(ent, before, SaveText(x, wrap) + after, INITIAL);
    var u := SavedStarts(x, wrap);
    Assoc("<", u, after);
    FromStart(ent, u + after, now);
    now := LoadSaved(ent, x, wrap, after);
    assert after + [] == after;
    now := LoadIdle(ent, after, [], now);
    OutsideEnd(ent, now);
  }

  lemma SecondTag(ent: EntityCb, name: CStr, t: CStr, now: State)
    requires Outside(now) && now.root.Some? && ElemNameOk(name)
    requires Getc(t).Char? && (IsSpace(Getc(t).ch) || Getc(t).ch == '>' as int)
    ensures Load(ent, "<" + (name + t), now) == Null
  {
    ScanTagWord(ent, name, t, []);
    assert [] + name == name;
    ElemNameWritten(name);
    NoSlash(name);
    OutsideTag(now);
    TagStepAt(ent, name + t, now);
  }

  /** A second element beside the root is an error. */
  lemma SecondRoot(ent: EntityCb, x: Xml, wrap: int, gap: CStr, name: CStr, t: CStr)
    requires StandardEntities(ent) && TreeOk(x) && Idle(gap) && ElemNameOk(name)
    requires Getc(t).Char? && (IsSpace(Getc(t).ch) || Getc(t).ch == '>' as int)
    ensures LoadText(ent, SaveText(x, wrap) + (gap + ("<" + (name + t)))) == Null
  {
    var s := "<" + (name + t);
    var now := LoadSaved(ent, x, wrap, gap + s);
    now := LoadIdle(ent, gap, s, now);
    SecondTag(ent, name, t, now);
  }

  // ---- end tags ----

  /** A printed element without its end tag. */
  function Begun(name: CStr, attrs: seq<Attr>, kids: seq<Xml>, wrap: int): CStr {
    var open := WriteOpen(name, attrs, false, 0, wrap);
    open.text + WriteNodes(kids, open.col, wrap).text
  }

  lemma LoadBegun(ent: EntityCb, name: CStr, attrs: seq<Attr>, kids: seq<Xml>, wrap: int, t: CStr)
    requires StandardEntities(ent) && ElemNameOk(name) && AttrsOk(attrs) && KidsOk(kids)
    ensures Load(ent, Begun(name, attrs, kids, wrap) + t, INITIAL) == Load(ent, t, Reading(INITIAL, name, attrs, kids))
    ensures LastOk(kids)
  {
    var open := WriteOpen(name, attrs, false, 0, wrap);
    var i := WriteNodes(kids, open.col, wrap).text;
    Assoc(open.text, i, t);
    EnterTree(ent, name, attrs, 0, wrap, open.text, i + t, INITIAL);
    OpenCol(name, attrs, false, 0, wrap);
    assert [] + kids == kids && kids + [] == kids;
    LoadKids(ent, kids, open.col, wrap, i, t, INITIAL, name, attrs, []);
    LastIsOk(kids, []);
  }

  lemma WrongTag(ent: EntityCb, other: CStr, t: CStr, st: State)
    requires Between(st) && ElemNameOk(other) && (st.open != [] ==> other != st.open[0].name)
    ensures Load(ent, "<" + ("/" + (other + (">" + t))), st) == Null
  {
    ScanEndTag(ent, other, t);
    assert ("/" + other)[1..] == other;
    StartTag(ent, "/" + (other + (">" + t)), st);
  }

  /** An end tag for another name is an error. */
  lemma WrongEnd(ent: EntityCb, name: CStr, attrs: seq<Attr>, kids: seq<Xml>, wrap: int, other: CStr, t: CStr)
    requires StandardEntities(ent) && ElemNameOk(name) && AttrsOk(attrs) && KidsOk(kids)
    requires ElemNameOk(other) && other != name
    ensures LoadText(ent, Begun(name, attrs, kids, wrap) + ("<" + ("/" + (other + (">" + t))))) == Null
  {
    var u := "/" + (other + (">" + t));
    LoadBegun(ent, name, attrs, kids, wrap, "<" + u);
    FlushTag(ent, u, INITIAL, name, attrs, kids);
    WrongTag(ent, other, t, Inside(INITIAL, name, attrs, kids));
  }

  /** The children whose end has been seen: a text at the end is still in the buffer. */
  function Ended(kids: seq<Xml>): seq<Xml> {
    if EndsInText(kids) then kids[..|kids| - 1] else kids
  }

  /** The end tag of the root may be missing. */
  lemma MissingEnd(ent: EntityCb, name: CStr, attrs: seq<Attr>, kids: seq<Xml>, wrap: int)
    requires StandardEntities(ent) && ElemNameOk(name) && AttrsOk(attrs) && KidsOk(kids)
    ensures LoadText(ent, Begun(name, attrs, kids, wrap)) == Tree(Elem(name, attrs, Ended(kids)))
  {
    var w := Begun(name, attrs, kids, wrap);
    assert w + [] == w;
    LoadBegun(ent, name, attrs, kids, wrap, []);
    assert Reading(INITIAL, name, attrs, kids).open == [Frame(name, attrs, Ended(kids))];
  }

  /** The end tag of an inner element may not. */
  lemma MissingInnerEnd(ent: EntityCb, name: CStr, attrs: seq<Attr>, kids: seq<Xml>, wrap: int,
                        inner: CStr, more: seq<Attr>, col: int)
    requires StandardEntities(ent) && ElemNameOk(name) && AttrsOk(attrs) && KidsOk(kids)
    requires ElemNameOk(inner) && AttrsOk(more)
    ensures LoadText(ent, Begun(name, attrs, kids, wrap) + WriteOpen(inner, more, false, col, wrap).text) == Null
  {
    var o := WriteOpen(inner, more, false, col, wrap).text;
    LoadBegun(ent, name, attrs, kids, wrap, o);
    var u := OpenStarts(inner, more, false, col, wrap);
    FlushTag(ent, u, INITIAL, name, attrs, kids);
    assert o + [] == o;
    EnterTree(ent, inner, more, col, wrap, o, [], Inside(INITIAL, name, attrs, kids));
  }

  // ---- entities ----

  /** An entity that no callback knows is an error, and so is a reference to a control character. */
  lemma UnknownEntity(ent: EntityCb, name: CStr, t: CStr, st: State)
    requires |name| <= 63 && (forall i | 0 <= i < |name| :: IsAlnum(name[i] as int)) && BadChar(ent(name))
    ensures Load(ent, "&" + (name + ";" + t), st) == Null
  {
    var s := "&" + (name + ";" + t);
    assert s[1..] == name + ";" + t;
    assert Getc(s) == Char('&' as int, name + ";" + t);
    ScanEntityWord(name, t, []);
    assert [] + name == name;
    assert LoadStep(ent, s, st) == Stop(Null);
  }

  // ---- attributes ----

  lemma RepeatedName(ent: EntityCb, attrs: seq<Attr>, k: nat, q: CStr)
    requires AttrsOk(attrs) && k < |attrs|
    ensures ParseElement(ent, " " + (attrs[k].name + ("=" + q)), attrs) == TagFailed
  {
    var name := attrs[k].name;
    var s := name + ("=" + q);
    ParseSpace(ent, ' ', s, " " + s, [], attrs);
    assert s + [] == s && " " + s + [] == " " + s;
    ReadName(ent, name, q, attrs, s);
    AttrAt(attrs, k, None);
  }

  lemma FailedTag(ent: EntityCb, name: CStr, u: CStr, st: State)
    requires Between(st) && ElemNameOk(name) && u != [] && Getc(u) == Char(u[0] as int, u[1..]) && IsSpace(u[0] as int)
    requires ParseElement(ent, u, []) == TagFailed
    ensures Load(ent, "<" + (name + u), st) == Null
  {
    ElemNameWritten(name);
    NoSlash(name);
    StartTag(ent, name + u, st);
    ScanTagWord(ent, name, u, []);
    assert [] + name == name;
    assert AttrStep(ent, u, []) == More(u[1..], []);
  }

  lemma SpaceFirst(attrs: seq<Attr>, col: int, wrap: int, w: CStr, t: CStr)
    requires AttrsOk(attrs) && attrs != [] && w == WriteAttrs(attrs, col, wrap).text
    ensures w + t != [] && IsSpace((w + t)[0] as int) && Getc(w + t) == Char((w + t)[0] as int, (w + t)[1..])
  {
    var sp, body := WriteAttrText(attrs[0], col, wrap);
    var first, others, next := WriteAttrsSplit(attrs, col, wrap);
    assert (w + t)[0] == sp;
  }

  lemma RepeatedAfter(ent: EntityCb, attrs: seq<Attr>, col: int, wrap: int, k: nat, q: CStr, w: CStr, t: CStr)
    requires StandardEntities(ent) && AttrsOk(attrs) && k < |attrs|
    requires w == WriteAttrs(attrs, col, wrap).text && t == " " + (attrs[k].name + ("=" + q))
    ensures ParseElement(ent, w + t, []) == TagFailed
  {
    assert [] + attrs == attrs;
    ParseAttrs(ent, attrs, col, wrap, w, t, []);
    RepeatedName(ent, attrs, k, q);
  }

  /** An attribute that is there already is an error. */
  lemma RepeatedAttr(ent: EntityCb, name: CStr, attrs: seq<Attr>, col: int, wrap: int, k: nat, q: CStr)
    requires StandardEntities(ent) && ElemNameOk(name) && AttrsOk(attrs) && k < |attrs|
    ensures var w := WriteAttrs(attrs, col, wrap).text;
      LoadText(ent, "<" + (name + (w + (" " + (attrs[k].name + ("=" + q)))))) == Null
  {
    var w, t := WriteAttrs(attrs, col, wrap).text, " " + (attrs[k].name + ("=" + q));
    RepeatedAfter(ent, attrs, col, wrap, k, q, w, t);
    SpaceFirst(attrs, col, wrap, w, t);
    FailedTag(ent, name, w + t, INITIAL);
  }
}
