/** Printing a tree of elements and words and loading the text gives the tree back, whatever the wrap margin. */
module TreeRoundTrip {
  import opened CStrings
  import opened Utf8
  import opened Entities
  import opened XmlText
  import opened Attributes
  import opened XmlReader
  import opened RoundTrip
  import opened WordRoundTrip

  // ---- names ----

  /** Characters that an element name may contain for the loader to read it as one word. */
  predicate ElemChar(ch: int) {
    && Accepted(ch) && !IsSpace(ch)
    && ch != '>' as int && ch != '/' as int && ch != '<' as int && ch != '&' as int
    && (ch >= '0' as int || ch == '!' as int || ch == '-' as int || ch == '.' as int)
  }

  predicate ElemStart(ch: int) {
    ElemChar(ch) && ch != '?' as int && ch != '!' as int
  }

  predicate AttrChar(ch: int) {
    Accepted(ch) && !Stops(AttrName, ch) && ch != '&' as int
  }

  /** The first character of an attribute name goes through one byte, hence ASCII. */
  predicate AttrStart(ch: int) {
    && 32 < ch < 0x80 && ch != '/' as int && ch != '?' as int && ch != '<' as int && ch != '>' as int
    && ch != '\"' as int && ch != '\'' as int
  }

  /** Text whose characters all satisfy a predicate, each spelled by its own encoding. */
  predicate AllChars(v: CStr, p: int -> bool)
    decreases |v|
  {
    v == [] || (Getc(v).Char? && !StartsWithBom(v) && p(Getc(v).ch) && AllChars(Getc(v).rest, p))
  }

  predicate ElemNameOk(name: CStr) {
    name != [] && AllChars(name, ElemChar) && ElemStart(Getc(name).ch)
  }

  predicate AttrNameOk(name: CStr) {
    name != [] && AttrStart(name[0] as int) && AllChars(name[1..], AttrChar)
  }

  predicate NameStartChar(c: Byte) {
    'a' <= c <= 'z' || 'A' <= c <= 'Z' || c == '_' || c == ':'
  }

  predicate NameChar(c: Byte) {
    NameStartChar(c) || '0' <= c <= '9' || c == '-' || c == '.'
  }

  /** A Name of XML 1.0 (section 2.3) written in ASCII. */
  predicate AsciiName(name: CStr) {
    name != [] && NameStartChar(name[0]) && forall i | 0 <= i < |name| :: NameChar(name[i])
  }

  lemma {:induction false} AsciiAllChars(v: CStr, p: int -> bool)
    requires forall i | 0 <= i < |v| :: NameChar(v[i])
    requires forall c: Byte | NameChar(c) :: p(c as int)
    ensures AllChars(v, p)
  {
    if v != [] {
      assert NameChar(v[0]);
      assert Getc(v) == Char(v[0] as int, v[1..]);
      AsciiAllChars(v[1..], p);
    }
  }

  /** The names of XML 1.0 are names that this loader and writer exchange unchanged. */
  lemma AsciiNamesOk(name: CStr)
    requires AsciiName(name)
    ensures ElemNameOk(name) && AttrNameOk(name)
  {
    AsciiAllChars(name, ElemChar);
    AsciiAllChars(name[1..], AttrChar);
    assert Getc(name) == Char(name[0] as int, name[1..]);
  }

  lemma EncodedFront(ch: int, r: CStr, v: CStr, t: CStr)
    requires Accepted(ch) && v == Encode(ch) + r
    ensures Getc(v + t) == Char(ch, r + t)
  {
    var e := Encode(ch);
    assert v + t == e + (r + t);
    GetcEncode(ch, r + t);
  }

  /** One character at the front of such a text, followed by anything. */
  lemma FrontChar(v: CStr, t: CStr)
    requires Getc(v).Char? && !StartsWithBom(v)
    ensures Getc(v + t) == Char(Getc(v).ch, Getc(v).rest + t)
    ensures v == Encode(Getc(v).ch) + Getc(v).rest
  {
    EncodeGetc(v);
    EncodedFront(Getc(v).ch, Getc(v).rest, v, t);
  }

  lemma NotSpecial(buffer: CStr)
    requires buffer != [] && buffer[0] != '!' && buffer[0] != '?'
    ensures !IsSpecial(buffer)
  {
  }

  lemma FirstOfEncode(ch: int)
    requires Accepted(ch)
    ensures Encode(ch)[0] == '!' ==> ch == '!' as int
    ensures Encode(ch)[0] == '?' ==> ch == '?' as int
    ensures Encode(ch)[0] == '\"' ==> ch == '\"' as int
    ensures Encode(ch)[0] == '\'' ==> ch == '\'' as int
  {
  }

  lemma ScanTagChar(ent: EntityCb, v: CStr, t: CStr, buffer: CStr)
    requires AllChars(v, ElemChar) && v != []
    requires if buffer != [] then buffer[0] != '!' && buffer[0] != '?' else ElemStart(Getc(v).ch)
    ensures ScanTag(ent, v + t, buffer) == ScanTag(ent, Getc(v).rest + t, buffer + Encode(Getc(v).ch))
    ensures (buffer + Encode(Getc(v).ch))[0] !in {'!', '?'}
  {
    FrontChar(v, t);
    FirstOfEncode(Getc(v).ch);
    NotSpecial(buffer + Encode(Getc(v).ch));
  }

  lemma ScanTagStop(ent: EntityCb, t: CStr, buffer: CStr)
    requires Getc(t).Char? && (IsSpace(Getc(t).ch) || Getc(t).ch == '>' as int)
    ensures ScanTag(ent, t, buffer) == Scan(buffer, Getc(t))
  {
  }

  /** The word after '<' is read back up to a stop character. */
  lemma {:induction false} ScanTagWord(ent: EntityCb, v: CStr, t: CStr, buffer: CStr)
    requires AllChars(v, ElemChar)
    requires if buffer != [] then buffer[0] != '!' && buffer[0] != '?' else v != [] && ElemStart(Getc(v).ch)
    requires Getc(t).Char? && (IsSpace(Getc(t).ch) || Getc(t).ch == '>' as int)
    ensures ScanTag(ent, v + t, buffer) == Scan(buffer + v, Getc(t))
    decreases |v|
  {
    if v == [] {
      assert v + t == t && buffer + v == buffer;
      ScanTagStop(ent, t, buffer);
    } else {
      ScanTagChar(ent, v, t, buffer);
      EncodeGetc(v);
      var e, r := Encode(Getc(v).ch), Getc(v).rest;
      Assoc(buffer, e, r);
      ScanTagWord(ent, r, t, buffer + e);
    }
  }

  lemma {:induction false} ScanAttrName(ent: EntityCb, v: CStr, t: CStr, text: CStr)
    requires AllChars(v, AttrChar)
    ensures ScanUntil(ent, AttrName, v + ("=" + t), text) == Scan(text + v, Char('=' as int, t))
    decreases |v|
  {
    if v == [] {
      assert v + ("=" + t) == "=" + t && text + v == text;
      assert ("=" + t)[1..] == t;
    } else {
      FrontChar(v, "=" + t);
      var e, r := Encode(Getc(v).ch), Getc(v).rest;
      Assoc(text, e, r);
      ScanAttrName(ent, r, t, text + e);
    }
  }

  lemma PlainChar(ch: int)
    requires ElemChar(ch)
    ensures forall i | 0 <= i < |Encode(ch)| :: EntityName(Encode(ch)[i]).None?
  {
  }

  lemma PlainJoin(a: CStr, b: CStr)
    requires forall i | 0 <= i < |a| :: EntityName(a[i]).None?
    requires forall i | 0 <= i < |b| :: EntityName(b[i]).None?
    ensures forall i | 0 <= i < |a + b| :: EntityName((a + b)[i]).None?
  {
  }

  /** Element names contain nothing that the writer escapes. */
  lemma {:induction false} ElemPlain(v: CStr)
    requires AllChars(v, ElemChar)
    ensures forall i | 0 <= i < |v| :: EntityName(v[i]).None?
    decreases |v|
  {
    if v != [] {
      FrontChar(v, []);
      ElemPlain(Getc(v).rest);
      PlainChar(Getc(v).ch);
      PlainJoin(Encode(Getc(v).ch), Getc(v).rest);
    }
  }

  lemma ElemNameWritten(name: CStr)
    requires ElemNameOk(name)
    ensures ElemNameText(name) == name && Escape(name) == name && !HasNoEndTag(name)
    ensures name[0] != '!' && name[0] != '?'
  {
    ElemPlain(name);
    EscapePlain(name);
    FrontChar(name, []);
    FirstOfEncode(Getc(name).ch);
    assert name[0] == Encode(Getc(name).ch)[0];
  }

  // ---- attributes ----

  predicate AttrOk(a: Attr) {
    AttrNameOk(a.name) && a.value.Some? && WellEncoded(a.value.value)
  }

  ghost predicate AttrsOk(attrs: seq<Attr>) {
    && (forall i | 0 <= i < |attrs| :: AttrOk(attrs[i]))
    && (forall i, j | 0 <= i < j < |attrs| :: attrs[i].name != attrs[j].name)
  }

  function AttrBody(a: Attr): CStr
    requires a.value.Some?
  {
    a.name + ("=" + ("\"" + QuotedTail(a.value.value, [])))
  }

  lemma BodyText(name: CStr, value: CStr)
    ensures name + ("=\"" + value + "\"") == name + ("=" + ("\"" + (value + "\"" + [])))
  {
  }

  lemma WriteAttrText(a: Attr, col: int, wrap: int) returns (sp: Byte, body: CStr)
    requires AttrOk(a)
    ensures IsSpace(sp as int) && body == AttrBody(a)
    ensures WriteAttr(a, col, wrap).text == [sp] + body
  {
    body := AttrBody(a);
    sp := if wrap > 0 && col + AttrWidth(a) > wrap then '\n' else ' ';
    assert NameText(a.name) == a.name;
    BodyText(a.name, Escape(a.value.value));
  }

  lemma ValueStart(v: CStr, t: CStr)
    ensures Getc("=" + ("\"" + QuotedTail(v, t))) == Char('=' as int, "\"" + QuotedTail(v, t))
    ensures Getc("\"" + QuotedTail(v, t)) == Char(34, QuotedTail(v, t))
  {
    var q := "\"" + QuotedTail(v, t);
    assert q[1..] == QuotedTail(v, t);
    assert ("=" + q)[1..] == q;
  }

  lemma FirstByteAscii(c: Byte, others: CStr)
    requires c as int < 0x80
    ensures FirstByte(c as int, others) == [c] + others
  {
  }

  /** The value of one printed attribute, from the '=' on. */
  lemma ReadValue(ent: EntityCb, a: Attr, t: CStr, done: seq<Attr>)
    requires StandardEntities(ent)
    requires AttrOk(a) && forall i | 0 <= i < |done| :: done[i].name != a.name
    ensures ValueStep(ent, a.name, Char('=' as int, "\"" + QuotedTail(a.value.value, t)), done) == More(t, done + [a])
  {
    var v := a.value.value;
    ValueStart(v, t);
    GetAttrMissing(done, a.name);
    ScanValue(ent, v, t, []);
    assert [] + v == v;
    assert a == Attr(a.name, Some(v));
  }

  lemma AttrStart1(name: CStr, q: CStr, s: CStr)
    requires AttrNameOk(name) && s == name + q
    ensures Getc(s) == Char(name[0] as int, name[1..] + q)
    ensures FirstByte(name[0] as int, name[1..]) == name
  {
    assert s[1..] == name[1..] + q;
    assert s[0] == name[0];
    FirstByteAscii(name[0], name[1..]);
    assert name == [name[0]] + name[1..];
  }

  lemma ReadName(ent: EntityCb, name: CStr, q: CStr, done: seq<Attr>, s: CStr)
    requires AttrNameOk(name) && s == name + ("=" + q)
    ensures AttrStep(ent, s, done) == ValueStep(ent, name, Char('=' as int, q), done)
  {
    AttrStart1(name, "=" + q, s);
    ScanAttrName(ent, name[1..], q, []);
    assert [] + name[1..] == name[1..];
    assert SkipSpace(Char('=' as int, q)) == Char('=' as int, q);
  }

  /** One printed attribute is read back onto the end of the list. */
  lemma ReadAttr(ent: EntityCb, a: Attr, t: CStr, done: seq<Attr>, s: CStr)
    requires StandardEntities(ent)
    requires AttrOk(a) && forall i | 0 <= i < |done| :: done[i].name != a.name
    requires s == a.name + ("=" + ("\"" + QuotedTail(a.value.value, t)))
    ensures AttrStep(ent, s, done) == More(t, done + [a])
  {
    ReadName(ent, a.name, "\"" + QuotedTail(a.value.value, t), done, s);
    ReadValue(ent, a, t, done);
  }

  lemma ParseSpace(ent: EntityCb, sp: Byte, body: CStr, w: CStr, t: CStr, done: seq<Attr>)
    requires IsSpace(sp as int) && w == [sp] + body
    ensures ParseElement(ent, w + t, done) == ParseElement(ent, body + t, done)
  {
    assert w + t == [sp] + (body + t);
    assert (w + t)[1..] == body + t;
    assert AttrStep(ent, w + t, done) == More(body + t, done);
  }

  lemma QuotedTailJoin(v: CStr, t: CStr)
    ensures QuotedTail(v, []) + t == QuotedTail(v, t)
  {
    assert Escape(v) + "\"" + [] + t == Escape(v) + "\"" + t;
  }

  lemma AttrBodyJoin(a: Attr, t: CStr)
    requires a.value.Some?
    ensures AttrBody(a) + t == a.name + ("=" + ("\"" + QuotedTail(a.value.value, t)))
  {
    var q := QuotedTail(a.value.value, []);
    QuotedTailJoin(a.value.value, t);
    assert a.name + ("=" + ("\"" + q)) + t == a.name + ("=" + ("\"" + (q + t)));
  }

  lemma ParseWritten(ent: EntityCb, a: Attr, col: int, wrap: int, w: CStr, t: CStr, done: seq<Attr>)
    requires StandardEntities(ent)
    requires AttrOk(a) && forall i | 0 <= i < |done| :: done[i].name != a.name
    requires w == WriteAttr(a, col, wrap).text
    ensures ParseElement(ent, w + t, done) == ParseElement(ent, t, done + [a])
  {
    var sp, body := WriteAttrText(a, col, wrap);
    ParseSpace(ent, sp, body, w, t, done);
    AttrBodyJoin(a, t);
    ReadAttr(ent, a, t, done, body + t);
  }

  lemma WriteAttrsSplit(attrs: seq<Attr>, col: int, wrap: int) returns (first: CStr, others: CStr, next: int)
    requires attrs != []
    ensures first == WriteAttr(attrs[0], col, wrap).text
    ensures others == WriteAttrs(attrs[1..], next, wrap).text
    ensures WriteAttrs(attrs, col, wrap).text == first + others
  {
    first, next := WriteAttr(attrs[0], col, wrap).text, WriteAttr(attrs[0], col, wrap).col;
    others := WriteAttrs(attrs[1..], next, wrap).text;
  }

  lemma AttrsOkFirst(done: seq<Attr>, attrs: seq<Attr>)
    requires attrs != [] && AttrsOk(done + attrs)
    ensures AttrOk(attrs[0]) && forall i | 0 <= i < |done| :: done[i].name != attrs[0].name
    ensures done + [attrs[0]] + attrs[1..] == done + attrs
  {
    assert (done + attrs)[|done|] == attrs[0];
    forall i | 0 <= i < |done| ensures done[i].name != attrs[0].name {
      assert (done + attrs)[i] == done[i];
    }
  }

  /** All printed attributes are read back in order. */
  lemma {:induction false} ParseAttrs(ent: EntityCb, attrs: seq<Attr>, col: int, wrap: int, w: CStr, t: CStr,
                                      done: seq<Attr>)
    requires StandardEntities(ent)
    requires AttrsOk(done + attrs) && w == WriteAttrs(attrs, col, wrap).text
    ensures ParseElement(ent, w + t, done) == ParseElement(ent, t, done + attrs)
    decreases |attrs|
  {
    if attrs == [] {
      assert w + t == t && done + attrs == done;
    } else {
      AttrsOkFirst(done, attrs);
      var first, others, next := WriteAttrsSplit(attrs, col, wrap);
      Assoc(first, others, t);
      ParseWritten(ent, attrs[0], col, wrap, first, others + t, done);
      ParseAttrs(ent, attrs[1..], next, wrap, others, t, done + [attrs[0]]);
    }
  }

  /** What follows the element name in a tag starts with a character that ends the name. */
  lemma TagTail(attrs: seq<Attr>, leaf: bool, name: CStr, col: int, wrap: int, t: CStr)
    requires AttrsOk(attrs) && ElemNameOk(name)
    ensures var s := WriteAttrs(attrs, col, wrap).text + TagEnd(name, leaf) + t;
      && Getc(s) == Char(s[0] as int, s[1..])
      && (IsSpace(s[0] as int) || (attrs == [] && !leaf && s[0] == '>'))
  {
    ElemNameWritten(name);
    if attrs != [] {
      var sp, body := WriteAttrText(attrs[0], col, wrap);
      var first, others, next := WriteAttrsSplit(attrs, col, wrap);
    }
  }

  // ---- trees ----

  predicate EndsInText(xs: seq<Xml>) {
    xs != [] && xs[|xs| - 1].Text?
  }

  /** A text may follow these siblings: a word, which white space parts from a word in front of it, or white space
      alone, at most one of it and no word behind it. */
  predicate TextOk(before: seq<Xml>, x: Xml)
    requires x.Text?
  {
    && (EndsInText(before) ==> x.whitespace && before[|before| - 1].text != [])
    && if x.text == [] then x.whitespace else WordOk(x.text)
  }

  /** Trees of elements, with words and white space between the tags. */
  ghost predicate TreeOk(x: Xml) {
    && x.Elem? && ElemNameOk(x.name) && AttrsOk(x.attrs)
    && forall i | 0 <= i < |x.kids| ::
         if x.kids[i].Elem? then TreeOk(x.kids[i]) else TextOk(x.kids[..i], x.kids[i])
  }

  /** The loader's state between two tags. */
  predicate Between(st: State) {
    st.buffer == [] && !st.space && (st.open == [] ==> st.root.None?) && (st.open != [] ==> st.textMode)
  }

  /** The state after a whole element has been read. */
  function After(st: State, x: Xml): State {
    if x.Elem? && x.kids != [] then Append(st, x).(textMode := true) else Append(st, x)
  }

  lemma ParseTagEnd(ent: EntityCb, name: CStr, leaf: bool, t: CStr, attrs: seq<Attr>)
    requires !HasNoEndTag(name)
    ensures ParseElement(ent, TagEnd(name, leaf) + t, attrs) == Tag(attrs, if leaf then '/' as int else '>' as int, t)
  {
    var u := ">" + t;
    assert u[1..] == t;
    assert Getc(u) == Char('>' as int, t);
    if leaf {
      ParseSpace(ent, ' ', "/>", " />", t, attrs);
      var v := "/>" + t;
      assert v[1..] == u;
      assert Getc(v) == Char('/' as int, u);
      assert AttrStep(ent, v, attrs) == End(Tag(attrs, '/' as int, t));
    } else {
      assert AttrStep(ent, u, attrs) == End(Tag(attrs, '>' as int, t));
    }
  }

  /** Whatever follows the element name, the tag is read to its end with all its attributes. */
  lemma ParseTag(ent: EntityCb, name: CStr, attrs: seq<Attr>, leaf: bool, col: int, wrap: int, t: CStr, u: CStr)
    requires StandardEntities(ent)
    requires ElemNameOk(name) && AttrsOk(attrs)
    requires u == WriteAttrs(attrs, col, wrap).text + TagEnd(name, leaf) + t
    ensures ParseElement(ent, u, []) == Tag(attrs, if leaf then '/' as int else '>' as int, t)
  {
    ElemNameWritten(name);
    var w, e := WriteAttrs(attrs, col, wrap).text, TagEnd(name, leaf);
    assert [] + attrs == attrs;
    Assoc(w, e, t);
    ParseAttrs(ent, attrs, col, wrap, w, e + t, []);
    ParseTagEnd(ent, name, leaf, t, attrs);
  }

  /** The state after a start tag. */
  function Entered(st: State, name: CStr, attrs: seq<Attr>): State {
    st.(open := [Frame(name, attrs, [])] + st.open, textMode := true)
  }

  lemma OpenStepOk(ent: EntityCb, name: CStr, attrs: seq<Attr>, leaf: bool, u: CStr, t: CStr, st: State)
    requires Between(st) && name != [] && name[0] !in {'!', '?', '/'}
    requires ParseElement(ent, u, []) == Tag(attrs, if leaf then '/' as int else '>' as int, t)
    requires u != [] && Getc(u) == Char(u[0] as int, u[1..])
    requires IsSpace(u[0] as int) || (attrs == [] && !leaf && u[0] == '>')
    ensures TagStepOf(ent, Scan(name, Getc(u)), st) ==
      Go(t, if leaf then Append(st, Elem(name, attrs, [])) else Entered(st, name, attrs))
  {
    if IsSpace(u[0] as int) {
      assert AttrStep(ent, u, []) == More(u[1..], []);
      assert ParseElement(ent, u[1..], []) == ParseElement(ent, u, []);
    } else {
      assert AttrStep(ent, u, []) == End(Tag([], '>' as int, u[1..]));
    }
  }

  lemma NoSlash(name: CStr)
    requires ElemNameOk(name)
    ensures name[0] != '/'
  {
    FrontChar(name, []);
    var ch := Getc(name).ch;
    assert name[0] == Encode(ch)[0];
  }

  lemma StartTag(ent: EntityCb, t: CStr, st: State)
    requires Between(st)
    ensures LoadStep(ent, "<" + t, st) == TagStepOf(ent, ScanTag(ent, t, []), st)
  {
    var s := "<" + t;
    assert s[1..] == t;
    assert Getc(s) == Char('<' as int, t);
  }

  lemma OpenText(w: CStr, name: CStr, a: CStr, e: CStr, t: CStr)
    requires w == "<" + name + a + e
    ensures w + t == "<" + (name + (a + e + t))
  {
  }

  /** A printed start tag opens the element; a printed empty tag adds it whole. */
  lemma LoadOpenTag(ent: EntityCb, name: CStr, attrs: seq<Attr>, leaf: bool, col: int, wrap: int, w: CStr, t: CStr,
                    st: State)
    requires StandardEntities(ent)
    requires ElemNameOk(name) && AttrsOk(attrs) && Between(st)
    requires w == WriteOpen(name, attrs, leaf, col, wrap).text
    ensures LoadStep(ent, w + t, st) ==
      Go(t, if leaf then Append(st, Elem(name, attrs, [])) else Entered(st, name, attrs))
  {
    ElemNameWritten(name);
    NoSlash(name);
    var col1 := col + |name| + 1;
    var a, e := WriteAttrs(attrs, col1, wrap).text, TagEnd(name, leaf);
    var u := a + e + t;
    OpenText(w, name, a, e, t);
    StartTag(ent, name + u, st);
    TagTail(attrs, leaf, name, col1, wrap, t);
    ScanTagWord(ent, name, u, []);
    assert [] + name == name;
    ParseTag(ent, name, attrs, leaf, col1, wrap, t, u);
    OpenStepOk(ent, name, attrs, leaf, u, t, st);
  }

  lemma CloseStepOk(ent: EntityCb, name: CStr, t: CStr, st: State)
    requires Between(st) && st.open != [] && st.open[0].name == name
    ensures TagStepOf(ent, Scan("/" + name, Char('>' as int, t)), st)
         == Go(t, Append(st.(open := st.open[1..]), Close(st.open[0])))
  {
    assert ("/" + name)[1..] == name;
    var st1 := Append(st.(open := st.open[1..]), Close(st.open[0]));
    assert st1.(buffer := []) == st1;
  }

  lemma ScanEndTag(ent: EntityCb, name: CStr, t: CStr)
    requires ElemNameOk(name)
    ensures ScanTag(ent, "/" + (name + (">" + t)), []) == Scan("/" + name, Char('>' as int, t))
  {
    var u := name + (">" + t);
    var s := "/" + u;
    assert s[1..] == u;
    assert Getc(s) == Char('/' as int, u);
    assert Encode('/' as int) == "/";
    assert [] + Encode('/' as int) == "/";
    assert (">" + t)[1..] == t;
    assert Getc(">" + t) == Char('>' as int, t);
    ScanTagWord(ent, name, ">" + t, "/");
  }

  lemma CloseText(name: CStr, col: int, t: CStr)
    requires ElemNameOk(name)
    ensures WriteClose(name, col).text + t == "<" + ("/" + (name + (">" + t)))
  {
    ElemNameWritten(name);
  }

  /** A printed end tag closes the element. */
  lemma LoadCloseTag(ent: EntityCb, name: CStr, col: int, w: CStr, t: CStr, st: State)
    requires ElemNameOk(name) && Between(st) && st.open != [] && st.open[0].name == name
    requires w == WriteClose(name, col).text
    ensures LoadStep(ent, w + t, st) == Go(t, Append(st.(open := st.open[1..]), Close(st.open[0])))
  {
    var s := "/" + (name + (">" + t));
    CloseText(name, col, t);
    StartTag(ent, s, st);
    ScanEndTag(ent, name, t);
    CloseStepOk(ent, name, t, st);
  }

  /** The state inside an element whose start tag and first children have been read. */
  function Inside(st: State, name: CStr, attrs: seq<Attr>, kids: seq<Xml>): State {
    st.(open := [Frame(name, attrs, kids)] + st.open, textMode := true)
  }

  lemma AppendInside(st: State, name: CStr, attrs: seq<Attr>, kids: seq<Xml>, x: Xml)
    requires x.Elem?
    ensures After(Inside(st, name, attrs, kids), x) == Inside(st, name, attrs, kids + [x])
  {
    var inner := Inside(st, name, attrs, kids);
    assert inner.open[1..] == st.open;
  }

  ghost predicate KidsOk(kids: seq<Xml>) {
    forall i | 0 <= i < |kids| ::
      if kids[i].Elem? then TreeOk(kids[i]) else TextOk(kids[..i], kids[i])
  }

  lemma FirstKidOk(done: seq<Xml>, kids: seq<Xml>)
    requires KidsOk(done + kids) && kids != []
    ensures if kids[0].Elem? then TreeOk(kids[0]) else TextOk(done, kids[0])
    ensures done + [kids[0]] + kids[1..] == done + kids
  {
    var all := done + kids;
    assert all[|done|] == kids[0] && all[..|done|] == done;
  }

  // ---- columns ----

  lemma {:induction false} AttrsCol(attrs: seq<Attr>, col: int, wrap: int)
    requires col >= 0
    ensures WriteAttrs(attrs, col, wrap).col >= 0
    decreases |attrs|
  {
    if attrs != [] {
      AttrsCol(attrs[1..], WriteAttr(attrs[0], col, wrap).col, wrap);
    }
  }

  lemma OpenCol(name: CStr, attrs: seq<Attr>, leaf: bool, col: int, wrap: int)
    requires col >= 0
    ensures WriteOpen(name, attrs, leaf, col, wrap).col > 0
  {
    AttrsCol(attrs, col + |name| + 1, wrap);
  }

  lemma {:induction false} NodeCol(x: Xml, col: int, wrap: int)
    requires col >= 0
    ensures WriteNode(x, col, wrap).col >= 0
    ensures x.Elem? && !HasNoEndTag(x.name) ==> WriteNode(x, col, wrap).col > 0
    decreases x, 0
  {
    if x.Elem? {
      OpenCol(x.name, x.attrs, x.kids == [], col, wrap);
      NodesCol(x.kids, WriteOpen(x.name, x.attrs, x.kids == [], col, wrap).col, wrap);
    }
  }

  lemma {:induction false} NodesCol(xs: seq<Xml>, col: int, wrap: int)
    requires col >= 0
    ensures WriteNodes(xs, col, wrap).col >= 0
    decreases xs, 1
  {
    if xs != [] {
      NodeCol(xs[0], col, wrap);
      NodesCol(xs[1..], WriteNode(xs[0], col, wrap).col, wrap);
    }
  }

  /** The column is zero only behind white space that has become a line break. */
  predicate ColOk(done: seq<Xml>, col: int) {
    col >= 0 && (col == 0 ==> EndsInText(done) && done[|done| - 1].text == [])
  }

  lemma ColNext(done: seq<Xml>, x: Xml, col: int, wrap: int)
    requires col >= 0 && if x.Elem? then TreeOk(x) else TextOk(done, x)
    ensures ColOk(done + [x], WriteNode(x, col, wrap).col)
  {
    if x.Elem? {
      ElemNameWritten(x.name);
      NodeCol(x, col, wrap);
    }
  }

  // ---- between the tags of an element ----

  /** The state after these children have been read: a text is still in the buffer. */
  function Reading(st: State, name: CStr, attrs: seq<Attr>, done: seq<Xml>): State {
    if EndsInText(done) then
      var last := done[|done| - 1];
      Inside(st, name, attrs, done[..|done| - 1]).(buffer := last.text, space := last.whitespace)
    else Inside(st, name, attrs, done)
  }

  predicate LastOk(done: seq<Xml>) {
    EndsInText(done) ==> done[|done| - 1].text != [] || done[|done| - 1].whitespace
  }

  lemma LastIsOk(done: seq<Xml>, kids: seq<Xml>)
    requires KidsOk(done + kids)
    ensures LastOk(done)
  {
    if EndsInText(done) {
      assert (done + kids)[|done| - 1] == done[|done| - 1];
    }
  }

  lemma AppendText(st: State, name: CStr, attrs: seq<Attr>, done: seq<Xml>)
    requires EndsInText(done)
    ensures Append(Reading(st, name, attrs, done), done[|done| - 1])
         == Reading(st, name, attrs, done).(open := Inside(st, name, attrs, done).open)
  {
    var front := done[..|done| - 1];
    assert front + [done[|done| - 1]] == done;
    assert Reading(st, name, attrs, done).open[1..] == st.open;
  }

  lemma FlushReading(st: State, name: CStr, attrs: seq<Attr>, done: seq<Xml>)
    requires Between(st) && LastOk(done)
    ensures FlushValue(Reading(st, name, attrs, done), '<' as int) == Inside(st, name, attrs, done)
  {
    if EndsInText(done) {
      AppendText(st, name, attrs, done);
    }
  }

  lemma TagStepAt(ent: EntityCb, u: CStr, st: State)
    ensures LoadStep(ent, "<" + u, st) == TagStepOf(ent, ScanTag(ent, u, []), FlushValue(st, '<' as int))
  {
    var s := "<" + u;
    assert s[1..] == u;
    assert Getc(s) == Char('<' as int, u);
  }

  /** A tag ends the text in front of it. */
  lemma FlushTag(ent: EntityCb, u: CStr, st: State, name: CStr, attrs: seq<Attr>, done: seq<Xml>)
    requires Between(st) && LastOk(done)
    ensures Load(ent, "<" + u, Reading(st, name, attrs, done)) == Load(ent, "<" + u, Inside(st, name, attrs, done))
  {
    FlushReading(st, name, attrs, done);
    TagStepAt(ent, u, Reading(st, name, attrs, done));
    StartTag(ent, u, Inside(st, name, attrs, done));
  }

  /** White space ends a word too. */
  lemma SpaceReading(ent: EntityCb, c: Byte, t: CStr, st: State, name: CStr, attrs: seq<Attr>, done: seq<Xml>)
    requires Between(st) && IsSpace(c as int) && (EndsInText(done) ==> done[|done| - 1].text != [])
    ensures Load(ent, [c] + t, Reading(st, name, attrs, done))
         == Load(ent, t, Inside(st, name, attrs, done).(space := true))
  {
    var s, now := [c] + t, Reading(st, name, attrs, done);
    assert s[1..] == t;
    assert Getc(s) == Char(c as int, t);
    if EndsInText(done) {
      AppendText(st, name, attrs, done);
    }
    LoadGo(ent, s, now, t, Inside(st, name, attrs, done).(space := true));
  }

  lemma TextWritten(x: Xml, col: int, wrap: int) returns (sep: CStr)
    requires x.Text? && (x.whitespace ==> col > 0)
    ensures WriteNode(x, col, wrap).text == sep + Escape(x.text)
    ensures if x.whitespace then |sep| == 1 && IsSpace(sep[0] as int) else sep == []
  {
    sep := if !x.whitespace then [] else if wrap > 0 && col > wrap then "\n" else " ";
  }

  lemma ReadingText(st: State, name: CStr, attrs: seq<Attr>, done: seq<Xml>, x: Xml)
    requires Between(st) && x.Text?
    ensures Reading(st, name, attrs, done + [x])
         == Buffered(Inside(st, name, attrs, done).(space := x.whitespace), x.text)
  {
    assert (done + [x])[..|done|] == done;
    assert [] + x.text == x.text;
  }

  lemma LoadTextKid(ent: EntityCb, x: Xml, col: int, wrap: int, w: CStr, t: CStr,
                    st: State, name: CStr, attrs: seq<Attr>, done: seq<Xml>)
    requires StandardEntities(ent) && Between(st) && x.Text? && TextOk(done, x) && ColOk(done, col)
    requires w == WriteNode(x, col, wrap).text
    ensures Load(ent, w + t, Reading(st, name, attrs, done)) == Load(ent, t, Reading(st, name, attrs, done + [x]))
  {
    var sep := TextWritten(x, col, wrap);
    Assoc(sep, Escape(x.text), t);
    var now := Inside(st, name, attrs, done).(space := x.whitespace);
    if x.whitespace {
      SpaceReading(ent, sep[0], Escape(x.text) + t, st, name, attrs, done);
      assert sep == [sep[0]];
    } else {
      assert sep + (Escape(x.text) + t) == Escape(x.text) + t;
      assert Reading(st, name, attrs, done) == now;
    }
    LoadWord(ent, x.text, t, now);
    ReadingText(st, name, attrs, done, x);
  }

  lemma CloseInside(st: State, name: CStr, attrs: seq<Attr>, kids: seq<Xml>)
    requires kids != []
    ensures Inside(st, name, attrs, kids).open[1..] == st.open
    ensures Append(Inside(st, name, attrs, kids).(open := st.open), Close(Frame(name, attrs, kids)))
         == After(st, Elem(name, attrs, kids))
  {
    assert Inside(st, name, attrs, kids).open[1..] == st.open;
  }

  lemma SplitElem(name: CStr, attrs: seq<Attr>, kids: seq<Xml>, col: int, wrap: int)
      returns (o: CStr, oc: int, i: CStr, ic: int, c: CStr)
    requires kids != []
    ensures oc == WriteOpen(name, attrs, false, col, wrap).col
    ensures o == WriteOpen(name, attrs, false, col, wrap).text
    ensures i == WriteNodes(kids, oc, wrap).text && c == WriteClose(name, ic).text
    ensures WriteNode(Elem(name, attrs, kids), col, wrap).text == o + i + c
  {
    o, oc := WriteOpen(name, attrs, false, col, wrap).text, WriteOpen(name, attrs, false, col, wrap).col;
    i, ic := WriteNodes(kids, oc, wrap).text, WriteNodes(kids, oc, wrap).col;
    c := WriteClose(name, ic).text;
  }

  lemma SplitNodes(kids: seq<Xml>, col: int, wrap: int) returns (first: CStr, others: CStr, next: int)
    requires kids != []
    ensures first == WriteNode(kids[0], col, wrap).text && others == WriteNodes(kids[1..], next, wrap).text
    ensures next == WriteNode(kids[0], col, wrap).col
    ensures WriteNodes(kids, col, wrap).text == first + others
  {
    first, next := WriteNode(kids[0], col, wrap).text, WriteNode(kids[0], col, wrap).col;
    others := WriteNodes(kids[1..], next, wrap).text;
  }

  lemma EnterTree(ent: EntityCb, name: CStr, attrs: seq<Attr>, col: int, wrap: int, o: CStr, t: CStr, st: State)
    requires StandardEntities(ent)
    requires ElemNameOk(name) && AttrsOk(attrs) && Between(st) && o == WriteOpen(name, attrs, false, col, wrap).text
    ensures Load(ent, o + t, st) == Load(ent, t, Inside(st, name, attrs, []))
  {
    LoadOpenTag(ent, name, attrs, false, col, wrap, o, t, st);
    LoadGo(ent, o + t, st, t, Inside(st, name, attrs, []));
  }

  lemma LeaveTree(ent: EntityCb, name: CStr, attrs: seq<Attr>, kids: seq<Xml>, col: int, c: CStr, t: CStr, st: State)
    requires ElemNameOk(name) && kids != [] && Between(st) && c == WriteClose(name, col).text
    ensures Load(ent, c + t, Inside(st, name, attrs, kids)) == Load(ent, t, After(st, Elem(name, attrs, kids)))
  {
    var inner := Inside(st, name, attrs, kids);
    LoadCloseTag(ent, name, col, c, t, inner);
    CloseInside(st, name, attrs, kids);
    LoadGo(ent, c + t, inner, t, After(st, Elem(name, attrs, kids)));
  }

  lemma LoadLeaf(ent: EntityCb, x: Xml, col: int, wrap: int, w: CStr, t: CStr, st: State)
    requires StandardEntities(ent)
    requires TreeOk(x) && x.kids == [] && Between(st) && w == WriteNode(x, col, wrap).text
    ensures Load(ent, w + t, st) == Load(ent, t, After(st, x))
  {
    LoadOpenTag(ent, x.name, x.attrs, true, col, wrap, w, t, st);
    LoadGo(ent, w + t, st, t, After(st, x));
  }

  lemma OpenStarts(name: CStr, attrs: seq<Attr>, leaf: bool, col: int, wrap: int) returns (u: CStr)
    ensures WriteOpen(name, attrs, leaf, col, wrap).text == "<" + u
  {
    var a, e := WriteAttrs(attrs, col + |name| + 1, wrap).text, TagEnd(name, leaf);
    u := ElemNameText(name) + a + e;
  }

  lemma StartsTag(x: Xml, col: int, wrap: int) returns (u: CStr)
    requires x.Elem?
    ensures WriteNode(x, col, wrap).text == "<" + u
  {
    var Elem(name, attrs, kids) := x;
    if kids == [] {
      u := OpenStarts(name, attrs, true, col, wrap);
    } else {
      var first := OpenStarts(name, attrs, false, col, wrap);
      var o, oc, i, ic, c := SplitElem(name, attrs, kids, col, wrap);
      Assoc("<", first, i);
      Assoc("<", first + i, c);
      u := first + i + c;
    }
  }

  /** The text in front of an element has been ended, and the element added. */
  lemma AroundElem(ent: EntityCb, x: Xml, col: int, wrap: int, w: CStr, t: CStr,
                   st: State, name: CStr, attrs: seq<Attr>, done: seq<Xml>)
    requires Between(st) && LastOk(done) && x.Elem? && w == WriteNode(x, col, wrap).text
    ensures Load(ent, w + t, Reading(st, name, attrs, done)) == Load(ent, w + t, Inside(st, name, attrs, done))
  {
    var u := StartsTag(x, col, wrap);
    Assoc("<", u, t);
    FlushTag(ent, u + t, st, name, attrs, done);
  }

  lemma ReadingElem(st: State, name: CStr, attrs: seq<Attr>, done: seq<Xml>, x: Xml)
    requires Between(st) && x.Elem?
    ensures After(Inside(st, name, attrs, done), x) == Reading(st, name, attrs, done + [x])
    ensures Between(Inside(st, name, attrs, done))
  {
    AppendInside(st, name, attrs, done, x);
  }

  /** An end tag ends the text in front of it and closes the element. */
  lemma LeaveReading(ent: EntityCb, name: CStr, attrs: seq<Attr>, kids: seq<Xml>, col: int, c: CStr, t: CStr, st: State)
    requires ElemNameOk(name) && kids != [] && LastOk(kids) && Between(st) && c == WriteClose(name, col).text
    ensures Load(ent, c + t, Reading(st, name, attrs, kids)) == Load(ent, t, After(st, Elem(name, attrs, kids)))
  {
    CloseText(name, col, t);
    FlushTag(ent, "/" + (name + (">" + t)), st, name, attrs, kids);
    LeaveTree(ent, name, attrs, kids, col, c, t, st);
  }

  /** Loading a printed element adds that element, whatever text follows. */
  lemma {:induction false} LoadNode(ent: EntityCb, x: Xml, col: int, wrap: int, w: CStr, t: CStr, st: State)
    requires StandardEntities(ent)
    requires TreeOk(x) && Between(st) && col >= 0 && w == WriteNode(x, col, wrap).text
    ensures Load(ent, w + t, st) == Load(ent, t, After(st, x))
    decreases x, 0
  {
    var Elem(name, attrs, kids) := x;
    if kids == [] {
      LoadLeaf(ent, x, col, wrap, w, t, st);
    } else {
      var o, oc, i, ic, c := SplitElem(name, attrs, kids, col, wrap);
      Assoc(o + i, c, t);
      Assoc(o, i, c + t);
      EnterTree(ent, name, attrs, col, wrap, o, i + (c + t), st);
      OpenCol(name, attrs, false, col, wrap);
      assert [] + kids == kids;
      LoadKids(ent, kids, oc, wrap, i, c + t, st, name, attrs, []);
      assert kids + [] == kids;
      LastIsOk(kids, []);
      LeaveReading(ent, name, attrs, kids, ic, c, t, st);
    }
  }

  /** Loading printed siblings adds them in order. */
  lemma {:induction false} LoadKids(ent: EntityCb, kids: seq<Xml>, col: int, wrap: int, w: CStr, t: CStr,
                                    st: State, name: CStr, attrs: seq<Attr>, done: seq<Xml>)
    requires StandardEntities(ent)
    requires KidsOk(done + kids) && Between(st) && ColOk(done, col) && w == WriteNodes(kids, col, wrap).text
    ensures Load(ent, w + t, Reading(st, name, attrs, done)) == Load(ent, t, Reading(st, name, attrs, done + kids))
    decreases kids, 1
  {
    if kids == [] {
      assert w + t == t && done + kids == done;
    } else {
      FirstKidOk(done, kids);
      LastIsOk(done, kids);
      var first, others, next := SplitNodes(kids, col, wrap);
      Assoc(first, others, t);
      if kids[0].Elem? {
        AroundElem(ent, kids[0], col, wrap, first, others + t, st, name, attrs, done);
        ReadingElem(st, name, attrs, done, kids[0]);
        LoadNode(ent, kids[0], col, wrap, first, others + t, Inside(st, name, attrs, done));
      } else {
        LoadTextKid(ent, kids[0], col, wrap, first, others + t, st, name, attrs, done);
      }
      ColNext(done, kids[0], col, wrap);
      LoadKids(ent, kids[1..], next, wrap, others, t, st, name, attrs, done + [kids[0]]);
    }
  }

  /** The end of a saved document: an optional line end, then the end of the text. */
  lemma LoadEnd(ent: EntityCb, x: Xml, tail: CStr)
    requires x.Elem? && (tail == [] || tail == "\n")
    ensures Load(ent, tail, After(INITIAL, x)) == Tree(x)
  {
    var st := After(INITIAL, x);
    if tail == "\n" {
      assert tail[1..] == [];
      assert Getc(tail) == Char(10, []);
      LoadGo(ent, tail, st, [], FlushValue(st, 10));
      assert FlushValue(st, 10).root == st.root && FlushValue(st, 10).open == st.open;
    }
  }

  /** Print, then parse: the same tree, for every wrap margin. */
  lemma PrintThenParse(ent: EntityCb, x: Xml, wrap: int)
    requires StandardEntities(ent) && TreeOk(x)
    ensures LoadText(ent, SaveText(x, wrap)) == Tree(x)
  {
    var w := WriteNode(x, 0, wrap);
    var tail: CStr := if w.col > 0 then "\n" else [];
    LoadNode(ent, x, 0, wrap, w.text, tail, INITIAL);
    LoadEnd(ent, x, tail);
  }
}
