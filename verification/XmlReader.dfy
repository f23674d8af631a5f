/** The loader as a function of the remaining text. Each function is one loop of the C code. */
module XmlReader {
  import opened CStrings
  import opened Utf8
  import opened XmlText
  import opened Attributes

  predicate IsAlnum(ch: int) {
    '0' as int <= ch <= '9' as int || 'A' as int <= ch <= 'Z' as int || 'a' as int <= ch <= 'z' as int
  }

  // ---- character entities ----

  const LONG_MAX := 0x7fff_ffff_ffff_ffff

  /** The value of a digit as strtol sees it; 99 when the byte is no digit in any base. */
  function Digit(c: Byte): int {
    if '0' <= c <= '9' then c as int - '0' as int
    else if 'a' <= c <= 'z' then c as int - 'a' as int + 10
    else if 'A' <= c <= 'Z' then c as int - 'A' as int + 10
    else 99
  }

  function Digits(s: CStr, base: int, acc: int): int {
    if s == [] || Digit(s[0]) >= base then acc else Digits(s[1..], base, acc * base + Digit(s[0]))
  }

  /** strtol for text without blanks and signs: an optional 0x in base 16, saturation at LONG_MAX. */
  function Strtol(s: CStr, base: int): int {
    var hexPrefix := base == 16 && |s| > 2 && s[0] == '0' && (s[1] == 'x' || s[1] == 'X') && Digit(s[2]) < 16;
    var value := Digits(if hexPrefix then s[2..] else s, base, 0);
    if value > LONG_MAX then LONG_MAX else value
  }

  /** Conversion of a long to a 32-bit int. */
  function ToInt(n: int): int {
    var low := n % 0x1_0000_0000;
    if low >= 0x8000_0000 then low - 0x1_0000_0000 else low
  }

  /** The entity callbacks that are registered, as one function: the code of a name, or a negative number. */
  type EntityCb = CStr -> int

  /** mxml_get_entity's reading of a gathered name: a numeric reference or a registered name. */
  function EntityValue(ent: EntityCb, name: CStr): int {
    if name != [] && name[0] == '#' then
      if |name| > 1 && name[1] == 'x' then ToInt(Strtol(name[2..], 16)) else ToInt(Strtol(name[1..], 10))
    else ent(name)
  }

  datatype NameScan = NameScan(name: CStr, stop: Got)

  /** Gather at most 63 letters, digits and number signs. */
  function ScanEntity(s: CStr, name: CStr): (r: NameScan)
    ensures !r.stop.Utf16? ==> |r.stop.rest| <= |s|
    ensures r.stop.Char? ==> |r.stop.rest| < |s|
    decreases |s|
  {
    var g := Getc(s);
    if !g.Char? then NameScan(name, g)
    else if g.ch > 126 || (!IsAlnum(g.ch) && g.ch != '#' as int) then NameScan(name, g)
    else if |name| < 63 then ScanEntity(g.rest, name + [ByteOf(g.ch)])
    else NameScan(name, g)
  }

  /** mxml_get_entity, called after the ampersand. */
  function GetEntity(ent: EntityCb, s: CStr): (g: Got)
    ensures !g.Utf16? ==> |g.rest| <= |s|
    ensures g.Char? ==> |g.rest| < |s| && !BadChar(g.ch)
  {
    var r := ScanEntity(s, []);
    if !r.stop.Char? then r.stop
    else if r.stop.ch != ';' as int || BadChar(EntityValue(ent, r.name)) then Eof(r.stop.rest)
    else Char(EntityValue(ent, r.name), r.stop.rest)
  }

  // ---- attribute names and values ----

  datatype Until = AttrName | Unquoted | Quoted(quote: int)

  predicate Stops(u: Until, ch: int) {
    match u
    case AttrName => IsSpace(ch) || ch == '=' as int || ch == '/' as int || ch == '>' as int || ch == '?' as int
    case Unquoted => IsSpace(ch) || ch == '=' as int || ch == '/' as int || ch == '>' as int
    case Quoted(quote) => ch == quote
  }

  datatype Scan = Scan(text: CStr, stop: Got) | Failed

  /** Collect characters, expanding entities, until a stop character or the end of the input. */
  function ScanUntil(ent: EntityCb, u: Until, s: CStr, text: CStr): (r: Scan)
    ensures r.Scan? && !r.stop.Utf16? ==> |r.stop.rest| <= |s|
    ensures r.Scan? && r.stop.Char? ==> |r.stop.rest| < |s|
    decreases |s|
  {
    var g := Getc(s);
    if !g.Char? || Stops(u, g.ch) then Scan(text, g)
    else if g.ch == '&' as int then
      var e := GetEntity(ent, g.rest);
      if e.Eof? then Failed
      else if e.Utf16? then Scan(text, e)
      else ScanUntil(ent, u, e.rest, text + Encode(e.ch))
    else ScanUntil(ent, u, g.rest, text + Encode(g.ch))
  }

  /** Step over white space, starting with the character just read. */
  function SkipSpace(g: Got): (r: Got)
    ensures !g.Utf16? && !r.Utf16? ==> |r.rest| <= |g.rest|
    ensures r.Char? ==> !IsSpace(r.ch)
    ensures g.Char? && r.Char? && !IsSpace(g.ch) ==> r == g
    ensures g.Eof? ==> r == g
    ensures g.Utf16? ==> r == g
    decreases if g.Char? then |g.rest| + 1 else 0
  {
    if g.Char? && IsSpace(g.ch) then SkipSpace(Getc(g.rest)) else g
  }

  /** The loader stores the first character of a name or an unquoted value in one byte. */
  function FirstByte(ch: int, others: CStr): CStr {
    if ch % 256 == 0 then [] else [ByteOf(ch % 256)] + others
  }

  datatype Tag = Tag(attrs: seq<Attr>, end: int, rest: CStr) | TagFailed | TagUtf16

  /** The '/' or '?' of a tag must be followed by '>'. */
  function CloseTag(attrs: seq<Attr>, end: int, s: CStr): (t: Tag)
    ensures t.Tag? ==> |t.rest| < |s| && t.end == end
  {
    var g := Getc(s);
    if g.Utf16? then TagUtf16
    else if g.Char? && g.ch == '>' as int then Tag(attrs, end, g.rest)
    else TagFailed
  }

  /** One round of the loop over a tag: go on with the rest of the text, or stop. */
  datatype TagStep = More(rest: CStr, attrs: seq<Attr>) | End(tag: Tag)

  /** The value of one attribute, from the character after its name on. */
  function ValueStep(ent: EntityCb, name: CStr, g: Got, attrs: seq<Attr>): (r: TagStep)
    ensures r.More? && g.Char? ==> |r.rest| < |g.rest|
    ensures r.End? && r.tag.Tag? && g.Char? ==> |r.tag.rest| < |g.rest|
    ensures !g.Char? ==> r.End? && !r.tag.Tag?
  {
    if g.Utf16? then End(TagUtf16)
    else if GetAttr(attrs, name).Some? then End(TagFailed)
    else if g.Eof? || g.ch != '=' as int then End(TagFailed)
    else
      var v := SkipSpace(Getc(g.rest));
      if v.Utf16? then End(TagUtf16)
      else if v.Eof? then End(TagFailed)
      else
        var quoted := v.ch == '\"' as int || v.ch == '\'' as int;
        var value := ScanUntil(ent, if quoted then Quoted(v.ch) else Unquoted, v.rest, []);
        if value.Failed? then End(TagFailed)
        else if value.stop.Utf16? then End(TagUtf16)
        else
          var all := SetAttr(attrs, name, Some(if quoted then value.text else FirstByte(v.ch, value.text)));
          if value.stop.Char? && value.stop.ch == '/' as int then End(CloseTag(all, value.stop.ch, value.stop.rest))
          else if value.stop.Char? && value.stop.ch == '>' as int then End(Tag(all, value.stop.ch, value.stop.rest))
          else More(value.stop.rest, all)
  }

  function AttrStep(ent: EntityCb, s: CStr, attrs: seq<Attr>): (r: TagStep)
    ensures r.More? ==> |r.rest| < |s|
    ensures r.End? && r.tag.Tag? ==> |r.tag.rest| < |s|
  {
    var g := Getc(s);
    if g.Utf16? then End(TagUtf16)
    else if g.Eof? then End(TagFailed)
    else if IsSpace(g.ch) then More(g.rest, attrs)
    else if g.ch == '/' as int || g.ch == '?' as int then End(CloseTag(attrs, g.ch, g.rest))
    else if g.ch == '<' as int then End(TagFailed)
    else if g.ch == '>' as int then End(Tag(attrs, g.ch, g.rest))
    else if g.ch == '\"' as int || g.ch == '\'' as int then
      // A quoted name leaves its closing quote as the current character, which is never the '='
      // that the next test asks for.
      End(TagFailed)
    else
      var name := ScanUntil(ent, AttrName, g.rest, []);
      if name.Failed? then End(TagFailed)
      else ValueStep(ent, FirstByte(g.ch, name.text), SkipSpace(name.stop), attrs)
  }

  /** mxml_parse_element: attributes up to the end of the tag. */
  function ParseElement(ent: EntityCb, s: CStr, attrs: seq<Attr>): (t: Tag)
    ensures t.Tag? ==> |t.rest| < |s|
    decreases |s|
  {
    match AttrStep(ent, s, attrs)
    case More(rest, all) => ParseElement(ent, rest, all)
    case End(tag) => tag
  }

  // ---- tags and documents ----

  predicate StartsWith(s: CStr, c: Byte) {
    s != [] && s[0] == c
  }

  /** The three openings after which the loader stops looking for the end of the word. */
  predicate IsSpecial(buffer: CStr) {
    || (|buffer| == 1 && StartsWith(buffer, '?'))
    || (|buffer| == 3 && StartsWith(buffer, '!') && buffer == "!--")
    || (|buffer| == 8 && StartsWith(buffer, '!') && buffer == "![CDATA[")
  }

  /** The word after '<': an element name, or '/' and an element name. */
  function ScanTag(ent: EntityCb, s: CStr, buffer: CStr): (r: Scan)
    ensures r.Scan? && !r.stop.Utf16? ==> |r.stop.rest| <= |s|
    ensures r.Scan? && r.stop.Char? ==> |r.stop.rest| < |s|
    decreases |s|
  {
    var g := Getc(s);
    if !g.Char? then Scan(buffer, g)
    else if IsSpace(g.ch) || g.ch == '>' as int || (g.ch == '/' as int && buffer != []) then Scan(buffer, g)
    else if g.ch == '<' as int then Failed
    else if g.ch == '&' as int then
      var e := GetEntity(ent, g.rest);
      if e.Eof? then Failed
      else if e.Utf16? then Scan(buffer, e)
      else ScanTag(ent, e.rest, buffer + Encode(e.ch))
    else if g.ch < '0' as int && g.ch != '!' as int && g.ch != '-' as int && g.ch != '.' as int && g.ch != '/' as int
    then Failed
    else if IsSpecial(buffer + Encode(g.ch)) then Scan(buffer + Encode(g.ch), g)
    else ScanTag(ent, g.rest, buffer + Encode(g.ch))
  }

  /** An element whose end tag has not been read yet, with the children read so far. */
  datatype Frame = Frame(name: CStr, attrs: seq<Attr>, kids: seq<Xml>)

  /** The loader's variables: the open elements from the innermost outwards, the finished root, and the
      text gathered so far with its leading-white-space flag. textMode says whether values become text
      nodes (MXML_TEXT) or are thrown away (MXML_IGNORE, until the first element is entered). */
  datatype State = State(open: seq<Frame>, root: Option<Xml>, buffer: CStr, space: bool, textMode: bool)

  const INITIAL := State([], None, [], false, false)

  /** The outcome of a load. Unmodelled stands for UTF-16 input and for comments, CDATA sections,
      processing instructions and declarations. */
  datatype Loaded = Tree(x: Xml) | Null | Unmodelled

  /** Append a finished node to the innermost open element. A value node without a parent is lost; an
      element without a parent is the root. */
  function Append(st: State, x: Xml): State {
    if st.open != [] then
      st.(open := [st.open[0].(kids := st.open[0].kids + [x])] + st.open[1..])
    else if x.Elem? then st.(root := Some(x))
    else st
  }

  function Close(f: Frame): Xml {
    Elem(f.name, f.attrs, f.kids)
  }

  /** The value-node part of the loop for character ch. */
  function FlushValue(st: State, ch: int): State {
    var st1 :=
      if (ch == '<' as int || IsSpace(ch)) && st.buffer != [] then
        var added := if st.textMode then Append(st, Text(st.space, st.buffer)) else st;
        added.(buffer := [], space := IsSpace(ch) && st.textMode)
      else if IsSpace(ch) && st.textMode then st.(space := true)
      else st;
    if ch == '<' as int && st1.space && st1.textMode then
      (if st1.open != [] then Append(st1, Text(true, [])) else st1).(space := false)
    else st1
  }

  /** What is returned when the input ends: the root, also when only its own end tag is missing. */
  function Finish(st: State): Loaded {
    if |st.open| == 1 then Tree(Close(st.open[0]))
    else if st.open != [] then Null
    else if st.root.Some? then Tree(st.root.value)
    else Null
  }

  /** Read to the end of a tag: the next '>' or the end of the input. */
  function SkipToGt(g: Got): (r: Got)
    ensures !g.Utf16? && !r.Utf16? ==> |r.rest| <= |g.rest|
    decreases if g.Char? then |g.rest| + 1 else 0
  {
    if g.Char? && g.ch != '>' as int then SkipToGt(Getc(g.rest)) else g
  }

  /** One round of the main loop: go on, or stop with a result. */
  datatype Step = Go(rest: CStr, st: State) | Stop(result: Loaded)

  function CloseStep(tag: Scan, st: State): (r: Step)
    requires tag.Scan? && !tag.stop.Utf16? && tag.text != []
    ensures r.Go? ==> |r.rest| <= |tag.stop.rest|
  {
    if st.open == [] || tag.text[1..] != st.open[0].name then Stop(Null)
    else
      var end := SkipToGt(tag.stop);
      if end.Utf16? then Stop(Unmodelled)
      else Go(end.rest, Append(st.(open := st.open[1..]), Close(st.open[0])).(buffer := []))
  }

  function OpenStep(ent: EntityCb, tag: Scan, st: State): (r: Step)
    requires tag.Scan? && !tag.stop.Utf16?
    ensures r.Go? ==> |r.rest| <= |tag.stop.rest|
  {
    if st.open == [] && st.root.Some? then Stop(Null)
    else if tag.stop.Eof? then
      // The element is added, nothing is read after it.
      Stop(Finish(Append(st, Elem(tag.text, [], []))))
    else
      var t :=
        if IsSpace(tag.stop.ch) then ParseElement(ent, tag.stop.rest, [])
        else if tag.stop.ch == '/' as int then CloseTag([], '/' as int, tag.stop.rest)
        else Tag([], tag.stop.ch, tag.stop.rest);
      if t.TagUtf16? then Stop(Unmodelled)
      else if t.TagFailed? then Stop(Null)
      else if t.end == '/' as int then Go(t.rest, Append(st, Elem(tag.text, t.attrs, [])).(buffer := []))
      else
        Go(t.rest, st.(open := [Frame(tag.text, t.attrs, [])] + st.open, buffer := [], textMode := true))
  }

  function TagStepOf(ent: EntityCb, tag: Scan, st: State): (r: Step)
    ensures r.Go? ==> tag.Scan? && !tag.stop.Utf16? && |r.rest| <= |tag.stop.rest|
  {
    if tag.Failed? then Stop(Null)
    else if tag.stop.Utf16? then Stop(Unmodelled)
    else if StartsWith(tag.text, '?') || StartsWith(tag.text, '!') then Stop(Unmodelled)
    else if StartsWith(tag.text, '/') then CloseStep(tag, st)
    else OpenStep(ent, tag, st)
  }

  function LoadStep(ent: EntityCb, s: CStr, st: State): (r: Step)
    ensures r.Go? ==> |r.rest| < |s|
  {
    var g := Getc(s);
    if g.Utf16? then Stop(Unmodelled)
    else if g.Eof? then Stop(Finish(st))
    else
      var st1 := FlushValue(st, g.ch);
      if g.ch == '<' as int then TagStepOf(ent, ScanTag(ent, g.rest, []), st1)
      else if g.ch == '&' as int then
        var e := GetEntity(ent, g.rest);
        if e.Utf16? then Stop(Unmodelled)
        else if e.Eof? then Stop(Null)
        else Go(e.rest, st1.(buffer := st1.buffer + Encode(e.ch)))
      else if IsSpace(g.ch) then Go(g.rest, st1)
      else Go(g.rest, st1.(buffer := st1.buffer + Encode(g.ch)))
  }

  /** mxml_load_data without a callback, from any state of its loop. */
  function Load(ent: EntityCb, s: CStr, st: State): Loaded
    decreases |s|
  {
    match LoadStep(ent, s, st)
    case Go(rest, st1) => Load(ent, rest, st1)
    case Stop(result) => result
  }

  /** mxmlLoadString(NULL, s, MXML_NO_CALLBACK). */
  function LoadText(ent: EntityCb, s: CStr): Loaded {
    Load(ent, s, INITIAL)
  }
}
