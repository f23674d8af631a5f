/** Documents as values, and the text that the writer produces for them. */
module XmlText {
  import opened CStrings
  import opened Entities

  datatype Attr = Attr(name: CStr, value: Option<CStr>)

  datatype Xml =
    | Elem(name: CStr, attrs: seq<Attr>, kids: seq<Xml>)
    | Text(whitespace: bool, text: CStr)

  /** Output of one writing step: the bytes and the column afterwards. */
  datatype Out = Out(text: CStr, col: int)

  function EscapeByte(c: Byte): CStr {
    match EntityName(c)
    case Some(name) => "&" + name + ";"
    case None => [c]
  }

  /** mxml_write_string: bytes with an entity name are escaped. */
  function Escape(s: CStr): CStr {
    if s == [] then []
    else EscapeByte(s[0]) + Escape(s[1..])
  }

  /** The part of a string before the first occurrence of a byte. */
  function Before(s: CStr, c: Byte): CStr {
    if s == [] || s[0] == c then [] else [s[0]] + Before(s[1..], c)
  }

  /** mxml_write_name: a name that starts with a quote is written quoted and escaped. */
  function NameText(s: CStr): CStr {
    if s != [] && (s[0] == '\"' || s[0] == '\'') then
      [s[0]] + Escape(Before(s[1..], s[0])) + [s[0]]
    else s
  }

  /** Comments, CDATA sections and processing instructions are written without quoting. */
  predicate IsRaw(name: CStr) {
    name != [] && (name[0] == '?' || (name[0] == '!' && (("!--" <= name) || ("![CDATA[" <= name))))
  }

  function ElemNameText(name: CStr): CStr {
    if IsRaw(name) then name else NameText(name)
  }

  /** Elements that have no end tag. */
  predicate HasNoEndTag(name: CStr) {
    name != [] && (name[0] == '!' || name[0] == '?')
  }

  function AttrWidth(a: Attr): int {
    |a.name| + if a.value.Some? then |a.value.value| + 3 else 0
  }

  /** One attribute, preceded by a space or, when it would pass the margin, by a line break. */
  function WriteAttr(a: Attr, col: int, wrap: int): Out {
    var breaks := wrap > 0 && col + AttrWidth(a) > wrap;
    var body := NameText(a.name) + if a.value.Some? then "=\"" + Escape(a.value.value) + "\"" else [];
    Out((if breaks then "\n" else " ") + body, (if breaks then 0 else col + 1) + AttrWidth(a))
  }

  function WriteAttrs(attrs: seq<Attr>, col: int, wrap: int): Out {
    if attrs == [] then Out([], col)
    else
      var first := WriteAttr(attrs[0], col, wrap);
      var others := WriteAttrs(attrs[1..], first.col, wrap);
      Out(first.text + others.text, others.col)
  }

  function TagEnd(name: CStr, leaf: bool): CStr {
    if leaf && !HasNoEndTag(name) then " />" else ">"
  }

  function WriteOpen(name: CStr, attrs: seq<Attr>, leaf: bool, col: int, wrap: int): Out {
    var inside := WriteAttrs(attrs, col + |name| + 1, wrap);
    Out("<" + ElemNameText(name) + inside.text + TagEnd(name, leaf), inside.col + |TagEnd(name, leaf)|)
  }

  function WriteClose(name: CStr, col: int): Out {
    if HasNoEndTag(name) then Out([], col)
    else Out("</" + Escape(name) + ">", col + |name| + 3)
  }

  function WriteTextNode(whitespace: bool, text: CStr, col: int, wrap: int): Out {
    if whitespace && col > 0 then
      if wrap > 0 && col > wrap then Out("\n" + Escape(text), |text|)
      else Out(" " + Escape(text), col + 1 + |text|)
    else Out(Escape(text), col + |text|)
  }

  /** A node and everything under it, written from a given column. */
  function WriteNode(x: Xml, col: int, wrap: int): Out
    decreases x, 0
  {
    match x
    case Text(whitespace, text) => WriteTextNode(whitespace, text, col, wrap)
    case Elem(name, attrs, kids) =>
      var open := WriteOpen(name, attrs, kids == [], col, wrap);
      if kids == [] then open
      else
        var inside := WriteNodes(kids, open.col, wrap);
        var close := WriteClose(name, inside.col);
        Out(open.text + inside.text + close.text, close.col)
  }

  function WriteNodes(xs: seq<Xml>, col: int, wrap: int): Out
    decreases xs, 1
  {
    if xs == [] then Out([], col)
    else
      var first := WriteNode(xs[0], col, wrap);
      var others := WriteNodes(xs[1..], first.col, wrap);
      Out(first.text + others.text, others.col)
  }

  /** mxmlSaveString's whole text: the node, then a line end unless the column is back at zero. */
  function SaveText(x: Xml, wrap: int): CStr {
    var out := WriteNode(x, 0, wrap);
    out.text + if out.col > 0 then "\n" else []
  }
}
