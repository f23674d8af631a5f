/** The loops of the loader that read words, values and tags, over the growing buffer they read into.
    Each loop is proved equal to a recursive function of the reader; what is in the buffer is that function's
    text so far. */
module MxmlScan {
  import opened CStrings
  import opened Utf8
  import opened XmlText
  import opened Attributes
  import opened XmlReader
  import opened MxmlNode

  /** One char of a buffer; 0 terminates. */
  type Octet = c: char | c as int < 256

  /** A buffer as a C string: the bytes before the first terminator. */
  function CString(s: seq<Octet>): CStr {
    if s == [] || s[0] as int == 0 then [] else [s[0]] + CString(s[1..])
  }

  lemma CStringWhole(s: CStr)
    ensures CString(s) == s
  {
    if s != [] {
      CStringWhole(s[1..]);
    }
  }

  // ---- the growing buffer ----

  class CharBuffer {
    var data: array<Octet>
    var pos: nat

    /** There is always room for a terminator. */
    ghost predicate Valid()
      reads this, data
    {
      data.Length >= 64 && pos < data.Length
    }

    function Text(): seq<Octet>
      reads this, data
      requires Valid()
    {
      data[..pos]
    }

    constructor ()
      ensures Valid() && Text() == [] && fresh(data)
    {
      data := new Octet[64];
      pos := 0;
    }

    method Clear()
      requires Valid()
      modifies this`pos
      ensures Valid() && Text() == []
    {
      pos := 0;
    }

    /** Store the first byte of a word. */
    method Begin(b: Octet)
      requires Valid()
      modifies this`pos, data
      ensures Valid() && Text() == [b]
    {
      data[0] := b;
      pos := 1;
    }

    /** Write the terminator, for which there is room. */
    method Terminate()
      requires Valid()
      modifies data
      ensures Valid() && Text() == old(Text()) && data[pos] as int == 0
    {
      data[pos] := 0 as char;
    }

    /** Double the buffer while it is small, then extend it by 1024 bytes. */
    method Grow()
      requires Valid()
      modifies this`data
      ensures Valid() && Text() == old(Text()) && fresh(data)
      ensures data.Length == if old(data.Length) < 1024 then 2 * old(data.Length) else old(data.Length) + 1024
    {
      var size := if data.Length < 1024 then 2 * data.Length else data.Length + 1024;
      var bigger := new Octet[size];
      forall i | 0 <= i < pos {
        bigger[i] := data[i];
      }
      assert bigger[..pos] == data[..pos];
      data := bigger;
    }

    method Put(b: Octet)
      requires Valid() && pos + 1 < data.Length
      modifies this`pos, data
      ensures Valid() && Text() == old(Text()) + [b] && pos == old(pos) + 1
    {
      data[pos] := b;
      pos := pos + 1;
      assert data[..pos] == data[..pos - 1] + [b];
    }

    method Put2(a: Byte, b: Byte)
      requires Valid() && pos + 2 < data.Length
      modifies this`pos, data
      ensures Valid() && Text() == old(Text()) + [a, b]
    {
      Put(a);
      Put(b);
      assert old(Text()) + [a, b] == old(Text()) + [a] + [b];
    }

    method Put3(a: Byte, b: Byte, c: Byte)
      requires Valid() && pos + 3 < data.Length
      modifies this`pos, data
      ensures Valid() && Text() == old(Text()) + [a, b, c]
    {
      Put(a);
      Put(b);
      Put(c);
      assert old(Text()) + [a, b, c] == old(Text()) + [a] + [b] + [c];
    }

    method Put4(a: Byte, b: Byte, c: Byte, d: Byte)
      requires Valid() && pos + 4 < data.Length
      modifies this`pos, data
      ensures Valid() && Text() == old(Text()) + [a, b, c, d]
    {
      Put(a);
      Put(b);
      Put(c);
      Put(d);
      assert old(Text()) + [a, b, c, d] == old(Text()) + [a] + [b] + [c] + [d];
    }

    /** mxml_add_char: the buffer grows before fewer than five bytes are left, so that the longest
        encoding and a terminator always fit. */
    method AddChar(ch: int)
      requires Valid() && !BadChar(ch)
      modifies this, data
      ensures Valid() && Text() == old(Text()) + Encode(ch)
      ensures data == old(data) || fresh(data)
    {
      if pos + 4 >= data.Length {
        Grow();
      }
      assert pos + 4 < data.Length;
      if ch < 0x80 {
        Put(ByteOf(ch));
      } else if ch < 0x800 {
        Put2(ByteOf(0xc0 + ch / 64), ByteOf(0x80 + ch % 64));
      } else if ch < 0x10000 {
        Put3(ByteOf(0xe0 + ch / 64 / 64), ByteOf(0x80 + ch / 64 % 64), ByteOf(0x80 + ch % 64));
      } else {
        Put4(ByteOf(0xf0 + ch / 64 / 64 / 64 % 16), ByteOf(0x80 + ch / 64 / 64 % 64),
             ByteOf(0x80 + ch / 64 % 64), ByteOf(0x80 + ch % 64));
      }
    }
  }

  // ---- mxml_get_entity ----

  /** ScanEntity when its next character has already been read. */
  ghost function GatherFrom(g: Got, name: CStr): NameScan {
    if !g.Char? then NameScan(name, g)
    else if g.ch > 126 || (!IsAlnum(g.ch) && g.ch != '#' as int) then NameScan(name, g)
    else if |name| < 63 then ScanEntity(g.rest, name + [ByteOf(g.ch)])
    else NameScan(name, g)
  }

  /** mxml_get_entity, after the ampersand: the name is gathered in a buffer of 64 bytes. */
  method ReadEntity(ent: EntityCb, s: CStr) returns (g: Got)
    ensures g == GetEntity(ent, s)
  {
    var entity := new Octet[64];
    var n := 0;
    ghost var name: CStr := [];
    g := Getc(s);
    while g.Char? && !(g.ch > 126 || (!IsAlnum(g.ch) && g.ch != '#' as int)) && n < 63
      invariant 0 <= n <= 63 && entity[..n] == name && |name| == n
      invariant ScanEntity(s, []) == GatherFrom(g, name)
      decreases if g.Char? then |g.rest| + 1 else 0
    {
      entity[n] := ByteOf(g.ch);
      name := name + [ByteOf(g.ch)];
      n := n + 1;
      g := Getc(g.rest);
    }
    entity[n] := 0 as char;
    if !g.Char? {
      return;
    }
    if g.ch != ';' as int {
      return Eof(g.rest);
    }
    CStringWhole(name);
    var ch := EntityValue(ent, CString(entity[..n]));
    g := if BadChar(ch) then Eof(g.rest) else Char(ch, g.rest);
  }

  // ---- words and values ----

  lemma AppendAssoc(a: seq<Octet>, b: CStr, c: CStr)
    ensures a + b + c == a + (b + c)
  {
  }

  /** The loops over an attribute name and over a quoted or unquoted value. */
  method ReadUntil(ent: EntityCb, u: Until, s: CStr, buffer: CharBuffer) returns (failed: bool, stop: Got)
    requires buffer.Valid()
    modifies buffer, buffer.data
    ensures buffer.Valid() && (buffer.data == old(buffer.data) || fresh(buffer.data))
    ensures var r := ScanUntil(ent, u, s, []);
      failed == r.Failed? && (!failed ==> stop == r.stop && buffer.Text() == old(buffer.Text()) + r.text)
  {
    ghost var text: CStr := [];
    var rest := s;
    failed := false;
    while true
      invariant buffer.Valid() && (buffer.data == old(buffer.data) || fresh(buffer.data))
      invariant buffer.Text() == old(buffer.Text()) + text
      invariant ScanUntil(ent, u, s, []) == ScanUntil(ent, u, rest, text)
      decreases |rest|
    {
      stop := Getc(rest);
      if !stop.Char? || Stops(u, stop.ch) {
        return;
      }
      if stop.ch == '&' as int {
        stop := ReadEntity(ent, stop.rest);
        if !stop.Char? {
          failed := stop.Eof?;
          return;
        }
      }
      AppendAssoc(old(buffer.Text()), text, Encode(stop.ch));
      text := text + Encode(stop.ch);
      rest := stop.rest;
      buffer.AddChar(stop.ch);
    }
  }

  /** Step over white space. */
  method PassSpace(first: Got) returns (g: Got)
    ensures g == SkipSpace(first)
  {
    g := first;
    while g.Char? && IsSpace(g.ch)
      invariant SkipSpace(first) == SkipSpace(g)
      decreases if g.Char? then |g.rest| + 1 else 0
    {
      g := Getc(g.rest);
    }
  }

  /** Read on to the end of a tag. */
  method PassTag(first: Got) returns (g: Got)
    ensures g == SkipToGt(first)
  {
    g := first;
    while g.Char? && g.ch != '>' as int
      invariant SkipToGt(first) == SkipToGt(g)
      decreases if g.Char? then |g.rest| + 1 else 0
    {
      g := Getc(g.rest);
    }
  }

  /** The word after '<'. */
  method ReadTag(ent: EntityCb, s: CStr, buffer: CharBuffer) returns (failed: bool, stop: Got)
    requires buffer.Valid() && buffer.Text() == []
    modifies buffer, buffer.data
    ensures buffer.Valid() && (buffer.data == old(buffer.data) || fresh(buffer.data))
    ensures var r := ScanTag(ent, s, []);
      failed == r.Failed? && (!failed ==> stop == r.stop && buffer.Text() == r.text)
  {
    ghost var tag: CStr := [];
    var rest := s;
    failed := false;
    while true
      invariant buffer.Valid() && (buffer.data == old(buffer.data) || fresh(buffer.data))
      invariant buffer.Text() == tag
      invariant ScanTag(ent, s, []) == ScanTag(ent, rest, tag)
      decreases |rest|
    {
      stop := Getc(rest);
      if !stop.Char? || IsSpace(stop.ch) || stop.ch == '>' as int || (stop.ch == '/' as int && buffer.pos > 0) {
        return;
      }
      if stop.ch == '<' as int {
        return true, stop;
      }
      if stop.ch == '&' as int {
        stop := ReadEntity(ent, stop.rest);
        if !stop.Char? {
          failed := stop.Eof?;
          return;
        }
        tag := tag + Encode(stop.ch);
        buffer.AddChar(stop.ch);
      } else if stop.ch < '0' as int && stop.ch != '!' as int && stop.ch != '-' as int && stop.ch != '.' as int
             && stop.ch != '/' as int {
        return true, stop;
      } else {
        tag := tag + Encode(stop.ch);
        buffer.AddChar(stop.ch);
        CStringWhole(tag);
        if IsSpecial(CString(buffer.Text())) {
          return;
        }
      }
      rest := stop.rest;
    }
  }

  // ---- mxml_parse_element ----

  /** How one round of the loop over a tag ends: go on, end of the tag, an error, or UTF-16 input. */
  datatype Round = Again(rest: CStr) | Ended(ch: int, rest: CStr) | Bad | Wide

  /** A round agrees with a step: same outcome, and the attributes are those stored in the node. */
  ghost predicate Agrees(r: Round, step: TagStep, name: CStr, v: Value) {
    match step
    case More(rest, attrs) => r == Again(rest) && v == Element(name, attrs)
    case End(Tag(attrs, end, rest)) => r == Ended(end, rest) && v == Element(name, attrs)
    case End(TagFailed) => r == Bad
    case End(TagUtf16) => r == Wide
  }

  lemma FirstByteText(ch: int, others: CStr)
    requires ch >= 0
    ensures CString([(ch % 256) as char] + others) == FirstByte(ch, others)
  {
    CStringWhole(others);
    assert ([(ch % 256) as char] + others)[1..] == others;
  }

  /** The '>' that has to follow '/' or '?'. */
  method ReadClose(ch: int, s: CStr, ghost attrs: seq<Attr>, ghost name: CStr) returns (r: Round)
    ensures Agrees(r, End(CloseTag(attrs, ch, s)), name, Element(name, attrs))
  {
    var quote := Getc(s);
    if quote.Utf16? {
      return Wide;
    }
    if !quote.Char? || quote.ch != '>' as int {
      return Bad;
    }
    return Ended(ch, quote.rest);
  }

  ghost function ScanText(r: Scan): CStr {
    if r.Scan? then r.text else []
  }

  /** A value up to its end, quoted or not. */
  method ReadValue(ent: EntityCb, v: Got, value: CharBuffer) returns (failed: bool, stop: Got, text: CStr)
    requires value.Valid() && v.Char? && v.ch >= 0
    modifies value, value.data
    ensures value.Valid() && (value.data == old(value.data) || fresh(value.data))
    ensures var quoted := v.ch == '\"' as int || v.ch == '\'' as int;
      var r := ScanUntil(ent, if quoted then Quoted(v.ch) else Unquoted, v.rest, []);
      && failed == r.Failed?
      && (!failed ==> stop == r.stop && text == if quoted then r.text else FirstByte(v.ch, r.text))
  {
    if v.ch == '\"' as int || v.ch == '\'' as int {
      value.Clear();
      failed, stop := ReadUntil(ent, Quoted(v.ch), v.rest, value);
      CStringWhole(ScanText(ScanUntil(ent, Quoted(v.ch), v.rest, [])));
      assert [] + ScanText(ScanUntil(ent, Quoted(v.ch), v.rest, []))
          == ScanText(ScanUntil(ent, Quoted(v.ch), v.rest, []));
    } else {
      value.Begin((v.ch % 256) as char);
      failed, stop := ReadUntil(ent, Unquoted, v.rest, value);
      FirstByteText(v.ch, ScanText(ScanUntil(ent, Unquoted, v.rest, [])));
    }
    value.Terminate();
    text := CString(value.Text());
  }

  method AfterValue(stop: Got, ghost all: seq<Attr>, ghost name: CStr) returns (r: Round)
    requires !stop.Utf16?
    ensures Agrees(r, if stop.Char? && stop.ch == '/' as int then End(CloseTag(all, stop.ch, stop.rest))
                      else if stop.Char? && stop.ch == '>' as int then End(Tag(all, stop.ch, stop.rest))
                      else More(stop.rest, all), name, Element(name, all))
  {
    if stop.Char? && stop.ch == '/' as int {
      r := ReadClose(stop.ch, stop.rest, all, name);
    } else if stop.Char? && stop.ch == '>' as int {
      r := Ended(stop.ch, stop.rest);
    } else {
      r := Again(stop.rest);
    }
  }

  /** Characters that are read are not negative. */
  lemma SpaceChar(g: Got)
    requires g.Char? ==> g.ch >= 0
    ensures SkipSpace(g).Char? ==> SkipSpace(g).ch >= 0
    decreases if g.Char? then |g.rest| + 1 else 0
  {
    if g.Char? && IsSpace(g.ch) {
      SpaceChar(Getc(g.rest));
    }
  }

  /** The value of one attribute, from the character after its name on; it is stored in the node. */
  method StoreValue(ent: EntityCb, node: Node, name: CStr, g: Got, value: CharBuffer) returns (r: Round)
    requires value.Valid() && node.value.Element?
    modifies node`value, value, value.data
    ensures value.Valid() && (value.data == old(value.data) || fresh(value.data))
    ensures Agrees(r, ValueStep(ent, name, g, old(node.value.attrs)), old(node.value.name), node.value)
    ensures node.value.Element? && node.value.name == old(node.value.name)
  {
    if g.Utf16? {
      return Wide;
    }
    var there := FindAttr(node.value.attrs, name);
    if there.Some? {
      return Bad;
    }
    if g.Eof? || g.ch != '=' as int {
      return Bad;
    }
    var v := PassSpace(Getc(g.rest));
    if v.Utf16? {
      return Wide;
    }
    if v.Eof? {
      return Bad;
    }
    SpaceChar(Getc(g.rest));
    var failed, stop, text := ReadValue(ent, v, value);
    if failed {
      return Bad;
    }
    if stop.Utf16? {
      return Wide;
    }
    var all := StoreAttr(node.value.attrs, name, Some(text));
    node.value := Element(node.value.name, all);
    r := AfterValue(stop, all, node.value.name);
  }

  /** The name of an attribute up to the character after it. */
  method ReadName(ent: EntityCb, first: Got, name: CharBuffer) returns (failed: bool, stop: Got, text: CStr)
    requires name.Valid() && first.Char? && first.ch >= 0
    modifies name, name.data
    ensures name.Valid() && (name.data == old(name.data) || fresh(name.data))
    ensures var r := ScanUntil(ent, AttrName, first.rest, []);
      && failed == r.Failed?
      && (!failed ==> stop == r.stop && text == FirstByte(first.ch, r.text))
  {
    name.Begin((first.ch % 256) as char);
    failed, stop := ReadUntil(ent, AttrName, first.rest, name);
    FirstByteText(first.ch, ScanText(ScanUntil(ent, AttrName, first.rest, [])));
    name.Terminate();
    text := CString(name.Text());
  }

  /** One round of the loop over a tag. */
  method ReadAttr(ent: EntityCb, node: Node, s: CStr, name: CharBuffer, value: CharBuffer) returns (r: Round)
    requires name.Valid() && value.Valid() && name != value && name.data != value.data && node.value.Element?
    modifies node`value, name, name.data, value, value.data
    ensures name.Valid() && value.Valid() && name.data != value.data
    ensures name.data == old(name.data) || fresh(name.data)
    ensures value.data == old(value.data) || fresh(value.data)
    ensures Agrees(r, AttrStep(ent, s, old(node.value.attrs)), old(node.value.name), node.value)
    ensures node.value.Element? && node.value.name == old(node.value.name)
  {
    var g := Getc(s);
    if g.Utf16? {
      return Wide;
    }
    if g.Eof? {
      return Bad;
    }
    if IsSpace(g.ch) {
      return Again(g.rest);
    }
    if g.ch == '/' as int || g.ch == '?' as int {
      r := ReadClose(g.ch, g.rest, node.value.attrs, node.value.name);
      return;
    }
    if g.ch == '<' as int {
      return Bad;
    }
    if g.ch == '>' as int {
      return Ended(g.ch, g.rest);
    }
    if g.ch == '\"' as int || g.ch == '\'' as int {
      return Bad;
    }
    var failed, stop, text := ReadName(ent, g, name);
    if failed {
      return Bad;
    }
    stop := PassSpace(stop);
    r := StoreValue(ent, node, text, stop, value);
  }

  /** mxml_parse_element: the attributes up to the end of the tag are stored in the node. */
  method ParseTag(ent: EntityCb, node: Node, s: CStr) returns (r: Round)
    requires node.value.Element? && node.value.attrs == []
    modifies node`value
    ensures Agrees(r, End(ParseElement(ent, s, [])), old(node.value.name), node.value)
    ensures node.value.Element?
  {
    var name := new CharBuffer();
    var value := new CharBuffer();
    var rest := s;
    while true
      invariant node.value.Element? && node.value.name == old(node.value.name)
      invariant fresh(name) && fresh(value) && fresh(name.data) && fresh(value.data)
      invariant name.Valid() && value.Valid() && name.data != value.data
      invariant ParseElement(ent, s, []) == ParseElement(ent, rest, node.value.attrs)
      decreases |rest|
    {
      r := ReadAttr(ent, node, rest, name, value);
      if !r.Again? {
        return;
      }
      rest := r.rest;
    }
  }
}
