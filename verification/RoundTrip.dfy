/** What the writer prints, the loader reads back. */
module RoundTrip {
  import opened CStrings
  import opened Utf8
  import opened Entities
  import opened XmlText
  import opened XmlReader

  /** The registered callbacks know the four names that the writer uses. */
  ghost predicate StandardEntities(ent: EntityCb) {
    && ent("amp") == '&' as int && ent("lt") == '<' as int
    && ent("gt") == '>' as int && ent("quot") == '\"' as int
  }

  /** The default callback, the binary search over the table, is such a callback. */
  lemma DefaultEntities()
    ensures StandardEntities(name => Lookup(ENTITIES, name))
  {
    EntityNameLookup('&');
    EntityNameLookup('<');
    EntityNameLookup('>');
    EntityNameLookup('\"');
  }

  // ---- attribute values ----

  /** The value is a sequence of encoded characters that the reader delivers one by one. */
  predicate WellEncoded(v: CStr)
    decreases |v|
  {
    v == [] || (Getc(v).Char? && !StartsWithBom(v) && WellEncoded(Getc(v).rest))
  }

  lemma {:induction false} EscapeJoin(a: CStr, b: CStr)
    ensures Escape(a + b) == Escape(a) + Escape(b)
  {
    if a == [] {
      assert a + b == b;
    } else {
      assert (a + b)[0] == a[0] && (a + b)[1..] == a[1..] + b;
      EscapeJoin(a[1..], b);
    }
  }

  lemma {:induction false} EscapePlain(a: CStr)
    requires forall i | 0 <= i < |a| :: EntityName(a[i]).None?
    ensures Escape(a) == a
  {
    if a != [] {
      EscapePlain(a[1..]);
    }
  }

  /** What would end a value or start a tag. */
  predicate Special(c: Byte) {
    c == '<' || c == '>' || c == '\"'
  }

  predicate StartsEntity(s: CStr) {
    "&amp;" <= s || "&lt;" <= s || "&gt;" <= s || "&quot;" <= s
  }

  /** No such character, and an ampersand only at the start of an entity. */
  predicate Safe(s: CStr) {
    forall i | 0 <= i < |s| :: !Special(s[i]) && (s[i] == '&' ==> StartsEntity(s[i..]))
  }

  lemma EscapedByte(c: Byte, t: CStr)
    requires Safe(t)
    ensures Safe(EscapeByte(c) + t)
  {
    var e := EscapeByte(c);
    var s := e + t;
    forall i | 0 <= i < |s| ensures !Special(s[i]) && (s[i] == '&' ==> StartsEntity(s[i..])) {
      if i >= |e| {
        assert s[i] == t[i - |e|] && s[i..] == t[i - |e|..];
      } else {
        assert s[i] == e[i];
        assert s[i] == '&' ==> i == 0 && s[0..] == s && e <= s;
      }
    }
  }

  /** What the writer escapes is safe, whatever the string. */
  lemma {:induction false} EscapedSafe(s: CStr)
    ensures Safe(Escape(s))
    decreases |s|
  {
    if s != [] {
      EscapedSafe(s[1..]);
      EscapedByte(s[0], Escape(s[1..]));
    }
  }

  lemma {:induction false} ScanEntityWord(word: CStr, rest: CStr, name: CStr)
    requires forall i | 0 <= i < |word| :: IsAlnum(word[i] as int)
    requires |name| + |word| <= 63
    ensures ScanEntity(word + ";" + rest, name) == NameScan(name + word, Char(';' as int, rest))
    decreases |word|
  {
    var s := word + ";" + rest;
    if word == [] {
      assert s == ";" + rest && s[1..] == rest;
      assert name + word == name;
    } else {
      assert s[1..] == word[1..] + ";" + rest;
      assert Getc(s) == Char(word[0] as int, s[1..]);
      ScanEntityWord(word[1..], rest, name + [word[0]]);
      assert name + [word[0]] + word[1..] == name + word;
    }
  }

  /** An escaped byte reads back as that byte. */
  lemma GetEntityEscaped(ent: EntityCb, c: Byte, rest: CStr)
    requires StandardEntities(ent)
    requires EntityName(c).Some?
    ensures GetEntity(ent, EntityName(c).value + ";" + rest) == Char(c as int, rest)
  {
    var name := EntityName(c).value;
    ScanEntityWord(name, rest, []);
    assert [] + name == name;
  }

  /** The text of an escaped value up to and including its closing quote. */
  function QuotedTail(v: CStr, rest: CStr): CStr {
    Escape(v) + "\"" + rest
  }

  lemma QuotedTailStep(v: CStr, rest: CStr)
    ensures v == [] ==> QuotedTail(v, rest) == "\"" + rest
    ensures v != [] ==> QuotedTail(v, rest) == EscapeByte(v[0]) + QuotedTail(v[1..], rest)
    ensures v != [] && EntityName(v[0]).Some? ==> At(QuotedTail(v, rest), 0) == '&' as int
    ensures v != [] && EntityName(v[0]).None? ==>
      At(QuotedTail(v, rest), 0) == v[0] as int && QuotedTail(v, rest)[1..] == QuotedTail(v[1..], rest)
  {
  }

  lemma LedStep(v: CStr, rest: CStr, s: CStr)
    requires s == QuotedTail(v, rest) && At(s, 0) >= 0x80
    ensures v != [] && s != [] && s[0] == v[0] && s[1..] == QuotedTail(v[1..], rest)
  {
    QuotedTailStep(v, rest);
  }

  lemma ConsSlices(s: CStr, v: CStr, n: nat)
    requires s != [] && v != [] && s[0] == v[0] && 1 <= n <= |s| && n <= |v| && s[1..][..n - 1] == v[1..][..n - 1]
    ensures s[..n] == v[..n] && s[1..][n - 1..] == s[n..] && v[1..][n - 1..] == v[n..]
  {
    assert s[..n] == [s[0]] + s[1..][..n - 1] == [v[0]] + v[1..][..n - 1] == v[..n];
  }

  /** The bytes of a multi-byte character are not touched by escaping: where the escaped text starts
      with n bytes above ASCII, so does the value, with the same bytes. */
  lemma {:induction false} EscapeLed(v: CStr, rest: CStr, s: CStr, n: nat)
    requires s == QuotedTail(v, rest)
    requires forall i | 0 <= i < n :: At(s, i) >= 0x80
    ensures n <= |v| && n <= |s| && s[..n] == v[..n] && s[n..] == QuotedTail(v[n..], rest)
  {
    if n > 0 {
      assert At(s, 0) >= 0x80;
      LedStep(v, rest, s);
      forall i | 0 <= i < n - 1 ensures At(s[1..], i) >= 0x80 { assert At(s, i + 1) >= 0x80; }
      EscapeLed(v[1..], rest, s[1..], n - 1);
      ConsSlices(s, v, n);
    }
  }

  lemma ScanEscaped(ent: EntityCb, c: Byte, t: CStr, text: CStr)
    requires StandardEntities(ent) && EntityName(c).Some?
    ensures ScanUntil(ent, Quoted(34), EscapeByte(c) + t, text) == ScanUntil(ent, Quoted(34), t, text + [c])
  {
    var name := EntityName(c).value;
    var s := EscapeByte(c) + t;
    assert s == "&" + (name + ";" + t);
    assert s[1..] == name + ";" + t;
    assert Getc(s) == Char('&' as int, s[1..]);
    GetEntityEscaped(ent, c, t);
    assert Encode(c as int) == [c];
  }

  lemma ScanPlain(ent: EntityCb, c: Byte, t: CStr, text: CStr)
    requires EntityName(c).None? && c as int < 0x80 && !BadChar(c as int)
    ensures ScanUntil(ent, Quoted(34), [c] + t, text) == ScanUntil(ent, Quoted(34), t, text + [c])
  {
    var s := [c] + t;
    assert s[1..] == t;
    assert Getc(s) == Char(c as int, t);
    assert Encode(c as int) == [c];
  }

  /** One step of reading an escaped value: the first character of an ASCII-led value. */
  lemma ScanAscii(ent: EntityCb, v: CStr, rest: CStr, text: CStr)
    requires StandardEntities(ent)
    requires v != [] && v[0] as int < 0x80 && !BadChar(v[0] as int)
    ensures ScanUntil(ent, Quoted(34), QuotedTail(v, rest), text)
         == ScanUntil(ent, Quoted(34), QuotedTail(v[1..], rest), text + [v[0]])
  {
    QuotedTailStep(v, rest);
    if EntityName(v[0]).Some? {
      ScanEscaped(ent, v[0], QuotedTail(v[1..], rest), text);
    } else {
      ScanPlain(ent, v[0], QuotedTail(v[1..], rest), text);
    }
  }

  lemma GetcPrefix(s: CStr, v: CStr, n: nat)
    requires Getc(s).Char? && !StartsWithBom(s) && n == Width(At(s, 0))
    requires n <= |v| && n <= |s| && s[..n] == v[..n]
    ensures Getc(v) == Char(Getc(s).ch, v[n..])
  {
    GetcWidth(s);
    EncodeGetc(s);
    var ch, r, e := Getc(s).ch, Getc(s).rest, Encode(Getc(s).ch);
    assert |e| == n && e == (e + r)[..n];
    assert v == v[..n] + v[n..];
    GetcEncode(ch, v[n..]);
  }

  /** A step over one multi-byte character of an escaped value that the reader accepts. */
  lemma ScanLed(ent: EntityCb, v: CStr, rest: CStr, text: CStr)
    requires v != [] && v[0] as int >= 0x80
    requires Getc(QuotedTail(v, rest)).Char? && !StartsWithBom(QuotedTail(v, rest))
    ensures Getc(v).Char? && !StartsWithBom(v)
    ensures ScanUntil(ent, Quoted(34), QuotedTail(v, rest), text)
         == ScanUntil(ent, Quoted(34), QuotedTail(Getc(v).rest, rest), text + Encode(Getc(v).ch))
    ensures v == Encode(Getc(v).ch) + Getc(v).rest
  {
    var s := QuotedTail(v, rest);
    QuotedTailStep(v, rest);
    assert At(s, 0) == v[0] as int;
    GetcWidth(s);
    GetcLed(s);
    var n := Width(At(s, 0));
    EscapeLed(v, rest, s, n);
    GetcPrefix(s, v, n);
    assert StartsWithBom(v) ==> StartsWithBom(s) by {
      if StartsWithBom(v) {
        assert n == 3;
        forall i | 0 <= i < n ensures At(s, i) == At(v, i) { assert s[..n][i] == v[..n][i]; }
      }
    }
    EncodeGetc(v);
    assert Getc(s).ch >= 0x80;
  }

  lemma EncodedPlain(ch: int)
    requires Accepted(ch) && ch >= 0x80
    ensures Escape(Encode(ch)) == Encode(ch)
  {
    var e := Encode(ch);
    forall i | 0 <= i < |e| ensures EntityName(e[i]).None? { assert e[i] as int >= 0x80; }
    EscapePlain(e);
  }

  lemma Requote(a: CStr, b: CStr, rest: CStr)
    ensures (a + b) + "\"" + rest == a + (b + "\"" + rest)
  {
  }

  lemma EscapeEncoded(ch: int, r: CStr, rest: CStr)
    requires Accepted(ch) && ch >= 0x80
    ensures QuotedTail(Encode(ch) + r, rest) == Encode(ch) + QuotedTail(r, rest)
  {
    EscapeJoin(Encode(ch), r);
    EncodedPlain(ch);
    Requote(Encode(ch), Escape(r), rest);
  }

  lemma NoBom(ch: int, t: CStr)
    requires Accepted(ch)
    ensures !StartsWithBom(Encode(ch) + t)
  {
    var s := Encode(ch) + t;
    if StartsWithBom(s) {
      assert Encode(ch) == s[..|Encode(ch)|];
      assert s[0] == Encode(ch)[0];
      GetcBom(s);
      GetcEncode(ch, t);
    }
  }

  /** Conversely, a multi-byte character of the value is read from the escaped text. */
  lemma LedBack(v: CStr, rest: CStr)
    requires Getc(v).Char? && !StartsWithBom(v) && v[0] as int >= 0x80
    ensures Getc(QuotedTail(v, rest)).Char? && !StartsWithBom(QuotedTail(v, rest))
  {
    GetcWidth(v);
    EncodeGetc(v);
    var ch, r := Getc(v).ch, Getc(v).rest;
    assert ch >= 0x80;
    EscapeEncoded(ch, r, rest);
    GetcEncode(ch, QuotedTail(r, rest));
    NoBom(ch, QuotedTail(r, rest));
  }

  lemma ScanBom(ent: EntityCb, v: CStr, rest: CStr, text: CStr)
    requires StartsWithBom(QuotedTail(v, rest))
    ensures StartsWithBom(v)
    ensures ScanUntil(ent, Quoted(34), QuotedTail(v, rest), text)
         == ScanUntil(ent, Quoted(34), QuotedTail(v[3..], rest), text)
  {
    var s := QuotedTail(v, rest);
    EscapeLed(v, rest, s, 3);
    forall i | 0 <= i < 3 ensures At(s, i) == At(v, i) { assert s[..3][i] == v[..3][i]; }
    GetcBom(s);
  }

  lemma ScanEnd(ent: EntityCb, rest: CStr, text: CStr)
    ensures ScanUntil(ent, Quoted(34), QuotedTail([], rest), text) == Scan(text, Char(34, rest))
  {
    var s := QuotedTail([], rest);
    assert s == "\"" + rest && s[1..] == rest;
  }

  /** Where the reader rejects the escaped text, the value is not well encoded. */
  lemma ScanRejected(ent: EntityCb, v: CStr, rest: CStr, text: CStr)
    requires v != [] && !Getc(QuotedTail(v, rest)).Char?
    ensures ScanUntil(ent, Quoted(34), QuotedTail(v, rest), text) == Scan(text, Getc(QuotedTail(v, rest)))
    ensures !WellEncoded(v)
  {
    QuotedTailStep(v, rest);
    if WellEncoded(v) && v[0] as int >= 0x80 {
      LedBack(v, rest);
    }
  }

  /** What is claimed of reading an escaped value: r is the result, ok whether the value is well encoded. */
  ghost predicate ReadsBack(r: Scan, ok: bool, v: CStr, rest: CStr, text: CStr) {
    && (ok <==> r == Scan(text + v, Char(34, rest)))
    && (r.Scan? && r.stop.Char? ==> |r.text| <= |text| + |v|)
  }

  lemma ReadsBackStep(r: Scan, ok: bool, w: CStr, rest: CStr, text: CStr, front: CStr)
    requires ReadsBack(r, ok, w, rest, text + front)
    ensures ReadsBack(r, ok, front + w, rest, text)
  {
    assert text + front + w == text + (front + w);
  }

  lemma AsciiFront(v: CStr, rest: CStr)
    requires v != [] && v[0] as int < 0x80 && Getc(QuotedTail(v, rest)).Char?
    ensures !BadChar(v[0] as int)
  {
    if BadChar(v[0] as int) {
      QuotedTailStep(v, rest);
    }
  }

  lemma AsciiWellEncoded(v: CStr)
    requires v != [] && v[0] as int < 0x80 && !BadChar(v[0] as int)
    ensures WellEncoded(v) == WellEncoded(v[1..]) && v == [v[0]] + v[1..]
  {
    assert Getc(v) == Char(v[0] as int, v[1..]);
    assert !StartsWithBom(v);
  }

  /** The escaped value reads back as the value exactly when it is well encoded; a value that is not
      is cut short, loses its byte order marks, or runs into an error. */
  lemma {:induction false} ScanValue(ent: EntityCb, v: CStr, rest: CStr, text: CStr)
    requires StandardEntities(ent)
    ensures ReadsBack(ScanUntil(ent, Quoted(34), QuotedTail(v, rest), text), WellEncoded(v), v, rest, text)
    decreases |v|
  {
    var s := QuotedTail(v, rest);
    if v == [] {
      ScanEnd(ent, rest, text);
      assert text + v == text;
    } else if !Getc(s).Char? {
      ScanRejected(ent, v, rest, text);
    } else if StartsWithBom(s) {
      ScanBom(ent, v, rest, text);
      ScanValue(ent, v[3..], rest, text);
    } else if v[0] as int < 0x80 {
      AsciiFront(v, rest);
      AsciiWellEncoded(v);
      ScanAscii(ent, v, rest, text);
      ScanValue(ent, v[1..], rest, text + [v[0]]);
      ReadsBackStep(ScanUntil(ent, Quoted(34), s, text), WellEncoded(v), v[1..], rest, text, [v[0]]);
    } else {
      ScanLed(ent, v, rest, text);
      ScanValue(ent, Getc(v).rest, rest, text + Encode(Getc(v).ch));
      ReadsBackStep(ScanUntil(ent, Quoted(34), s, text), WellEncoded(v), Getc(v).rest, rest, text, Encode(Getc(v).ch));
    }
  }

  // ---- the same without the reader ----

  predicate AllAccepted(cs: seq<int>) {
    forall i | 0 <= i < |cs| :: Accepted(cs[i])
  }

  /** The characters as they are written into a buffer. */
  function EncodeAll(cs: seq<int>): CStr
    requires AllAccepted(cs)
  {
    if cs == [] then [] else Encode(cs[0]) + EncodeAll(cs[1..])
  }

  /** The value is the concatenation of the encodings of some accepted characters. */
  ghost predicate Spelled(v: CStr) {
    exists cs: seq<int> :: AllAccepted(cs) && v == EncodeAll(cs)
  }

  lemma {:induction false} SpelledBack(cs: seq<int>)
    requires AllAccepted(cs)
    ensures WellEncoded(EncodeAll(cs))
  {
    if cs != [] {
      var rest := EncodeAll(cs[1..]);
      SpelledBack(cs[1..]);
      GetcEncode(cs[0], rest);
      NoBom(cs[0], rest);
    }
  }

  lemma {:induction false} CharactersOf(v: CStr) returns (cs: seq<int>)
    requires WellEncoded(v)
    ensures AllAccepted(cs) && v == EncodeAll(cs)
    decreases |v|
  {
    cs := [];
    if v != [] {
      EncodeGetc(v);
      var others := CharactersOf(Getc(v).rest);
      cs := [Getc(v).ch] + others;
      assert cs[1..] == others;
    }
  }

  lemma SpelledIff(v: CStr)
    ensures Spelled(v) <==> WellEncoded(v)
  {
    if cs: seq<int> :| AllAccepted(cs) && v == EncodeAll(cs) {
      SpelledBack(cs);
    }
    if WellEncoded(v) {
      var cs := CharactersOf(v);
    }
  }

  /** An escaped value reads back as the value if and only if it spells accepted characters. */
  lemma ValueReadsBack(ent: EntityCb, v: CStr, rest: CStr)
    requires StandardEntities(ent)
    ensures ScanUntil(ent, Quoted(34), QuotedTail(v, rest), []) == Scan(v, Char(34, rest)) <==> Spelled(v)
  {
    ScanValue(ent, v, rest, []);
    SpelledIff(v);
    assert [] + v == v;
  }
}
