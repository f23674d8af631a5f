/** Words between tags: what the writer prints for a text, the loader gathers as that text. */
module WordRoundTrip {
  import opened CStrings
  import opened Utf8
  import opened Entities
  import opened XmlText
  import opened XmlReader
  import opened RoundTrip

  predicate NoSpace(v: CStr) {
    forall i | 0 <= i < |v| :: !IsSpace(v[i] as int)
  }

  /** A word: accepted characters without white space. */
  predicate WordOk(v: CStr) {
    v != [] && WellEncoded(v) && NoSpace(v)
  }

  function Buffered(st: State, v: CStr): State {
    st.(buffer := st.buffer + v)
  }

  lemma Assoc(a: CStr, b: CStr, c: CStr)
    ensures a + b + c == a + (b + c)
  {
  }

  lemma LoadGo(ent: EntityCb, s: CStr, st: State, rest: CStr, st1: State)
    requires LoadStep(ent, s, st) == Go(rest, st1)
    ensures Load(ent, s, st) == Load(ent, rest, st1)
  {
  }

  lemma WordEscaped(ent: EntityCb, c: Byte, t: CStr, st: State)
    requires StandardEntities(ent) && EntityName(c).Some?
    ensures Load(ent, EscapeByte(c) + t, st) == Load(ent, t, Buffered(st, [c]))
  {
    var name := EntityName(c).value;
    var s := EscapeByte(c) + t;
    assert s == "&" + (name + ";" + t);
    assert s[1..] == name + ";" + t;
    assert Getc(s) == Char('&' as int, s[1..]);
    GetEntityEscaped(ent, c, t);
    assert Encode(c as int) == [c];
    LoadGo(ent, s, st, t, Buffered(st, [c]));
  }

  lemma WordPlain(ent: EntityCb, ch: int, t: CStr, st: State)
    requires Accepted(ch) && !IsSpace(ch) && ch != '<' as int && ch != '&' as int
    ensures Load(ent, Encode(ch) + t, st) == Load(ent, t, Buffered(st, Encode(ch)))
  {
    GetcEncode(ch, t);
    LoadGo(ent, Encode(ch) + t, st, t, Buffered(st, Encode(ch)));
  }

  /** One printed character is gathered as that character. */
  lemma WordChar(ent: EntityCb, ch: int, t: CStr, st: State)
    requires StandardEntities(ent) && Accepted(ch) && !IsSpace(ch)
    ensures Load(ent, Escape(Encode(ch)) + t, st) == Load(ent, t, Buffered(st, Encode(ch)))
  {
    var e := Encode(ch);
    if ch >= 0x80 {
      EncodedPlain(ch);
      WordPlain(ent, ch, t, st);
    } else {
      assert Escape(e) == EscapeByte(e[0]) + Escape(e[1..]) == EscapeByte(e[0]);
      if EntityName(e[0]).Some? {
        assert e == [e[0]];
        WordEscaped(ent, e[0], t, st);
      } else {
        assert e == [e[0]];
        WordPlain(ent, ch, t, st);
      }
    }
  }

  lemma WordFront(v: CStr) returns (ch: int, r: CStr)
    requires WellEncoded(v) && NoSpace(v) && v != []
    ensures Accepted(ch) && !IsSpace(ch) && v == Encode(ch) + r && |r| < |v| && WellEncoded(r) && NoSpace(r)
  {
    EncodeGetc(v);
    ch, r := Getc(v).ch, Getc(v).rest;
    assert v[0] == Encode(ch)[0];
    forall i | 0 <= i < |r| ensures !IsSpace(r[i] as int) {
      assert r[i] == v[|Encode(ch)| + i];
    }
  }

  /** A printed word is gathered as that word. */
  lemma {:induction false} LoadWord(ent: EntityCb, v: CStr, t: CStr, st: State)
    requires StandardEntities(ent) && WellEncoded(v) && NoSpace(v)
    ensures Load(ent, Escape(v) + t, st) == Load(ent, t, Buffered(st, v))
    decreases |v|
  {
    if v == [] {
      assert Escape(v) + t == t && Buffered(st, v) == st;
    } else {
      var ch, r := WordFront(v);
      var e := Encode(ch);
      EscapeJoin(e, r);
      Assoc(Escape(e), Escape(r), t);
      WordChar(ent, ch, Escape(r) + t, st);
      LoadWord(ent, r, t, Buffered(st, e));
      Assoc(st.buffer, e, r);
    }
  }
}
