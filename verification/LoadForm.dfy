/** The form of every tree that the loader returns, and which printed trees come back. */
module LoadForm {
  import opened CStrings
  import opened Utf8
  import opened XmlText
  import opened XmlReader
  import opened RoundTrip
  import opened WordRoundTrip
  import opened TreeRoundTrip

  /** Behind a text of the same element comes white space or a word with white space in front of it, and nothing but
      a tag comes behind white space alone. */
  predicate Fits(before: seq<Xml>, x: Xml)
    requires x.Text?
  {
    && (EndsInText(before) ==> x.whitespace && before[|before| - 1].text != [])
    && (x.text == [] ==> x.whitespace)
  }

  ghost predicate Normal(x: Xml) {
    x.Elem? && forall i | 0 <= i < |x.kids| ::
      if x.kids[i].Elem? then Normal(x.kids[i]) else Fits(x.kids[..i], x.kids[i])
  }

  ghost predicate NormalKids(kids: seq<Xml>) {
    forall i | 0 <= i < |kids| :: if kids[i].Elem? then Normal(kids[i]) else Fits(kids[..i], kids[i])
  }

  lemma NormalMore(kids: seq<Xml>, x: Xml)
    requires NormalKids(kids) && if x.Elem? then Normal(x) else Fits(kids, x)
    ensures NormalKids(kids + [x])
  {
    var all := kids + [x];
    forall i | 0 <= i < |all| ensures if all[i].Elem? then Normal(all[i]) else Fits(all[..i], all[i]) {
      assert all[..i] == kids[..i];
    }
  }

  // ---- what the loader keeps ----

  ghost predicate Frames(st: State) {
    && (forall i | 0 <= i < |st.open| :: NormalKids(st.open[i].kids))
    && (st.root.Some? ==> Normal(st.root.value)) && (st.open != [] ==> st.textMode)
  }

  /** A word that has been added has white space behind it. */
  ghost predicate Kept(st: State) {
    Frames(st) && (st.open != [] && EndsInText(st.open[0].kids) ==>
                     st.space && st.open[0].kids[|st.open[0].kids| - 1].text != [])
  }

  lemma AppendKept(st: State, x: Xml)
    requires Frames(st) && (x.Elem? ==> Normal(x)) && (x.Text? && st.open != [] ==> Fits(st.open[0].kids, x))
    ensures Frames(Append(st, x))
    ensures st.open != [] ==> Append(st, x).open[0].kids == st.open[0].kids + [x]
  {
    if st.open != [] {
      NormalMore(st.open[0].kids, x);
    }
  }

  lemma SpaceKept(st: State, ch: int)
    requires Kept(st) && IsSpace(ch)
    ensures Kept(FlushValue(st, ch))
  {
    if st.buffer != [] && st.textMode {
      AppendKept(st, Text(st.space, st.buffer));
    }
  }

  lemma TagKept(st: State)
    requires Kept(st)
    ensures Frames(FlushValue(st, '<' as int)) && !(FlushValue(st, '<' as int).space && st.textMode)
  {
    if st.buffer != [] && st.textMode {
      AppendKept(st, Text(st.space, st.buffer));
    } else if st.buffer == [] && st.space && st.textMode {
      AppendKept(st, Text(true, []));
    }
  }

  lemma CloseKept(tag: Scan, st: State)
    requires Frames(st) && tag.Scan? && !tag.stop.Utf16? && tag.text != []
    ensures CloseStep(tag, st).Go? ==> Kept(CloseStep(tag, st).st)
    ensures CloseStep(tag, st).Stop? ==> !CloseStep(tag, st).result.Tree?
  {
    if st.open != [] {
      AppendKept(st.(open := st.open[1..]), Close(st.open[0]));
    }
  }

  ghost predicate NormalResult(r: Loaded) {
    r.Tree? ==> Normal(r.x)
  }

  lemma FinishNormal(st: State)
    requires Frames(st)
    ensures NormalResult(Finish(st))
  {
    if |st.open| == 1 {
      assert NormalKids(st.open[0].kids);
    }
  }

  lemma LeafNormal(name: CStr, attrs: seq<Attr>)
    ensures Normal(Elem(name, attrs, [])) && NormalKids([])
  {
  }

  lemma OpenKept(ent: EntityCb, tag: Scan, st: State)
    requires Frames(st) && tag.Scan? && !tag.stop.Utf16?
    ensures OpenStep(ent, tag, st).Go? ==> Kept(OpenStep(ent, tag, st).st)
    ensures OpenStep(ent, tag, st).Stop? ==> NormalResult(OpenStep(ent, tag, st).result)
  {
    forall attrs: seq<Attr> ensures Frames(Append(st, Elem(tag.text, attrs, [])))
      && (st.open != [] ==> !EndsInText(Append(st, Elem(tag.text, attrs, [])).open[0].kids))
    {
      LeafNormal(tag.text, attrs);
      AppendKept(st, Elem(tag.text, attrs, []));
    }
    FinishNormal(Append(st, Elem(tag.text, [], [])));
  }

  lemma StepKept(ent: EntityCb, s: CStr, st: State)
    requires Kept(st)
    ensures LoadStep(ent, s, st).Go? ==> Kept(LoadStep(ent, s, st).st)
    ensures LoadStep(ent, s, st).Stop? ==> NormalResult(LoadStep(ent, s, st).result)
  {
    var g := Getc(s);
    if g.Eof? {
      FinishNormal(st);
    } else if g.Char? && g.ch == '<' as int {
      TagKept(st);
      var tag, st1 := ScanTag(ent, g.rest, []), FlushValue(st, g.ch);
      if tag.Scan? && !tag.stop.Utf16? {
        if StartsWith(tag.text, '/') {
          CloseKept(tag, st1);
        } else {
          OpenKept(ent, tag, st1);
        }
      }
    } else if g.Char? && IsSpace(g.ch) {
      SpaceKept(st, g.ch);
    }
  }

  lemma {:induction false} LoadNormal(ent: EntityCb, s: CStr, st: State)
    requires Kept(st)
    ensures NormalResult(Load(ent, s, st))
    decreases |s|
  {
    StepKept(ent, s, st);
    var step := LoadStep(ent, s, st);
    if step.Go? {
      LoadNormal(ent, step.rest, step.st);
    }
  }

  /** Whatever is loaded, every tree that comes out is in normal form. */
  lemma LoadedIsNormal(ent: EntityCb, s: CStr)
    ensures LoadText(ent, s).Tree? ==> Normal(LoadText(ent, s).x)
  {
    LoadNormal(ent, s, INITIAL);
  }

  // ---- which trees come back ----

  /** Names, attributes and words that writer and loader exchange unchanged. */
  ghost predicate PartsOk(x: Xml) {
    match x
    case Text(_, text) => WellEncoded(text) && NoSpace(text)
    case Elem(name, attrs, kids) => ElemNameOk(name) && AttrsOk(attrs) && forall i | 0 <= i < |kids| :: PartsOk(kids[i])
  }

  lemma {:induction false} NormalIsOk(x: Xml)
    requires x.Elem? && PartsOk(x)
    ensures TreeOk(x) <==> Normal(x)
  {
    forall i | 0 <= i < |x.kids| && x.kids[i].Elem? ensures TreeOk(x.kids[i]) <==> Normal(x.kids[i]) {
      NormalIsOk(x.kids[i]);
    }
    forall i | 0 <= i < |x.kids| && x.kids[i].Text?
      ensures TextOk(x.kids[..i], x.kids[i]) <==> Fits(x.kids[..i], x.kids[i])
    {
      assert PartsOk(x.kids[i]);
    }
  }

  /** A printed tree of such parts is loaded as the same tree if and only if it is in normal form. */
  lemma ComesBackIff(ent: EntityCb, x: Xml, wrap: int)
    requires StandardEntities(ent) && x.Elem? && PartsOk(x)
    ensures LoadText(ent, SaveText(x, wrap)) == Tree(x) <==> Normal(x)
  {
    NormalIsOk(x);
    if Normal(x) {
      PrintThenParse(ent, x, wrap);
    }
    LoadedIsNormal(ent, SaveText(x, wrap));
  }
}
