/** The (X)HTML entity table and the binary search over it. */
module Entities {
  import opened CStrings

  datatype Entity = Entity(name: CStr, code: int)

  const T00: seq<Entity> := [Entity("AElig", 198), Entity("Aacute", 193), Entity("Acirc", 194),
    Entity("Agrave", 192), Entity("Alpha", 913), Entity("Aring", 197), Entity("Atilde", 195), Entity("Auml", 196)]
  const T01: seq<Entity> := [Entity("Beta", 914), Entity("Ccedil", 199), Entity("Chi", 935), Entity("Dagger", 8225),
    Entity("Delta", 916), Entity("Dstrok", 208), Entity("ETH", 208), Entity("Eacute", 201)]
  const T02: seq<Entity> := [Entity("Ecirc", 202), Entity("Egrave", 200), Entity("Epsilon", 917), Entity("Eta", 919),
    Entity("Euml", 203), Entity("Gamma", 915), Entity("Iacute", 205), Entity("Icirc", 206)]
  const T03: seq<Entity> := [Entity("Igrave", 204), Entity("Iota", 921), Entity("Iuml", 207), Entity("Kappa", 922),
    Entity("Lambda", 923), Entity("Mu", 924), Entity("Ntilde", 209), Entity("Nu", 925)]
  const T04: seq<Entity> := [Entity("OElig", 338), Entity("Oacute", 211), Entity("Ocirc", 212),
    Entity("Ograve", 210), Entity("Omega", 937), Entity("Omicron", 927), Entity("Oslash", 216), Entity("Otilde", 213)]
  const T05: seq<Entity> := [Entity("Ouml", 214), Entity("Phi", 934), Entity("Pi", 928), Entity("Prime", 8243),
    Entity("Psi", 936), Entity("Rho", 929), Entity("Scaron", 352), Entity("Sigma", 931)]
  const T06: seq<Entity> := [Entity("THORN", 222), Entity("Tau", 932), Entity("Theta", 920), Entity("Uacute", 218),
    Entity("Ucirc", 219), Entity("Ugrave", 217), Entity("Upsilon", 933), Entity("Uuml", 220)]
  const T07: seq<Entity> := [Entity("Xi", 926), Entity("Yacute", 221), Entity("Yuml", 376), Entity("Zeta", 918),
    Entity("aacute", 225), Entity("acirc", 226), Entity("acute", 180), Entity("aelig", 230)]
  const T08: seq<Entity> := [Entity("agrave", 224), Entity("alefsym", 8501), Entity("alpha", 945), Entity("amp", 38),
    Entity("and", 8743), Entity("ang", 8736), Entity("apos", 39), Entity("aring", 229)]
  const T09: seq<Entity> := [Entity("asymp", 8776), Entity("atilde", 227), Entity("auml", 228),
    Entity("bdquo", 8222), Entity("beta", 946), Entity("brkbar", 166), Entity("brvbar", 166), Entity("bull", 8226)]
  const T10: seq<Entity> := [Entity("cap", 8745), Entity("ccedil", 231), Entity("cedil", 184), Entity("cent", 162),
    Entity("chi", 967), Entity("circ", 710), Entity("clubs", 9827), Entity("cong", 8773)]
  const T11: seq<Entity> := [Entity("copy", 169), Entity("crarr", 8629), Entity("cup", 8746), Entity("curren", 164),
    Entity("dArr", 8659), Entity("dagger", 8224), Entity("darr", 8595), Entity("deg", 176)]
  const T12: seq<Entity> := [Entity("delta", 948), Entity("diams", 9830), Entity("die", 168), Entity("divide", 247),
    Entity("eacute", 233), Entity("ecirc", 234), Entity("egrave", 232), Entity("empty", 8709)]
  const T13: seq<Entity> := [Entity("emsp", 8195), Entity("ensp", 8194), Entity("epsilon", 949),
    Entity("equiv", 8801), Entity("eta", 951), Entity("eth", 240), Entity("euml", 235), Entity("euro", 8364)]
  const T14: seq<Entity> := [Entity("exist", 8707), Entity("fnof", 402), Entity("forall", 8704),
    Entity("frac12", 189), Entity("frac14", 188), Entity("frac34", 190), Entity("frasl", 8260), Entity("gamma", 947)]
  const T15: seq<Entity> := [Entity("ge", 8805), Entity("gt", 62), Entity("hArr", 8660), Entity("harr", 8596),
    Entity("hearts", 9829), Entity("hellip", 8230), Entity("hibar", 175), Entity("iacute", 237)]
  const T16: seq<Entity> := [Entity("icirc", 238), Entity("iexcl", 161), Entity("igrave", 236),
    Entity("image", 8465), Entity("infin", 8734), Entity("int", 8747), Entity("iota", 953), Entity("iquest", 191)]
  const T17: seq<Entity> := [Entity("isin", 8712), Entity("iuml", 239), Entity("kappa", 954), Entity("lArr", 8656),
    Entity("lambda", 955), Entity("lang", 9001), Entity("laquo", 171), Entity("larr", 8592)]
  const T18: seq<Entity> := [Entity("lceil", 8968), Entity("ldquo", 8220), Entity("le", 8804),
    Entity("lfloor", 8970), Entity("lowast", 8727), Entity("loz", 9674), Entity("lrm", 8206), Entity("lsaquo", 8249)]
  const T19: seq<Entity> := [Entity("lsquo", 8216), Entity("lt", 60), Entity("macr", 175), Entity("mdash", 8212),
    Entity("micro", 181), Entity("middot", 183), Entity("minus", 8722), Entity("mu", 956)]
  const T20: seq<Entity> := [Entity("nabla", 8711), Entity("nbsp", 160), Entity("ndash", 8211), Entity("ne", 8800),
    Entity("ni", 8715), Entity("not", 172), Entity("notin", 8713), Entity("nsub", 8836)]
  const T21: seq<Entity> := [Entity("ntilde", 241), Entity("nu", 957), Entity("oacute", 243), Entity("ocirc", 244),
    Entity("oelig", 339), Entity("ograve", 242), Entity("oline", 8254), Entity("omega", 969)]
  const T22: seq<Entity> := [Entity("omicron", 959), Entity("oplus", 8853), Entity("or", 8744), Entity("ordf", 170),
    Entity("ordm", 186), Entity("oslash", 248), Entity("otilde", 245), Entity("otimes", 8855)]
  const T23: seq<Entity> := [Entity("ouml", 246), Entity("para", 182), Entity("part", 8706), Entity("permil", 8240),
    Entity("perp", 8869), Entity("phi", 966), Entity("pi", 960), Entity("piv", 982)]
  const T24: seq<Entity> := [Entity("plusmn", 177), Entity("pound", 163), Entity("prime", 8242),
    Entity("prod", 8719), Entity("prop", 8733), Entity("psi", 968), Entity("quot", 34), Entity("rArr", 8658)]
  const T25: seq<Entity> := [Entity("radic", 8730), Entity("rang", 9002), Entity("raquo", 187), Entity("rarr", 8594),
    Entity("rceil", 8969), Entity("rdquo", 8221), Entity("real", 8476), Entity("reg", 174)]
  const T26: seq<Entity> := [Entity("rfloor", 8971), Entity("rho", 961), Entity("rlm", 8207), Entity("rsaquo", 8250),
    Entity("rsquo", 8217), Entity("sbquo", 8218), Entity("scaron", 353), Entity("sdot", 8901)]
  const T27: seq<Entity> := [Entity("sect", 167), Entity("shy", 173), Entity("sigma", 963), Entity("sigmaf", 962),
    Entity("sim", 8764), Entity("spades", 9824), Entity("sub", 8834), Entity("sube", 8838)]
  const T28: seq<Entity> := [Entity("sum", 8721), Entity("sup", 8835), Entity("sup1", 185), Entity("sup2", 178),
    Entity("sup3", 179), Entity("supe", 8839), Entity("szlig", 223), Entity("tau", 964)]
  const T29: seq<Entity> := [Entity("there4", 8756), Entity("theta", 952), Entity("thetasym", 977),
    Entity("thinsp", 8201), Entity("thorn", 254), Entity("tilde", 732), Entity("times", 215), Entity("trade", 8482)]
  const T30: seq<Entity> := [Entity("uArr", 8657), Entity("uacute", 250), Entity("uarr", 8593), Entity("ucirc", 251),
    Entity("ugrave", 249), Entity("uml", 168), Entity("upsih", 978), Entity("upsilon", 965)]
  const T31: seq<Entity> := [Entity("uuml", 252), Entity("weierp", 8472), Entity("xi", 958), Entity("yacute", 253),
    Entity("yen", 165), Entity("yuml", 255), Entity("zeta", 950), Entity("zwj", 8205)]
  const T32: seq<Entity> := [Entity("zwnj", 8204)]

  const G0: seq<Entity> := T00 + T01 + T02 + T03 + T04 + T05
  const G1: seq<Entity> := T06 + T07 + T08 + T09 + T10 + T11
  const G2: seq<Entity> := T12 + T13 + T14 + T15 + T16 + T17
  const G3: seq<Entity> := T18 + T19 + T20 + T21 + T22 + T23
  const G4: seq<Entity> := T24 + T25 + T26 + T27 + T28 + T29
  const G5: seq<Entity> := T30 + T31 + T32

  /** The table, in the order of the C array. */
  const ENTITIES: seq<Entity> := G0 + G1 + G2 + G3 + G4 + G5

  /** The order that the search relies on. */
  ghost predicate Ascending(t: seq<Entity>) {
    forall i | 0 <= i < |t| - 1 :: StrCmp(t[i].name, t[i + 1].name) < 0
  }

  /** The names agree on k bytes and ascend at the next one. */
  predicate Splits(a: CStr, b: CStr, k: nat) {
    k <= |a| && k < |b| && (forall i | 0 <= i < k :: a[i] == b[i]) && (k == |a| || a[k] < b[k])
  }

  lemma {:induction false} SplitsBelow(a: CStr, b: CStr, k: nat)
    requires Splits(a, b, k)
    ensures StrCmp(a, b) < 0
  {
    if k > 0 {
      SplitsBelow(a[1..], b[1..], k - 1);
    }
  }

  /** Neighbouring names ascend; d says how many bytes they share. */
  predicate Steps(t: seq<Entity>, d: seq<nat>) {
    |d| + 1 == |t| && forall i | 0 <= i < |d| :: Splits(t[i].name, t[i + 1].name, d[i])
  }

  ghost predicate Rising(t: seq<Entity>) {
    exists d :: Steps(t, d)
  }

  lemma RisingAscends(t: seq<Entity>)
    requires Rising(t)
    ensures Ascending(t)
  {
    var d :| Steps(t, d);
    forall i | 0 <= i < |t| - 1 ensures StrCmp(t[i].name, t[i + 1].name) < 0 {
      SplitsBelow(t[i].name, t[i + 1].name, d[i]);
    }
  }

  lemma Rises(t: seq<Entity>, d: seq<nat>)
    requires |d| + 1 == |t| && forall i | 0 <= i < |d| :: Splits(t[i].name, t[i + 1].name, d[i])
    ensures Rising(t)
  {
    assert Steps(t, d);
  }

  lemma RisingJoin(a: seq<Entity>, b: seq<Entity>, k: nat)
    requires Rising(a) && Rising(b) && a != [] && b != []
    requires Splits(a[|a| - 1].name, b[0].name, k)
    ensures Rising(a + b) && a + b != []
    ensures (a + b)[0] == a[0] && (a + b)[|a + b| - 1] == b[|b| - 1]
  {
    var c :| Steps(a, c);
    var d :| Steps(b, d);
    assert Steps(a + b, c + [k] + d);
  }

  lemma Part0()
    ensures Rising(T00) && Rising(T01)
  {
    Rises(T00, [1, 1, 1, 1, 1, 1, 1]);
    Rises(T01, [0, 1, 0, 1, 1, 0, 1]);
  }

  lemma Part1()
    ensures Rising(T02) && Rising(T03)
  {
    Rises(T02, [1, 1, 1, 1, 0, 0, 1]);
    Rises(T03, [1, 1, 0, 0, 0, 0, 1]);
  }

  lemma Part2()
    ensures Rising(T04) && Rising(T05)
  {
    Rises(T04, [1, 1, 1, 1, 2, 1, 1]);
    Rises(T05, [0, 1, 1, 1, 0, 0, 1]);
  }

  lemma Part3()
    ensures Rising(T06) && Rising(T07)
  {
    Rises(T06, [1, 1, 0, 1, 1, 1, 1]);
    Rises(T07, [0, 1, 0, 0, 1, 2, 1]);
  }

  lemma Part4()
    ensures Rising(T08) && Rising(T09)
  {
    Rises(T08, [1, 2, 1, 1, 2, 1, 1]);
    Rises(T09, [1, 1, 0, 1, 1, 2, 1]);
  }

  lemma Part5()
    ensures Rising(T10) && Rising(T11)
  {
    Rises(T10, [1, 1, 2, 1, 1, 1, 1]);
    Rises(T11, [1, 1, 2, 0, 1, 2, 1]);
  }

  lemma Part6()
    ensures Rising(T12) && Rising(T13)
  {
    Rises(T12, [1, 2, 2, 0, 1, 1, 1]);
    Rises(T13, [1, 1, 1, 1, 2, 1, 2]);
  }

  lemma Part7()
    ensures Rising(T14) && Rising(T15)
  {
    Rises(T14, [0, 1, 1, 5, 4, 3, 0]);
    Rises(T15, [1, 0, 1, 1, 2, 1, 0]);
  }

  lemma Part8()
    ensures Rising(T16) && Rising(T17)
  {
    Rises(T16, [1, 1, 1, 1, 2, 1, 1]);
    Rises(T17, [1, 0, 0, 1, 2, 2, 2]);
  }

  lemma Part9()
    ensures Rising(T18) && Rising(T19)
  {
    Rises(T18, [1, 1, 1, 1, 2, 1, 1]);
    Rises(T19, [1, 0, 1, 1, 2, 2, 1]);
  }

  lemma Part10()
    ensures Rising(T20) && Rising(T21)
  {
    Rises(T20, [1, 1, 1, 1, 1, 3, 1]);
    Rises(T21, [1, 0, 1, 1, 1, 1, 1]);
  }

  lemma Part11()
    ensures Rising(T22) && Rising(T23)
  {
    Rises(T22, [1, 1, 2, 3, 1, 1, 3]);
    Rises(T23, [0, 3, 1, 3, 1, 1, 2]);
  }

  lemma Part12()
    ensures Rising(T24) && Rising(T25)
  {
    Rises(T24, [1, 1, 2, 3, 1, 0, 0]);
    Rises(T25, [2, 2, 2, 1, 1, 1, 2]);
  }

  lemma Part13()
    ensures Rising(T26) && Rising(T27)
  {
    Rises(T26, [1, 1, 1, 2, 0, 1, 1]);
    Rises(T27, [1, 1, 5, 2, 1, 1, 3]);
  }

  lemma Part14()
    ensures Rising(T28) && Rising(T29)
  {
    Rises(T28, [2, 3, 3, 3, 3, 1, 0]);
    Rises(T29, [3, 5, 2, 2, 1, 2, 1]);
  }

  lemma Part15()
    ensures Rising(T30) && Rising(T31)
  {
    Rises(T30, [1, 2, 1, 1, 1, 1, 4]);
    Rises(T31, [0, 0, 0, 1, 1, 0, 1]);
  }

  lemma Part16()
    ensures Rising(T32)
  {
    Rises(T32, []);
  }

  lemma Group0()
    ensures Rising(G0) && G0 != [] && G0[0] == T00[0] && G0[|G0| - 1] == T05[|T05| - 1]
  {
    Part0();
    RisingJoin(T00, T01, 0);
    Part1();
    RisingJoin(T00 + T01, T02, 1);
    RisingJoin(T00 + T01 + T02, T03, 1);
    Part2();
    RisingJoin(T00 + T01 + T02 + T03, T04, 0);
    RisingJoin(T00 + T01 + T02 + T03 + T04, T05, 1);
  }

  lemma Group1()
    ensures Rising(G1) && G1 != [] && G1[0] == T06[0] && G1[|G1| - 1] == T11[|T11| - 1]
  {
    Part3();
    RisingJoin(T06, T07, 0);
    Part4();
    RisingJoin(T06 + T07, T08, 1);
    RisingJoin(T06 + T07 + T08, T09, 1);
    Part5();
    RisingJoin(T06 + T07 + T08 + T09, T10, 0);
    RisingJoin(T06 + T07 + T08 + T09 + T10, T11, 2);
  }

  lemma Group2()
    ensures Rising(G2) && G2 != [] && G2[0] == T12[0] && G2[|G2| - 1] == T17[|T17| - 1]
  {
    Part6();
    RisingJoin(T12, T13, 2);
    Part7();
    RisingJoin(T12 + T13, T14, 1);
    RisingJoin(T12 + T13 + T14, T15, 1);
    Part8();
    RisingJoin(T12 + T13 + T14 + T15, T16, 1);
    RisingJoin(T12 + T13 + T14 + T15 + T16, T17, 1);
  }

  lemma Group3()
    ensures Rising(G3) && G3 != [] && G3[0] == T18[0] && G3[|G3| - 1] == T23[|T23| - 1]
  {
    Part9();
    RisingJoin(T18, T19, 2);
    Part10();
    RisingJoin(T18 + T19, T20, 0);
    RisingJoin(T18 + T19 + T20, T21, 1);
    Part11();
    RisingJoin(T18 + T19 + T20 + T21, T22, 2);
    RisingJoin(T18 + T19 + T20 + T21 + T22, T23, 1);
  }

  lemma Group4()
    ensures Rising(G4) && G4 != [] && G4[0] == T24[0] && G4[|G4| - 1] == T29[|T29| - 1]
  {
    Part12();
    RisingJoin(T24, T25, 1);
    Part13();
    RisingJoin(T24 + T25, T26, 1);
    RisingJoin(T24 + T25 + T26, T27, 1);
    Part14();
    RisingJoin(T24 + T25 + T26 + T27, T28, 2);
    RisingJoin(T24 + T25 + T26 + T27 + T28, T29, 1);
  }

  lemma Group5()
    ensures Rising(G5) && G5 != [] && G5[0] == T30[0] && G5[|G5| - 1] == T32[|T32| - 1]
  {
    Part15();
    RisingJoin(T30, T31, 1);
    Part16();
    RisingJoin(T30 + T31, T32, 2);
  }

  /** The C array is strictly ascending in strcmp order: no entity name occurs twice. */
  lemma TableAscending()
    ensures Ascending(ENTITIES)
  {
    Group0();
    Group1();
    RisingJoin(G0, G1, 0);
    Group2();
    RisingJoin(G0 + G1, G2, 2);
    Group3();
    RisingJoin(G0 + G1 + G2, G3, 1);
    Group4();
    RisingJoin(G0 + G1 + G2 + G3, G4, 1);
    Group5();
    RisingJoin(G0 + G1 + G2 + G3 + G4, G5, 0);
    RisingAscends(ENTITIES);
  }

  lemma {:induction false} AscendingPair(t: seq<Entity>, i: nat, j: nat)
    requires Ascending(t) && i < j < |t|
    ensures StrCmp(t[i].name, t[j].name) < 0
  {
    if i + 1 < j {
      AscendingPair(t, i, j - 1);
      StrCmpTransitive(t[i].name, t[j - 1].name, t[j].name);
    }
  }

  /** The code that the table gives a name, -1 when the name is not in it. */
  function Lookup(t: seq<Entity>, name: CStr): int {
    if t == [] then -1 else if t[0].name == name then t[0].code else Lookup(t[1..], name)
  }

  lemma {:induction false} LookupAt(t: seq<Entity>, i: nat)
    requires Ascending(t) && i < |t|
    ensures Lookup(t, t[i].name) == t[i].code
  {
    if i > 0 {
      AscendingPair(t, 0, i);
      assert Ascending(t[1..]) by {
        forall k | 0 <= k < |t[1..]| - 1 ensures StrCmp(t[1..][k].name, t[1..][k + 1].name) < 0 {
          assert StrCmp(t[k + 1].name, t[k + 2].name) < 0;
        }
      }
      LookupAt(t[1..], i - 1);
    }
  }

  lemma {:induction false} LookupMissing(t: seq<Entity>, name: CStr)
    requires forall i | 0 <= i < |t| :: t[i].name != name
    ensures Lookup(t, name) == -1
  {
    if t != [] {
      LookupMissing(t[1..], name);
    }
  }

  /** The binary search that narrows to two neighbours and then tests both. */
  method EntityCb(t: seq<Entity>, name: CStr) returns (code: int)
    requires Ascending(t) && t != []
    ensures code == Lookup(t, name)
  {
    var first, last := 0, |t| - 1;
    while last - first > 1
      invariant 0 <= first <= last < |t|
      invariant forall i | 0 <= i < first :: t[i].name != name
      invariant forall i | last < i < |t| :: t[i].name != name
      decreases last - first
    {
      var current := (first + last) / 2;
      var diff := StrCmp(name, t[current].name);
      if diff == 0 {
        LookupAt(t, current);
        return t[current].code;
      } else if diff < 0 {
        forall i | current < i < |t| ensures t[i].name != name {
          AscendingPair(t, current, i);
          StrCmpAntisymmetric(name, t[current].name);
        }
        last := current;
      } else {
        forall i | 0 <= i < current ensures t[i].name != name {
          AscendingPair(t, i, current);
          StrCmpAntisymmetric(name, t[current].name);
        }
        first := current;
      }
    }
    if name == t[first].name {
      LookupAt(t, first);
      return t[first].code;
    } else if name == t[last].name {
      LookupAt(t, last);
      return t[last].code;
    } else {
      LookupMissing(t, name);
      return -1;
    }
  }

  /** The entity name that the writer substitutes for a byte, if any. */
  function EntityName(c: Byte): (r: Option<CStr>) {
    if c == '&' then Some("amp")
    else if c == '<' then Some("lt")
    else if c == '>' then Some("gt")
    else if c == '\"' then Some("quot")
    else None
  }

  const AMP := 67
  const GT := 121
  const LT := 153
  const QUOT := 198

  lemma EntityNameIndex()
    ensures |ENTITIES| == 257
    ensures ENTITIES[AMP] == Entity("amp", 38) && ENTITIES[GT] == Entity("gt", 62)
    ensures ENTITIES[LT] == Entity("lt", 60) && ENTITIES[QUOT] == Entity("quot", 34)
  {
  }

  /** Every name that the writer uses is in the reader's table, with the byte it stands for. */
  lemma EntityNameLookup(c: Byte)
    requires EntityName(c).Some?
    ensures Lookup(ENTITIES, EntityName(c).value) == c as int
  {
    TableAscending();
    EntityNameIndex();
    LookupAt(ENTITIES, AMP);
    LookupAt(ENTITIES, GT);
    LookupAt(ENTITIES, LT);
    LookupAt(ENTITIES, QUOT);
  }
}
