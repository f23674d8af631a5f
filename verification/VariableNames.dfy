/** The variable names that the generator makes up: prefix, side, route, kind and a counter. */
module VariableNames {
  import opened CStrings
  import opened Sockets

  /** What is named: an object of some kind, or a list of jobs. */
  datatype Named = AnObject(kind: Kind) | AJobList

  function ShortName(n: Named): (s: CStr)
    ensures |s| <= 13
  {
    match n
    case AJobList => "JobList"
    case AnObject(DcPort) => "DcPort"
    case AnObject(NwSocket) => "NetworkSocket"
    case AnObject(MlbPort) => "MlbPort"
    case AnObject(MlbSocket) => "MlbSocket"
    case AnObject(UsbPort) => "UsbPort"
    case AnObject(UsbSocket) => "UsbSocket"
    case AnObject(StrmPort) => "StrmPort"
    case AnObject(RmckPort) => "RmckPort"
    case AnObject(StrmSocket) => "StrmSocket"
    case AnObject(Combiner) => "Combiner"
    case AnObject(Splitter) => "Splitter"
    case AnObject(SyncCon) => "SyncCon"
    case AnObject(AvpCon) => "AvpCon"
  }

  predicate IsDigit(c: Byte) {
    '0' <= c <= '9'
  }

  lemma ShortNameLetters(n: Named)
    ensures forall i | 0 <= i < |ShortName(n)| :: !IsDigit(ShortName(n)[i])
  {
  }

  /** Length and first two letters tell the kinds apart. */
  lemma ShortNameInjective(m: Named, n: Named)
    requires ShortName(m) == ShortName(n)
    ensures m == n
  {
    var s, t := ShortName(m), ShortName(n);
    assert |s| == |t| && s[0] == t[0] && s[1] == t[1];
  }

  // ---- decimal numbers ----

  function Dec(n: nat): (s: CStr)
    ensures s != [] && forall i | 0 <= i < |s| :: IsDigit(s[i])
  {
    (if n < 10 then [] else Dec(n / 10)) + [(n % 10 + '0' as int) as char]
  }

  function Value(s: CStr): int {
    if s == [] then 0 else Value(s[..|s| - 1]) * 10 + (s[|s| - 1] as int - '0' as int)
  }

  lemma {:induction false} ValueDec(n: nat)
    ensures Value(Dec(n)) == n
  {
    var front: CStr := if n < 10 then [] else Dec(n / 10);
    assert Dec(n)[..|Dec(n)| - 1] == front;
    if n >= 10 {
      ValueDec(n / 10);
    }
  }

  function Power10(k: nat): nat {
    if k == 0 then 1 else 10 * Power10(k - 1)
  }

  lemma {:induction false} DecLength(n: nat, k: nat)
    requires n < Power10(k) && k > 0
    ensures |Dec(n)| <= k
    decreases k
  {
    if n >= 10 {
      assert k > 1;
      DecLength(n / 10, k - 1);
    }
  }

  // ---- names ----

  function Side(isSource: bool): CStr {
    if isSource then "Src" else "Snk"
  }

  function Tail(route: nat, n: Named, i: nat): CStr {
    Dec(route) + (['_'] + (ShortName(n) + Dec(i)))
  }

  /** The name for counter i, before it is cut off at the end of the buffer. */
  function Candidate(prefix: CStr, isSource: bool, route: nat, n: Named, i: nat): CStr {
    prefix + Side(isSource) + "OfRoute" + Tail(route, n, i)
  }

  /** What fits into the buffer of 64 characters. */
  function Cut(s: CStr): CStr {
    if |s| <= 63 then s else s[..63]
  }

  /** The name is not cut off. */
  predicate Fits(prefix: CStr, isSource: bool, route: nat, n: Named, i: nat) {
    |Candidate(prefix, isSource, route, n, i)| <= 63
  }

  /** With a prefix of at most 31 characters every name fits. */
  lemma CandidateFits(prefix: CStr, isSource: bool, route: nat, n: Named, i: nat)
    requires |prefix| <= 31 && route < 0x1_0000 && i < 256
    ensures Fits(prefix, isSource, route, n, i)
  {
    assert Power10(5) == 100000 && Power10(3) == 1000;
    DecLength(route, 5);
    DecLength(i, 3);
  }

  /** With a prefix of 63 characters or more all names are the same. */
  lemma CandidateCut(prefix: CStr, isSource: bool, route: nat, n: Named, i: nat)
    requires |prefix| >= 63
    ensures Cut(Candidate(prefix, isSource, route, n, i)) == prefix[..63]
  {
  }

  /** Two strings that go on with a byte of another class are equal as far as their class goes. */
  lemma {:induction false} SplitClass(a: CStr, b: CStr, x: CStr, y: CStr, digits: bool)
    requires a + x == b + y && x != [] && y != []
    requires (forall i | 0 <= i < |a| :: IsDigit(a[i]) == digits)
    requires (forall i | 0 <= i < |b| :: IsDigit(b[i]) == digits)
    requires IsDigit(x[0]) != digits && IsDigit(y[0]) != digits
    ensures a == b && x == y
  {
    if a == [] || b == [] {
      assert (a + x)[0] == (b + y)[0];
      assert a == [] && b == [];
      assert a + x == x && b + y == y;
    } else {
      assert (a + x)[0] == a[0] && (b + y)[0] == b[0];
      assert (a + x)[1..] == a[1..] + x && (b + y)[1..] == b[1..] + y;
      SplitClass(a[1..], b[1..], x, y, digits);
      assert a == [a[0]] + a[1..] && b == [b[0]] + b[1..];
    }
  }

  lemma SameFront(a: CStr, b: CStr, x: CStr, y: CStr)
    requires |a| == |b| && a + x == b + y
    ensures a == b && x == y
  {
    assert a == (a + x)[..|a|] && b == (b + y)[..|b|];
    assert x == (a + x)[|a|..] && y == (b + y)[|b|..];
  }

  lemma KindInjective(n1: Named, i1: nat, n2: Named, i2: nat)
    requires ShortName(n1) + Dec(i1) == ShortName(n2) + Dec(i2)
    ensures n1 == n2 && i1 == i2
  {
    ShortNameLetters(n1);
    ShortNameLetters(n2);
    SplitClass(ShortName(n1), ShortName(n2), Dec(i1), Dec(i2), false);
    ShortNameInjective(n1, n2);
    ValueDec(i1);
    ValueDec(i2);
  }

  lemma TailInjective(r1: nat, n1: Named, i1: nat, r2: nat, n2: Named, i2: nat)
    requires Tail(r1, n1, i1) == Tail(r2, n2, i2)
    ensures r1 == r2 && n1 == n2 && i1 == i2
  {
    var kind1, kind2 := ShortName(n1) + Dec(i1), ShortName(n2) + Dec(i2);
    var x, y := ['_'] + kind1, ['_'] + kind2;
    SplitClass(Dec(r1), Dec(r2), x, y, true);
    ValueDec(r1);
    ValueDec(r2);
    assert x[1..] == kind1 && y[1..] == kind2;
    KindInjective(n1, i1, n2, i2);
  }

  /** Different sides, routes, kinds or counters give different names. */
  lemma CandidateInjective(prefix: CStr, s1: bool, r1: nat, n1: Named, i1: nat, s2: bool, r2: nat, n2: Named, i2: nat)
    requires Candidate(prefix, s1, r1, n1, i1) == Candidate(prefix, s2, r2, n2, i2)
    ensures s1 == s2 && r1 == r2 && n1 == n2 && i1 == i2
  {
    var front1, front2 := prefix + Side(s1) + "OfRoute", prefix + Side(s2) + "OfRoute";
    SameFront(front1, front2, Tail(r1, n1, i1), Tail(r2, n2, i2));
    SameFront(prefix + Side(s1), prefix + Side(s2), "OfRoute", "OfRoute");
    SameFront(prefix, prefix, Side(s1), Side(s2));
    assert Side(s1)[1] == Side(s2)[1];
    TailInjective(r1, n1, i1, r2, n2, i2);
  }
}
