/** The checksum that protects the identification string flashed into a node. */
module Crc {

  type Octet = w: bv16 | w & 0xff00 == 0

  // ---- one byte ----

  /** The new checksum, from its old high byte and from the low byte with the message byte added. */
  function Turn(hi: bv16, v1: bv16): bv16 {
    var v2 := (v1 ^ ((v1 << 4) & 0xf0)) & 0xff;
    var lo1 := (hi ^ ((v2 << 3) & 0xfc) ^ ((v2 >> 4) & 0xf)) & 0xff;
    var hi1 := (v2 ^ ((v2 >> 5) & 0x7)) & 0xff;
    ((hi1 << 8) & 0xff00) | (lo1 & 0xff)
  }

  /** CalcCCITT16Step, on bytes widened to 16 bits. */
  function Step(crc: bv16, value: Octet): bv16 {
    Turn((crc >> 8) & 0xff, (value ^ (crc & 0xff)) & 0xff)
  }

  /** One step of the division of polynomials over GF(2), bits in reflected order: the polynomial is subtracted
      whenever a bit is shifted out. The polynomial's bits are written as shifts of that bit. */
  function BitStep(crc: bv16): bv16 {
    (crc >> 1) ^ ((crc & 1) << 15) ^ ((crc & 1) << 10) ^ ((crc & 1) << 3)
  }

  lemma BitStepSubtracts(crc: bv16)
    ensures BitStep(crc) == if crc & 1 == 1 then (crc >> 1) ^ 0x8408 else crc >> 1
  {
  }

  function BitSteps(crc: bv16, n: nat): bv16
    decreases n
  {
    if n == 0 then crc else BitSteps(BitStep(crc), n - 1)
  }

  /** Four steps at once: none of the bits that are shifted out is shifted out again on the way. */
  function Four(w: bv16): bv16 {
    (w >> 4) ^ ((w & 0xf) << 12) ^ ((w & 0xf) << 7) ^ (w & 0xf)
  }

  lemma FourSteps(w: bv16, n: nat)
    ensures BitSteps(w, n + 4) == BitSteps(Four(w), n)
  {
    assert BitStep(BitStep(BitStep(BitStep(w)))) == Four(w);
    assert BitSteps(w, n + 4) == BitSteps(BitStep(w), n + 3) == BitSteps(BitStep(BitStep(w)), n + 2)
        == BitSteps(BitStep(BitStep(BitStep(w))), n + 1);
  }

  lemma EightSteps(w: bv16, n: nat)
    requires n == 8
    ensures BitSteps(w, n) == Four(Four(w))
  {
    FourSteps(w, n - 4);
    FourSteps(Four(w), n - 8);
  }

  lemma TurnIsEight(w: bv16)
    ensures Turn((w >> 8) & 0xff, w & 0xff) == Four(Four(w))
  {
  }

  lemma StepIsTurn(crc: bv16, value: Octet, hi: bv16, v1: bv16)
    requires hi == (crc >> 8) & 0xff && v1 == (value ^ (crc & 0xff)) & 0xff
    ensures Step(crc, value) == Turn(hi, v1)
  {
  }

  lemma LowByte(crc: bv16, value: Octet)
    ensures (value ^ (crc & 0xff)) & 0xff == (crc ^ value) & 0xff
  {
  }

  lemma HighByte(crc: bv16, value: Octet)
    ensures ((crc ^ value) >> 8) & 0xff == (crc >> 8) & 0xff
  {
  }

  /** The step is eight steps of the bitwise division with polynomial 0x8408, after the byte is added. */
  lemma StepDivides(crc: bv16, value: Octet, n: nat)
    requires n == 8
    ensures Step(crc, value) == BitSteps(crc ^ value, n)
  {
    var w := crc ^ value;
    LowByte(crc, value);
    HighByte(crc, value);
    StepIsTurn(crc, value, (w >> 8) & 0xff, w & 0xff);
    TurnIsEight(w);
    EightSteps(w, n);
  }

  // ---- bitwise division ----

  lemma BitStepInjective(v: bv16, w: bv16)
    requires BitStep(v) == BitStep(w)
    ensures v == w
  {
  }

  lemma {:induction false} Injective(v: bv16, w: bv16, n: nat)
    requires BitSteps(v, n) == BitSteps(w, n)
    ensures v == w
    decreases n
  {
    if n > 0 {
      Injective(BitStep(v), BitStep(w), n - 1);
      BitStepInjective(v, w);
    }
  }

  /** The high byte of the result tells the low byte apart. */
  lemma TurnApart(hi: Octet, p: Octet, q: Octet)
    requires Turn(hi, p) & 0xff00 == Turn(hi, q) & 0xff00
    ensures p == q
  {
  }

  lemma SameHigh(u: bv16, v: bv16)
    requires u & 0xff00 == v & 0xff00
    ensures (u >> 8) & 0xff == (v >> 8) & 0xff
  {
  }

  lemma Reassembled(u: bv16, v: bv16)
    requires u & 0xff00 == v & 0xff00 && u & 0xff == v & 0xff
    ensures u == v
  {
  }

  lemma EightApart(u: bv16, v: bv16)
    requires u & 0xff00 == v & 0xff00
    requires Turn((u >> 8) & 0xff, u & 0xff) & 0xff00 == Turn((v >> 8) & 0xff, v & 0xff) & 0xff00
    ensures u == v
  {
    SameHigh(u, v);
    TurnApart((u >> 8) & 0xff, u & 0xff, v & 0xff);
    Reassembled(u, v);
  }

  lemma Apart(u: bv16, v: bv16, n: nat)
    requires n == 8 && u & 0xff00 == v & 0xff00 && BitSteps(u, n) & 0xff00 == BitSteps(v, n) & 0xff00
    ensures u == v
  {
    EightSteps(u, n);
    EightSteps(v, n);
    TurnIsEight(u);
    TurnIsEight(v);
    EightApart(u, v);
  }

  lemma Cancel(v: bv16, w: bv16, x: bv16)
    requires v ^ x == w ^ x
    ensures v == w
  {
  }

  lemma {:induction false} Nothing(n: nat)
    ensures BitSteps(0, n) == 0
    decreases n
  {
    if n > 0 {
      assert BitStep(0) == 0;
      Nothing(n - 1);
    }
  }

  function High(w: bv16): Octet {
    (w >> 8) & 0xff
  }

  function Low(w: bv16): Octet {
    w & 0xff
  }

  lemma Folded(crc: bv16, n: nat)
    requires n == 8
    ensures BitSteps(crc ^ Low(crc), n) == High(crc)
  {
    EightSteps(crc ^ Low(crc), n);
  }

  // ---- what a message needs to know about the division of one byte ----

  ghost predicate InjectiveAt(f: bv16 -> bv16, v: bv16, w: bv16) {
    f(v) == f(w) ==> v == w
  }

  ghost predicate ApartAt(f: bv16 -> bv16, u: bv16, v: bv16) {
    u & 0xff00 == v & 0xff00 && f(u) & 0xff00 == f(v) & 0xff00 ==> u == v
  }

  ghost predicate FoldsAt(f: bv16 -> bv16, w: bv16) {
    f(w ^ Low(w)) == High(w)
  }

  ghost predicate Divider(f: bv16 -> bv16) {
    && (forall v, w :: InjectiveAt(f, v, w))
    && (forall u, v :: ApartAt(f, u, v))
    && (forall w :: FoldsAt(f, w))
    && f(0) == 0
  }

  lemma InjectiveHere(f: bv16 -> bv16, v: bv16, w: bv16)
    requires Divider(f) && f(v) == f(w)
    ensures v == w
  {
    assert InjectiveAt(f, v, w);
  }

  lemma ApartHere(f: bv16 -> bv16, u: bv16, v: bv16)
    requires Divider(f) && u & 0xff00 == v & 0xff00 && f(u) & 0xff00 == f(v) & 0xff00
    ensures u == v
  {
    assert ApartAt(f, u, v);
  }

  /** A byte has been added to a remainder. */
  predicate Added(crc: bv16, a: Octet, sum: bv16) {
    sum == crc ^ a
  }

  lemma SumHigh(crc: bv16, a: Octet, sum: bv16)
    requires Added(crc, a, sum)
    ensures sum & 0xff00 == crc & 0xff00
  {
  }

  lemma SecondByte(u: bv16, b: Octet, y: Octet, sum: bv16)
    requires Added(u, b, sum) && Added(u, y, sum)
    ensures b == y
  {
  }

  lemma FirstByte(f: bv16 -> bv16, crc: bv16, a: Octet, x: Octet, ca: bv16, cx: bv16, u: bv16, v: bv16,
                  b: Octet, y: Octet, sum: bv16)
    requires Divider(f) && Added(crc, a, ca) && Added(crc, x, cx) && u == f(ca) && v == f(cx)
    requires Added(u, b, sum) && Added(v, y, sum)
    ensures a == x && ca == cx
  {
    SumHigh(u, b, sum);
    SumHigh(v, y, sum);
    SumHigh(crc, a, ca);
    SumHigh(crc, x, cx);
    ApartHere(f, ca, cx);
    SecondByte(crc, a, x, ca);
  }

  /** Two bytes in a row are told apart from any other two. */
  lemma TwoBytes(f: bv16 -> bv16, crc: bv16, a: Octet, b: Octet, x: Octet, y: Octet,
                 ca: bv16, cx: bv16, cab: bv16, cxy: bv16)
    requires Divider(f) && Added(crc, a, ca) && Added(crc, x, cx) && Added(f(ca), b, cab) && Added(f(cx), y, cxy)
    requires f(cab) == f(cxy)
    ensures a == x && b == y
  {
    InjectiveHere(f, cab, cxy);
    FirstByte(f, crc, a, x, ca, cx, f(ca), f(cx), b, y, cab);
    SecondByte(f(ca), b, y, cab);
  }

  /** The remainder of a message. */
  function Remainder(f: bv16 -> bv16, data: seq<Octet>, start: bv16): bv16 {
    if data == [] then start else Remainder(f, data[1..], f(start ^ data[0]))
  }

  lemma {:induction false} RemainderJoin(f: bv16 -> bv16, a: seq<Octet>, b: seq<Octet>, start: bv16)
    ensures Remainder(f, a + b, start) == Remainder(f, b, Remainder(f, a, start))
  {
    if a == [] {
      assert a + b == b;
    } else {
      assert (a + b)[1..] == a[1..] + b;
      RemainderJoin(f, a[1..], b, f(start ^ a[0]));
    }
  }

  lemma RemainderCons(f: bv16 -> bv16, start: bv16, a: Octet, s: seq<Octet>)
    ensures Remainder(f, [a] + s, start) == Remainder(f, s, f(start ^ a))
  {
    assert ([a] + s)[1..] == s;
  }

  lemma RemainderOne(f: bv16 -> bv16, start: bv16, a: Octet)
    ensures Remainder(f, [a], start) == f(start ^ a)
  {
    assert [a][1..] == [];
  }

  lemma RemainderTwo(f: bv16 -> bv16, start: bv16, a: Octet, b: Octet, v: bv16)
    requires v == f(start ^ a)
    ensures Remainder(f, [a, b], start) == f(v ^ b)
  {
    assert [a, b] == [a] + [b];
    RemainderCons(f, start, a, [b]);
    RemainderOne(f, v, b);
  }

  lemma RemainderPair(f: bv16 -> bv16, start: bv16, a: Octet, b: Octet)
    ensures Remainder(f, [a, b], start) == f(f(start ^ a) ^ b)
  {
    RemainderTwo(f, start, a, b, f(start ^ a));
  }

  lemma SelfRemainder(f: bv16 -> bv16, data: seq<Octet>, start: bv16)
    requires Divider(f)
    ensures var r := Remainder(f, data, start); Remainder(f, data + [Low(r), High(r)], start) == 0
  {
    var r := Remainder(f, data, start);
    RemainderJoin(f, data, [Low(r), High(r)], start);
    assert FoldsAt(f, r);
    RemainderTwo(f, r, Low(r), High(r), High(r));
    assert High(r) ^ High(r) == 0;
  }

  lemma {:induction false} RemainderInjective(f: bv16 -> bv16, data: seq<Octet>, v: bv16, w: bv16)
    requires Divider(f) && Remainder(f, data, v) == Remainder(f, data, w)
    ensures v == w
  {
    if data != [] {
      RemainderInjective(f, data[1..], f(v ^ data[0]), f(w ^ data[0]));
      assert InjectiveAt(f, v ^ data[0], w ^ data[0]);
      Cancel(v, w, data[0]);
    }
  }

  lemma TwoRemaindersOf(f: bv16 -> bv16, crc: bv16, p: Octet, q: Octet, x: Octet, y: Octet)
    requires Divider(f) && Remainder(f, [p, q], crc) == Remainder(f, [x, y], crc)
    ensures p == x && q == y
  {
    RemainderPair(f, crc, p, q);
    RemainderPair(f, crc, x, y);
    TwoBytes(f, crc, p, q, x, y, crc ^ p, crc ^ x, f(crc ^ p) ^ q, f(crc ^ x) ^ y);
  }

  lemma TwoRemainders(f: bv16 -> bv16, crc: bv16, a: seq<Octet>, b: seq<Octet>)
    requires Divider(f) && |a| == 2 && |b| == 2 && Remainder(f, a, crc) == Remainder(f, b, crc)
    ensures a == b
  {
    var p, q, x, y := a[0], a[1], b[0], b[1];
    assert a == [p, q] && b == [x, y];
    TwoRemaindersOf(f, crc, p, q, x, y);
  }

  lemma BurstRemainder(f: bv16 -> bv16, front: seq<Octet>, a: seq<Octet>, b: seq<Octet>, back: seq<Octet>, start: bv16)
    requires Divider(f) && |a| == 2 && |b| == 2 && a != b
    ensures Remainder(f, front + a + back, start) != Remainder(f, front + b + back, start)
  {
    var crc := Remainder(f, front, start);
    RemainderJoin(f, front + a, back, start);
    RemainderJoin(f, front + b, back, start);
    RemainderJoin(f, front, a, start);
    RemainderJoin(f, front, b, start);
    if Remainder(f, front + a + back, start) == Remainder(f, front + b + back, start) {
      RemainderInjective(f, back, Remainder(f, a, crc), Remainder(f, b, crc));
      TwoRemainders(f, crc, a, b);
    }
  }

  // ---- messages ----

  /** The checksum of a message, started from a given value. */
  function Checksum(data: seq<Octet>, start: bv16): bv16 {
    if data == [] then start else Checksum(data[1..], Step(start, data[0]))
  }

  /** CalcCCITT16. The index has eight bits. */
  method CalcCCITT16(data: array<Octet>, length: nat, start: bv16) returns (crc: bv16)
    requires length <= data.Length && length < 256
    ensures crc == Checksum(data[..length], start)
  {
    crc := start;
    var i := 0;
    assert data[0..length] == data[..length];
    while i < length
      invariant 0 <= i <= length && Checksum(data[i..length], crc) == Checksum(data[..length], start)
      decreases length - i
    {
      assert data[i..length][1..] == data[i + 1..length];
      crc := Step(crc, data[i]);
      i := (i + 1) % 256;
    }
  }

  /** The index of CalcCCITT16 in the given round. */
  function IndexAt(round: nat): (i: nat)
    ensures i < 256
  {
    if round == 0 then 0 else (IndexAt(round - 1) + 1) % 256
  }

  lemma {:induction false} IndexReaches(i: nat)
    requires i < 256
    ensures IndexAt(i) == i
  {
    if i > 0 {
      IndexReaches(i - 1);
    }
  }

  /** The loop ends if and only if the message has at most 255 bytes. */
  lemma LoopEndsIff(length: nat)
    ensures (exists round: nat :: IndexAt(round) >= length) <==> length < 256
  {
    if length < 256 {
      IndexReaches(length);
    }
  }

  lemma EightInjective(f: bv16 -> bv16, n: nat)
    requires forall w :: f(w) == BitSteps(w, n)
    ensures forall v, w :: InjectiveAt(f, v, w)
  {
    forall v, w ensures InjectiveAt(f, v, w) {
      if f(v) == f(w) {
        Injective(v, w, n);
      }
    }
  }

  lemma ApartAs(u: bv16, v: bv16, fu: bv16, fv: bv16, n: nat)
    requires n == 8 && fu == BitSteps(u, n) && fv == BitSteps(v, n)
    ensures u & 0xff00 == v & 0xff00 && fu & 0xff00 == fv & 0xff00 ==> u == v
  {
    if u & 0xff00 == v & 0xff00 && fu & 0xff00 == fv & 0xff00 {
      Apart(u, v, n);
    }
  }

  lemma EightApartAll(f: bv16 -> bv16, n: nat)
    requires n == 8 && forall w :: f(w) == BitSteps(w, n)
    ensures forall u, v :: ApartAt(f, u, v)
  {
    forall u, v ensures ApartAt(f, u, v) {
      ApartAs(u, v, f(u), f(v), n);
    }
  }

  lemma EightIsDivider(n: nat) returns (f: bv16 -> bv16)
    requires n == 8
    ensures Divider(f) && forall w :: f(w) == BitSteps(w, n)
    ensures forall crc: bv16, value: Octet :: f(crc ^ value) == Step(crc, value)
  {
    f := w => BitSteps(w, n);
    EightInjective(f, n);
    EightApartAll(f, n);
    forall w ensures FoldsAt(f, w) {
      Folded(w, n);
    }
    Nothing(n);
    forall crc: bv16, value: Octet ensures f(crc ^ value) == Step(crc, value) {
      StepDivides(crc, value, n);
    }
  }

  lemma {:induction false} ChecksumIs(f: bv16 -> bv16, data: seq<Octet>, start: bv16)
    requires forall crc: bv16, value: Octet :: f(crc ^ value) == Step(crc, value)
    ensures Checksum(data, start) == Remainder(f, data, start)
  {
    if data != [] {
      ChecksumIs(f, data[1..], Step(start, data[0]));
    }
  }

  /** The checksum is the remainder of the bitwise division: n, which is 8, steps for every byte. */
  lemma ChecksumDivides(n: nat) returns (f: bv16 -> bv16)
    requires n == 8
    ensures forall w :: f(w) == BitSteps(w, n)
    ensures forall data, start :: Checksum(data, start) == Remainder(f, data, start)
  {
    f := EightIsDivider(n);
    forall data, start ensures Checksum(data, start) == Remainder(f, data, start) {
      ChecksumIs(f, data, start);
    }
  }

  /** What the theorems about messages need of that division. */
  lemma ChecksumDivider(n: nat) returns (f: bv16 -> bv16)
    requires n == 8
    ensures Divider(f) && forall data, start :: Checksum(data, start) == Remainder(f, data, start)
  {
    f := EightIsDivider(n);
    forall data, start ensures Checksum(data, start) == Remainder(f, data, start) {
      ChecksumIs(f, data, start);
    }
  }

  /** A message followed by its checksum, low byte first, checks to zero. */
  lemma SelfCheck(data: seq<Octet>, start: bv16)
    ensures var crc := Checksum(data, start); Checksum(data + [Low(crc), High(crc)], start) == 0
  {
    var f := ChecksumDivider(8);
    SelfRemainder(f, data, start);
  }

  /** Any change confined to two adjacent bytes changes the checksum. */
  lemma BurstDetected(front: seq<Octet>, a: seq<Octet>, b: seq<Octet>, back: seq<Octet>, start: bv16)
    requires |a| == 2 && |b| == 2 && a != b
    ensures Checksum(front + a + back, start) != Checksum(front + b + back, start)
  {
    var f := ChecksumDivider(8);
    BurstRemainder(f, front, a, b, back, start);
  }
}
