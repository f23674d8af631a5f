/** Numeric character references read as the code point that their digits spell. */
module CharRefs {
  import opened CStrings
  import opened Utf8
  import opened XmlReader
  import opened RoundTrip
  import opened WordRoundTrip

  function DigitOf(d: nat, upper: bool): Byte
    requires d < 16
  {
    if d < 10 then ByteOf('0' as int + d) else ByteOf((if upper then 'A' as int else 'a' as int) + d - 10)
  }

  /** A number as it is written down. */
  function Numeral(n: nat, base: nat, upper: bool): (s: CStr)
    requires (base == 10 || base == 16)
    ensures s != []
  {
    (if n < base then [] else Numeral(n / base, base, upper)) + [DigitOf(n % base, upper)]
  }

  function Power10(k: nat): nat {
    if k == 0 then 1 else 10 * Power10(k - 1)
  }

  lemma Halved(n: nat, base: nat, k: nat)
    requires (base == 10 || base == 16) && base <= n && n < Power10(k)
    ensures k > 1 && n / base < n && n / base < Power10(k - 1)
  {
  }

  lemma {:induction false} NumeralDigits(n: nat, base: nat, upper: bool, k: nat)
    requires (base == 10 || base == 16) && n < Power10(k) && k > 0
    ensures |Numeral(n, base, upper)| <= k
    ensures forall i | 0 <= i < |Numeral(n, base, upper)| ::
      IsAlnum(Numeral(n, base, upper)[i] as int) && Digit(Numeral(n, base, upper)[i]) < base
    decreases n
  {
    if n >= base {
      Halved(n, base, k);
      NumeralDigits(n / base, base, upper, k - 1);
    }
  }

  lemma {:induction false} DigitsMore(s: CStr, c: Byte, base: int, acc: int)
    requires (forall i | 0 <= i < |s| :: Digit(s[i]) < base) && Digit(c) < base
    ensures Digits(s + [c], base, acc) == Digits(s, base, acc) * base + Digit(c)
    decreases |s|
  {
    if s == [] {
      assert (s + [c])[1..] == [];
    } else {
      assert (s + [c])[1..] == s[1..] + [c];
      DigitsMore(s[1..], c, base, acc * base + Digit(s[0]));
    }
  }

  lemma LastDigit(n: nat, base: nat, upper: bool)
    requires base == 10 || base == 16
    ensures Digit(DigitOf(n % base, upper)) == n % base < base
    ensures n == if n < base then n % base else n / base * base + n % base
  {
  }

  lemma {:induction false} ValueOfNumeral(n: nat, base: nat, upper: bool, k: nat)
    requires (base == 10 || base == 16) && n < Power10(k) && k > 0
    ensures Digits(Numeral(n, base, upper), base, 0) == n
    decreases n
  {
    var last := DigitOf(n % base, upper);
    LastDigit(n, base, upper);
    if n >= base {
      Halved(n, base, k);
      NumeralDigits(n / base, base, upper, k - 1);
      ValueOfNumeral(n / base, base, upper, k - 1);
      DigitsMore(Numeral(n / base, base, upper), last, base, 0);
    } else {
      DigitsMore([], last, base, 0);
      assert [] + [last] == [last];
    }
  }

  lemma StrtolNumeral(n: nat, base: nat, upper: bool)
    requires (base == 10 || base == 16) && n < 0x8000_0000
    ensures ToInt(Strtol(Numeral(n, base, upper), base)) == n
    ensures |Numeral(n, base, upper)| <= 10
    ensures forall i | 0 <= i < |Numeral(n, base, upper)| :: IsAlnum(Numeral(n, base, upper)[i] as int)
  {
    assert Power10(5) == 100000 && Power10(10) == 10000000000;
    NumeralDigits(n, base, upper, 10);
    ValueOfNumeral(n, base, upper, 10);
  }

  lemma ScanRef(word: CStr, rest: CStr)
    requires |word| <= 62 && forall i | 0 <= i < |word| :: IsAlnum(word[i] as int)
    ensures ScanEntity("#" + (word + ";" + rest), []) == NameScan("#" + word, Char(';' as int, rest))
  {
    var s := "#" + (word + ";" + rest);
    assert s[1..] == word + ";" + rest;
    assert Getc(s) == Char('#' as int, s[1..]);
    assert [] + [ByteOf('#' as int)] == "#";
    ScanEntityWord(word, rest, "#");
  }

  lemma EntityDecimal(ent: EntityCb, digits: CStr)
    requires digits != [] && digits[0] != 'x'
    ensures EntityValue(ent, "#" + digits) == ToInt(Strtol(digits, 10))
  {
    assert ("#" + digits)[1..] == digits;
  }

  lemma EntityHexadecimal(ent: EntityCb, digits: CStr)
    ensures EntityValue(ent, "#" + ("x" + digits)) == ToInt(Strtol(digits, 16))
  {
    assert ("#" + ("x" + digits))[2..] == digits;
  }

  lemma FirstDecimal(n: nat)
    requires n < 0x8000_0000
    ensures Numeral(n, 10, false)[0] != 'x'
  {
    assert Power10(5) == 100000 && Power10(10) == 10000000000;
    NumeralDigits(n, 10, false, 10);
    assert Digit(Numeral(n, 10, false)[0]) < 10;
  }

  /** &#N; is the character with the decimal number N. */
  lemma DecimalRef(ent: EntityCb, n: nat, rest: CStr)
    requires n < 0x8000_0000 && !BadChar(n)
    ensures GetEntity(ent, "#" + (Numeral(n, 10, false) + ";" + rest)) == Char(n, rest)
  {
    var word := Numeral(n, 10, false);
    StrtolNumeral(n, 10, false);
    ScanRef(word, rest);
    FirstDecimal(n);
    EntityDecimal(ent, word);
  }

  /** &#xH; is the character with the hexadecimal number H, in lower or upper case. */
  lemma HexadecimalRef(ent: EntityCb, n: nat, upper: bool, rest: CStr)
    requires n < 0x8000_0000 && !BadChar(n)
    ensures GetEntity(ent, "#" + ("x" + Numeral(n, 16, upper) + ";" + rest)) == Char(n, rest)
  {
    var digits := Numeral(n, 16, upper);
    var word := "x" + digits;
    StrtolNumeral(n, 16, upper);
    ScanRef(word, rest);
    EntityHexadecimal(ent, digits);
  }

  /** In a text it is gathered like the character itself. */
  lemma RefInText(ent: EntityCb, ref: CStr, n: int, t: CStr, st: State)
    requires GetEntity(ent, ref + t) == Char(n, t)
    ensures Load(ent, "&" + (ref + t), st) == Load(ent, t, Buffered(st, Encode(n)))
  {
    var s := "&" + (ref + t);
    assert s[1..] == ref + t;
    assert Getc(s) == Char('&' as int, ref + t);
    LoadGo(ent, s, st, t, Buffered(st, Encode(n)));
  }
}
