/** UTF-8 as the loader reads it and as the loader's buffers store it. */
module Utf8 {
  import opened CStrings

  /** One read: a code point and the text after it, end of input (or a rejected sequence, which the
      C code reports with the same EOF but after stepping over some bytes), or a switch to UTF-16. */
  datatype Got = Char(ch: int, rest: CStr) | Eof(rest: CStr) | Utf16

  predicate IsSpace(ch: int) {
    ch == 32 || ch == 9 || ch == 13 || ch == 10
  }

  predicate BadChar(ch: int) {
    ch < 32 && ch != 10 && ch != 13 && ch != 9
  }

  /** The code points the reader can deliver. */
  predicate Accepted(ch: int) {
    !BadChar(ch) && ch < 0x200000 && ch != 0xfeff
  }

  /** The byte at offset i; the terminator when the string ends there. */
  function At(s: CStr, i: nat): int {
    if i < |s| then s[i] as int else 0
  }

  predicate Continuation(b: int) {
    0x80 <= b < 0xc0
  }

  function Value2(b0: int, b1: int): int {
    (b0 - 0xc0) * 64 + (b1 - 0x80)
  }

  function Value3(b0: int, b1: int, b2: int): int {
    ((b0 - 0xe0) * 64 + (b1 - 0x80)) * 64 + (b2 - 0x80)
  }

  function Value4(b0: int, b1: int, b2: int, b3: int): int {
    (((b0 - 0xf0) * 64 + (b1 - 0x80)) * 64 + (b2 - 0x80)) * 64 + (b3 - 0x80)
  }

  function Get2(s: CStr): (g: Got)
    requires 0xc0 <= At(s, 0) < 0xe0
    ensures !g.Utf16?
    ensures g.Eof? ==> |g.rest| < |s|
    ensures g.Char? ==>
      |s| >= 2 && g.rest == s[2..] && Continuation(At(s, 1)) && 0x80 <= g.ch == Value2(At(s, 0), At(s, 1))
  {
    if !Continuation(At(s, 1)) then Eof(s[1..])
    else if Value2(At(s, 0), At(s, 1)) < 0x80 then Eof(s[2..])
    else Char(Value2(At(s, 0), At(s, 1)), s[2..])
  }

  function Get3(s: CStr): (g: Got)
    requires 0xe0 <= At(s, 0) < 0xf0
    ensures !g.Utf16?
    ensures g.Eof? ==> |g.rest| < |s|
    ensures g.Char? ==>
      && |s| >= 3 && g.rest == s[3..] && Continuation(At(s, 1)) && Continuation(At(s, 2))
      && 0x800 <= g.ch == Value3(At(s, 0), At(s, 1), At(s, 2))
  {
    if !Continuation(At(s, 1)) || !Continuation(At(s, 2)) then Eof(s[1..])
    else if Value3(At(s, 0), At(s, 1), At(s, 2)) < 0x800 then Eof(s[3..])
    else Char(Value3(At(s, 0), At(s, 1), At(s, 2)), s[3..])
  }

  function Get4(s: CStr): (g: Got)
    requires 0xf0 <= At(s, 0) < 0xf8
    ensures !g.Utf16?
    ensures g.Eof? ==> |g.rest| < |s|
    ensures g.Char? ==>
      && |s| >= 4 && g.rest == s[4..]
      && Continuation(At(s, 1)) && Continuation(At(s, 2)) && Continuation(At(s, 3))
      && 0x10000 <= g.ch == Value4(At(s, 0), At(s, 1), At(s, 2), At(s, 3))
  {
    if !Continuation(At(s, 1)) || !Continuation(At(s, 2)) || !Continuation(At(s, 3)) then Eof(s[1..])
    else if Value4(At(s, 0), At(s, 1), At(s, 2), At(s, 3)) < 0x10000 then Eof(s[4..])
    else Char(Value4(At(s, 0), At(s, 1), At(s, 2), At(s, 3)), s[4..])
  }

  /** The string reader in its UTF-8 state. */
  function Getc(s: CStr): (g: Got)
    ensures !g.Utf16? ==> |g.rest| <= |s|
    ensures g.Char? ==> |g.rest| < |s| && Accepted(g.ch)
  {
    if s == [] then Eof(s)
    else
      var c := s[0] as int;
      if c < 0x80 then
        if BadChar(c) then Eof(s[1..]) else Char(c, s[1..])
      else if c == 0xfe then
        if At(s, 1) != 0xff then Eof(s[1..]) else Utf16
      else if c == 0xff then
        if At(s, 1) != 0xfe then Eof(s[1..]) else Utf16
      else if 0xc0 <= c < 0xe0 then Get2(s)
      else if 0xe0 <= c < 0xf0 then
        var g := Get3(s);
        if g.Char? && g.ch == 0xfeff then Getc(g.rest) else g
      else if 0xf0 <= c < 0xf8 then Get4(s)
      else Eof(s[1..])
  }

  function ByteOf(n: int): (b: Byte)
    requires 0 < n < 256
    ensures b as int == n
  {
    n as char
  }

  /** The bytes that the growing buffer receives for one character. The leading byte of the last form
      keeps only eight bits of the shifted value. */
  function Encode(ch: int): (r: CStr)
    requires !BadChar(ch)
    ensures 1 <= |r| <= 4
    ensures ch < 0x80 ==> |r| == 1 && r[0] as int == ch
    ensures ch >= 0x80 ==> forall i | 0 <= i < |r| :: r[i] as int >= 0x80
  {
    if ch < 0x80 then [ByteOf(ch)]
    else if ch < 0x800 then [ByteOf(0xc0 + ch / 64), ByteOf(0x80 + ch % 64)]
    else if ch < 0x10000 then
      [ByteOf(0xe0 + ch / 64 / 64), ByteOf(0x80 + ch / 64 % 64), ByteOf(0x80 + ch % 64)]
    else
      [ByteOf(0xf0 + ch / 64 / 64 / 64 % 16), ByteOf(0x80 + ch / 64 / 64 % 64),
       ByteOf(0x80 + ch / 64 % 64), ByteOf(0x80 + ch % 64)]
  }

  /** Decoding inverts encoding for every code point that the reader accepts. */
  lemma GetcEncode(ch: int, rest: CStr)
    requires Accepted(ch)
    ensures Getc(Encode(ch) + rest) == Char(ch, rest)
  {
    var e := Encode(ch);
    var s := e + rest;
    assert s[|e|..] == rest;
    assert forall i | 0 <= i < |e| :: At(s, i) == e[i] as int;
    if ch < 0x80 {
    } else if ch < 0x800 {
      assert Value2(At(s, 0), At(s, 1)) == ch;
    } else if ch < 0x10000 {
      assert Value3(At(s, 0), At(s, 1), At(s, 2)) == ch;
    } else {
      assert ch / 64 / 64 / 64 < 8;
      assert Value4(At(s, 0), At(s, 1), At(s, 2), At(s, 3)) == ch;
    }
  }

  lemma EncodeValue2(b0: int, b1: int)
    requires 0xc0 <= b0 < 0xe0 && Continuation(b1) && Value2(b0, b1) >= 0x80
    ensures Encode(Value2(b0, b1)) == [ByteOf(b0), ByteOf(b1)]
  {
  }

  lemma EncodeValue3(b0: int, b1: int, b2: int)
    requires 0xe0 <= b0 < 0xf0 && Continuation(b1) && Continuation(b2) && Value3(b0, b1, b2) >= 0x800
    ensures Encode(Value3(b0, b1, b2)) == [ByteOf(b0), ByteOf(b1), ByteOf(b2)]
  {
    var ch := Value3(b0, b1, b2);
    assert ch / 64 == (b0 - 0xe0) * 64 + (b1 - 0x80);
    assert ch / 64 / 64 == b0 - 0xe0;
  }

  lemma EncodeValue4(b0: int, b1: int, b2: int, b3: int)
    requires 0xf0 <= b0 < 0xf8 && Continuation(b1) && Continuation(b2) && Continuation(b3)
    requires Value4(b0, b1, b2, b3) >= 0x10000
    ensures Encode(Value4(b0, b1, b2, b3)) == [ByteOf(b0), ByteOf(b1), ByteOf(b2), ByteOf(b3)]
  {
    var ch := Value4(b0, b1, b2, b3);
    assert ch / 64 == ((b0 - 0xf0) * 64 + (b1 - 0x80)) * 64 + (b2 - 0x80);
    assert ch / 64 / 64 == (b0 - 0xf0) * 64 + (b1 - 0x80);
    assert ch / 64 / 64 / 64 == b0 - 0xf0;
  }

  predicate StartsWithBom(s: CStr) {
    At(s, 0) == 0xef && At(s, 1) == 0xbb && At(s, 2) == 0xbf
  }

  lemma BomIsFeff(b0: int, b1: int, b2: int)
    requires 0xe0 <= b0 < 0xf0 && Continuation(b1) && Continuation(b2)
    ensures Value3(b0, b1, b2) == 0xfeff <==> b0 == 0xef && b1 == 0xbb && b2 == 0xbf
  {
  }

  /** A delivered code point was spelled by exactly its own encoding unless byte order marks came
      first: no other byte sequence, an overlong form say, decodes to it. */
  lemma EncodeGetc(s: CStr)
    requires Getc(s).Char? && !StartsWithBom(s)
    ensures s == Encode(Getc(s).ch) + Getc(s).rest
  {
    var c := s[0] as int;
    var b1, b2, b3 := At(s, 1), At(s, 2), At(s, 3);
    if c < 0x80 {
      assert s == [s[0]] + s[1..];
    } else if c < 0xe0 {
      EncodeValue2(c, b1);
      assert s == [s[0], s[1]] + s[2..];
    } else if c < 0xf0 {
      EncodeValue3(c, b1, b2);
      BomIsFeff(c, b1, b2);
      assert s == [s[0], s[1], s[2]] + s[3..];
    } else {
      EncodeValue4(c, b1, b2, b3);
      assert s == [s[0], s[1], s[2], s[3]] + s[4..];
    }
  }

  /** A leading byte order mark is skipped. */
  lemma GetcBom(s: CStr)
    requires StartsWithBom(s)
    ensures |s| >= 3 && Getc(s) == Getc(s[3..])
  {
    BomIsFeff(At(s, 0), At(s, 1), At(s, 2));
  }

  /** The length of a sequence, told by its leading byte. */
  function Width(lead: int): nat {
    if lead < 0x80 then 1 else if lead < 0xe0 then 2 else if lead < 0xf0 then 3 else 4
  }

  lemma Getc3(s: CStr)
    requires Getc(s).Char? && !StartsWithBom(s) && 0xe0 <= At(s, 0) < 0xf0
    ensures Getc(s) == Get3(s)
  {
    if Get3(s).Char? {
      BomIsFeff(At(s, 0), At(s, 1), At(s, 2));
    }
  }

  lemma GetcWidth(s: CStr)
    requires Getc(s).Char? && !StartsWithBom(s)
    ensures Width(At(s, 0)) <= |s| && Getc(s).rest == s[Width(At(s, 0))..]
  {
    var c := At(s, 0);
    if c < 0x80 {
    } else if c < 0xe0 {
      assert Getc(s) == Get2(s);
    } else if c < 0xf0 {
      Getc3(s);
    } else {
      assert Getc(s) == Get4(s);
    }
  }

  lemma GetcLed(s: CStr)
    requires Getc(s).Char? && !StartsWithBom(s) && At(s, 0) >= 0x80
    ensures forall i | 0 <= i < Width(At(s, 0)) :: At(s, i) >= 0x80
  {
    var c := At(s, 0);
    if c < 0xe0 {
      assert Getc(s) == Get2(s);
    } else if c < 0xf0 {
      Getc3(s);
    } else {
      assert Getc(s) == Get4(s);
    }
  }
}
