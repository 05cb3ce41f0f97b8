/** The validity check of `MessageText` against an encoder written from the definition of UTF-8 in section 3 of RFC 3629: a
    byte string is valid exactly if it encodes some text, and then only one. */
module Utf8 {
  import opened MessageText

  /** A `char` is a Unicode scalar value. */
  function EncodeChar(c: char): (r: Bytes)
    ensures 1 <= |r| <= 4
  {
    var n := c as int;
    if n < 0x80 then [n]
    else if n < 0x800 then [0xC0 + n / 64, 0x80 + n % 64]
    else if n < 0x1_0000 then [0xE0 + n / 4096, 0x80 + n / 64 % 64, 0x80 + n % 64]
    else [0xF0 + n / 262144, 0x80 + n / 4096 % 64, 0x80 + n / 64 % 64, 0x80 + n % 64]
  }

  function Encode(text: string): Bytes {
    if text == "" then [] else EncodeChar(text[0]) + Encode(text[1..])
  }

  /** An encoded character is one character, whatever follows it. */
  lemma EncodedIsRune(c: char, rest: Bytes)
    ensures RuneLength(EncodeChar(c) + rest) == |EncodeChar(c)|
  {
    var n, s := c as int, EncodeChar(c) + rest;
    if 0x800 <= n < 0x1_0000 {
      assert n / 4096 == 0 ==> n / 64 % 64 >= 32;
      assert n / 4096 == 13 ==> n / 64 % 64 < 32;
    } else if 0x1_0000 <= n {
      assert n / 262144 == 0 ==> n / 4096 % 64 >= 16;
      assert n / 262144 == 4 ==> n / 4096 % 64 < 16;
    }
  }

  lemma TwoBytes(a: int, b: int)
    requires 0 <= b < 64 && 2 <= a < 32
    ensures 0x80 <= a * 64 + b < 0x800
    ensures EncodeChar((a * 64 + b) as char) == [0xC0 + a, 0x80 + b]
  {
  }

  lemma ThreeBytes(a: int, b: int, d: int)
    requires 0 <= a < 16 && 0 <= b < 64 && 0 <= d < 64 && (a == 0 ==> b >= 32) && (a == 13 ==> b < 32)
    ensures var n := a * 4096 + b * 64 + d;
            && 0x800 <= n < 0x1_0000 && !(0xD800 <= n < 0xE000)
            && EncodeChar(n as char) == [0xE0 + a, 0x80 + b, 0x80 + d]
  {
    var n := a * 4096 + b * 64 + d;
    assert n / 64 == a * 64 + b && n % 64 == d;
  }

  lemma FourBytes(a: int, b: int, d: int, e: int)
    requires 0 <= a <= 4 && 0 <= b < 64 && 0 <= d < 64 && 0 <= e < 64 && (a == 0 ==> b >= 16) && (a == 4 ==> b < 16)
    ensures var n := a * 262144 + b * 4096 + d * 64 + e;
            && 0x1_0000 <= n < 0x11_0000
            && EncodeChar(n as char) == [0xF0 + a, 0x80 + b, 0x80 + d, 0x80 + e]
  {
    var n := a * 262144 + b * 4096 + d * 64 + e;
    assert n / 64 == a * 4096 + b * 64 + d && n % 64 == e;
    assert n / 4096 == a * 64 + b;
  }

  /** Every character the check accepts is the encoding of one. */
  lemma RuneIsEncoded(s: Bytes) returns (c: char)
    requires RuneLength(s) > 0
    ensures s[..RuneLength(s)] == EncodeChar(c)
  {
    var n, a: int := RuneLength(s), s[0];
    if n == 1 {
      c := a as char;
    } else if n == 2 {
      var b: int := s[1];
      TwoBytes(a - 0xC0, b - 0x80);
      c := ((a - 0xC0) * 64 + (b - 0x80)) as char;
    } else if n == 3 {
      var b: int, d: int := s[1], s[2];
      ThreeBytes(a - 0xE0, b - 0x80, d - 0x80);
      c := ((a - 0xE0) * 4096 + (b - 0x80) * 64 + (d - 0x80)) as char;
    } else {
      var b: int, d: int, e: int := s[1], s[2], s[3];
      FourBytes(a - 0xF0, b - 0x80, d - 0x80, e - 0x80);
      c := ((a - 0xF0) * 262144 + (b - 0x80) * 4096 + (d - 0x80) * 64 + (e - 0x80)) as char;
    }
  }

  lemma {:induction false} EncodedIsValid(text: string)
    ensures ValidUtf8(Encode(text))
  {
    if text != "" {
      hide RuneLength, EncodeChar;
      EncodedIsValid(text[1..]);
      EncodedIsRune(text[0], Encode(text[1..]));
      assert (EncodeChar(text[0]) + Encode(text[1..]))[|EncodeChar(text[0])|..] == Encode(text[1..]);
    }
  }

  lemma {:induction false} ValidIsEncoded(s: Bytes) returns (text: string)
    requires ValidUtf8(s)
    ensures s == Encode(text)
  {
    text := "";
    if s != [] {
      hide RuneLength, EncodeChar;
      var c := RuneIsEncoded(s);
      var rest := ValidIsEncoded(s[RuneLength(s)..]);
      text := [c] + rest;
      assert text[1..] == rest;
    }
  }

  /** Valid UTF-8 is what the encoder writes. */
  lemma ValidIff(s: Bytes)
    ensures ValidUtf8(s) <==> exists text :: s == Encode(text)
  {
    hide ValidUtf8, Encode;
    if ValidUtf8(s) {
      var text := ValidIsEncoded(s);
    }
    if text :| s == Encode(text) {
      EncodedIsValid(text);
    }
  }

  /** The payload bits of an encoded character, put together again. */
  function Payload(r: Bytes): int {
    match |r|
    case 1 => r[0]
    case 2 => var a: int, b: int := r[0], r[1]; (a - 0xC0) * 64 + (b - 0x80)
    case 3 => var a: int, b: int, d: int := r[0], r[1], r[2]; (a - 0xE0) * 4096 + (b - 0x80) * 64 + (d - 0x80)
    case 4 =>
      var a: int, b: int, d: int, e: int := r[0], r[1], r[2], r[3];
      (a - 0xF0) * 262144 + (b - 0x80) * 4096 + (d - 0x80) * 64 + (e - 0x80)
    case _ => 0
  }

  lemma PayloadOf(c: char)
    ensures Payload(EncodeChar(c)) == c as int
  {
    var n := c as int;
    if n < 0x80 {
    } else if n < 0x800 {
      assert n == n / 64 * 64 + n % 64;
    } else if n < 0x1_0000 {
      assert n / 64 == n / 4096 * 64 + n / 64 % 64;
    } else {
      assert n / 64 == n / 4096 * 64 + n / 64 % 64;
      assert n / 4096 == n / 262144 * 64 + n / 4096 % 64;
    }
  }

  /** No two texts are encoded alike. */
  lemma {:induction false} EncodeInjective(a: string, b: string)
    requires Encode(a) == Encode(b)
    ensures a == b
  {
    hide RuneLength, EncodeChar, Payload;
    if a != "" && b != "" {
      var x, y := EncodeChar(a[0]), EncodeChar(b[0]);
      EncodedIsRune(a[0], Encode(a[1..]));
      EncodedIsRune(b[0], Encode(b[1..]));
      assert x == Encode(a)[..|x|] && y == Encode(b)[..|y|];
      PayloadOf(a[0]);
      PayloadOf(b[0]);
      assert Encode(a[1..]) == Encode(a)[|x|..] && Encode(b[1..]) == Encode(b)[|y|..];
      EncodeInjective(a[1..], b[1..]);
    }
  }
}
