/**
 * `bytes.decode()` with its default codec: strict UTF-8, as the well-formed
 * byte sequences of Table 3-7 of the Unicode Standard (chapter 3, section 3.9)
 * define it. Ill-formed input raises UnicodeDecodeError.
 */
module Utf8 {
  import opened Wrappers
  import Text

  newtype byte = x: int | 0 <= x < 256

  /** A continuation byte, 80..BF. */
  predicate Cont(b: byte)
  {
    0x80 <= b <= 0xBF
  }

  /**
   * The length of the well-formed sequence at the start of `s`, or 0 when
   * `s` does not start with one.
   */
  function SeqLength(s: seq<byte>): (n: nat)
    ensures n <= |s| && n <= 4
    ensures s != [] && s[0] <= 0x7F ==> n == 1
  {
    if s == [] then 0
    else if s[0] <= 0x7F then 1
    else if 0xC2 <= s[0] <= 0xDF then
      if |s| >= 2 && Cont(s[1]) then 2 else 0
    else if s[0] == 0xE0 then
      if |s| >= 3 && 0xA0 <= s[1] <= 0xBF && Cont(s[2]) then 3 else 0
    else if (0xE1 <= s[0] <= 0xEC) || (0xEE <= s[0] <= 0xEF) then
      if |s| >= 3 && Cont(s[1]) && Cont(s[2]) then 3 else 0
    else if s[0] == 0xED then
      if |s| >= 3 && 0x80 <= s[1] <= 0x9F && Cont(s[2]) then 3 else 0
    else if s[0] == 0xF0 then
      if |s| >= 4 && 0x90 <= s[1] <= 0xBF && Cont(s[2]) && Cont(s[3]) then 4 else 0
    else if 0xF1 <= s[0] <= 0xF3 then
      if |s| >= 4 && Cont(s[1]) && Cont(s[2]) && Cont(s[3]) then 4 else 0
    else if s[0] == 0xF4 then
      if |s| >= 4 && 0x80 <= s[1] <= 0x8F && Cont(s[2]) && Cont(s[3]) then 4 else 0
    else 0
  }

  /** A Unicode scalar value, which is what a `char` holds. */
  predicate IsScalar(cp: int)
  {
    (0 <= cp < 0xD800) || (0xE000 <= cp < 0x11_0000)
  }

  /** The scalar value of the well-formed sequence at the start of `s`. */
  function ScalarAt(s: seq<byte>): (cp: int)
    requires SeqLength(s) > 0
    ensures IsScalar(cp)
  {
    var n := SeqLength(s);
    if n == 1 then s[0] as int
    else if n == 2 then (s[0] as int - 0xC0) * 64 + (s[1] as int - 0x80)
    else if n == 3 then (s[0] as int - 0xE0) * 4096 + (s[1] as int - 0x80) * 64 + (s[2] as int - 0x80)
    else (s[0] as int - 0xF0) * 262144 + (s[1] as int - 0x80) * 4096 + (s[2] as int - 0x80) * 64 + (s[3] as int - 0x80)
  }

  /**
   * Decodes `s`, whose first byte stands at `pos` of the whole message; a
   * failure gives the position of the first byte that does not start a
   * well-formed sequence.
   */
  function DecodeFrom(s: seq<byte>, pos: nat): (r: Result<string, nat>)
    ensures r.Failure? ==> pos <= r.error < pos + |s|
    decreases |s|
  {
    if s == [] then Success([])
    else if SeqLength(s) == 0 then Failure(pos)
    else
      var n := SeqLength(s);
      match DecodeFrom(s[n..], pos + n)
      case Success(rest) => Success([ScalarAt(s) as char] + rest)
      case Failure(p) => Failure(p)
  }

  /** Decoding never yields more characters than bytes, and copies ASCII bytes one for one. */
  lemma {:induction false} DecodeFromLength(s: seq<byte>, pos: nat)
    ensures DecodeFrom(s, pos).Success? ==> |DecodeFrom(s, pos).value| <= |s|
    ensures Ascii(s) ==> DecodeFrom(s, pos).Success? && |DecodeFrom(s, pos).value| == |s| &&
                         forall i :: 0 <= i < |s| ==> DecodeFrom(s, pos).value[i] == s[i] as char
    decreases |s|
  {
    if s != [] && SeqLength(s) > 0 {
      var n := SeqLength(s);
      DecodeFromLength(s[n..], pos + n);
      if Ascii(s) {
        AsciiHead(s, pos);
      }
    }
  }

  /** An ASCII message decodes its first byte alone, and the rest is ASCII too. */
  lemma AsciiHead(s: seq<byte>, pos: nat)
    requires s != [] && Ascii(s)
    ensures SeqLength(s) == 1 && ScalarAt(s) == s[0] as int && Ascii(s[1..])
    ensures DecodeFrom(s[1..], pos + 1).Success? ==> DecodeFrom(s, pos) == Success([s[0] as char] + DecodeFrom(s[1..], pos + 1).value)
  {
  }

  /** The UnicodeDecodeError for the byte at `pos`. */
  function DecodeError(pos: nat): Exception
  {
    Exception("UnicodeDecodeError", "'utf-8' codec can't decode byte in position " + Text.NatToString(pos))
  }

  /** Every byte is below 80, so each one is a character of its own. */
  predicate Ascii(s: seq<byte>)
  {
    forall i :: 0 <= i < |s| ==> s[i] <= 0x7F
  }

  /**
   * `b.decode()`: at most one character per byte, ASCII bytes copied as
   * they are, and ill-formed input a UnicodeDecodeError at one of its
   * positions.
   */
  function Decode(s: seq<byte>): (r: Result<string, Exception>)
    ensures r.Success? ==> |r.value| <= |s|
    ensures Ascii(s) ==> r.Success? && |r.value| == |s| && forall i :: 0 <= i < |s| ==> r.value[i] == s[i] as char
    ensures r.Failure? ==> exists pos :: 0 <= pos < |s| && r.error == DecodeError(pos)
    ensures r.Success? ==> Encode(r.value) == s
  {
    DecodeFromLength(s, 0);
    EncodeDecodeFrom(s, 0);
    match DecodeFrom(s, 0)
    case Success(t) => Success(t)
    case Failure(pos) => Failure(DecodeError(pos))
  }

  /** The UTF-8 encoding of one character. */
  function EncodeChar(c: char): (b: seq<byte>)
    ensures 1 <= |b| <= 4
  {
    var cp := c as int;
    if cp < 0x80 then [cp as byte]
    else if cp < 0x800 then [(0xC0 + cp / 64) as byte, (0x80 + cp % 64) as byte]
    else if cp < 0x1_0000 then
      [(0xE0 + cp / 4096) as byte, (0x80 + (cp / 64) % 64) as byte, (0x80 + cp % 64) as byte]
    else
      [(0xF0 + cp / 262144) as byte, (0x80 + (cp / 4096) % 64) as byte,
       (0x80 + (cp / 64) % 64) as byte, (0x80 + cp % 64) as byte]
  }

  /** `s.encode()`. */
  function Encode(s: string): seq<byte>
  {
    if s == [] then [] else EncodeChar(s[0]) + Encode(s[1..])
  }

  /** The encoding of one character is one well-formed sequence holding that character. */
  lemma EncodeCharWellFormed(c: char, rest: seq<byte>)
    ensures SeqLength(EncodeChar(c) + rest) == |EncodeChar(c)|
    ensures ScalarAt(EncodeChar(c) + rest) == c as int
  {
    var cp := c as int;
    if cp < 0x80 {
    } else if cp < 0x800 {
      TwoBytes(c, rest);
    } else if cp < 0x1_0000 {
      ThreeBytes(c, rest);
    } else {
      FourBytes(c, rest);
    }
  }

  lemma TwoBytes(c: char, rest: seq<byte>)
    requires 0x80 <= c as int < 0x800
    ensures SeqLength(EncodeChar(c) + rest) == 2
    ensures ScalarAt(EncodeChar(c) + rest) == c as int
  {
    var cp := c as int;
    var q, r := cp / 64, cp % 64;
    assert cp == q * 64 + r && 0 <= r < 64 && 2 <= q < 32;
    var b := EncodeChar(c) + rest;
    assert b[0] as int == 0xC0 + q && b[1] as int == 0x80 + r;
  }

  lemma ThreeBytes(c: char, rest: seq<byte>)
    requires 0x800 <= c as int < 0x1_0000
    ensures SeqLength(EncodeChar(c) + rest) == 3
    ensures ScalarAt(EncodeChar(c) + rest) == c as int
  {
    var cp := c as int;
    var q, r := cp / 64, cp % 64;
    var q2, r2 := q / 64, q % 64;
    assert cp == q * 64 + r && 0 <= r < 64;
    assert q == q2 * 64 + r2 && 0 <= r2 < 64;
    assert cp / 4096 == q2;
    var b := EncodeChar(c) + rest;
    assert b[0] as int == 0xE0 + q2 && b[1] as int == 0x80 + r2 && b[2] as int == 0x80 + r;
    assert cp == q2 * 4096 + r2 * 64 + r;
    assert q2 == 0 ==> r2 >= 32;
    assert q2 == 13 ==> r2 < 32;
  }

  lemma FourBytes(c: char, rest: seq<byte>)
    requires 0x1_0000 <= c as int
    ensures SeqLength(EncodeChar(c) + rest) == 4
    ensures ScalarAt(EncodeChar(c) + rest) == c as int
  {
    var cp := c as int;
    assert cp < 0x11_0000;
    var q, r := cp / 64, cp % 64;
    var q2, r2 := q / 64, q % 64;
    var q3, r3 := q2 / 64, q2 % 64;
    assert cp == q * 64 + r && 0 <= r < 64;
    assert q == q2 * 64 + r2 && 0 <= r2 < 64;
    assert q2 == q3 * 64 + r3 && 0 <= r3 < 64;
    assert cp / 4096 == q2 && cp / 262144 == q3;
    var b := EncodeChar(c) + rest;
    assert b[0] as int == 0xF0 + q3 && b[1] as int == 0x80 + r3;
    assert b[2] as int == 0x80 + r2 && b[3] as int == 0x80 + r;
    assert cp == q3 * 262144 + r3 * 4096 + r2 * 64 + r;
    assert q3 == 0 ==> r3 >= 16;
    assert q3 == 4 ==> r3 < 16;
  }

  /** Decoding what encoding produced gives back the text. */
  lemma {:induction false} DecodeEncodeFrom(s: string, pos: nat)
    ensures DecodeFrom(Encode(s), pos) == Success(s)
  {
    if s != [] {
      DecodeEncodeFrom(s[1..], pos + |EncodeChar(s[0])|);
      EncodedHead(s, pos);
    }
  }

  /** When the rest of a string round-trips, so does the whole string. */
  lemma EncodedHead(s: string, pos: nat)
    requires s != []
    ensures DecodeFrom(Encode(s[1..]), pos + |EncodeChar(s[0])|) == Success(s[1..]) ==>
      DecodeFrom(Encode(s), pos) == Success(s)
  {
    var tail := Encode(s[1..]);
    EncodeCharWellFormed(s[0], tail);
    DecodeFirst(EncodeChar(s[0]), tail, pos);
    assert [s[0]] + s[1..] == s;
  }

  /** A well-formed sequence in front of `tail` decodes to its character in front of what `tail` decodes to. */
  lemma DecodeFirst(head: seq<byte>, tail: seq<byte>, pos: nat)
    requires 0 < |head| && SeqLength(head + tail) == |head|
    ensures DecodeFrom(tail, pos + |head|).Success? ==>
      DecodeFrom(head + tail, pos) == Success([ScalarAt(head + tail) as char] + DecodeFrom(tail, pos + |head|).value)
  {
    assert (head + tail)[|head|..] == tail;
  }

  /** A well-formed sequence is the encoding of the character it holds. */
  lemma EncodeScalar(s: seq<byte>)
    requires SeqLength(s) > 0
    ensures EncodeChar(ScalarAt(s) as char) == s[..SeqLength(s)]
  {
    var n := SeqLength(s);
    if n == 2 {
      TwoBytesBack(s);
    } else if n == 3 {
      ThreeBytesBack(s);
    } else if n == 4 {
      FourBytesBack(s);
    }
  }

  lemma TwoBytesBack(s: seq<byte>)
    requires SeqLength(s) == 2
    ensures EncodeChar(ScalarAt(s) as char) == s[..2]
  {
    var a, b := s[0] as int - 0xC0, s[1] as int - 0x80;
    assert 2 <= a < 32 && 0 <= b < 64;
    var cp := a * 64 + b;
    assert ScalarAt(s) == cp;
    assert cp / 64 == a && cp % 64 == b;
  }

  lemma ThreeBytesBack(s: seq<byte>)
    requires SeqLength(s) == 3
    ensures EncodeChar(ScalarAt(s) as char) == s[..3]
  {
    var a, b, d := s[0] as int - 0xE0, s[1] as int - 0x80, s[2] as int - 0x80;
    assert 0 <= a < 16 && 0 <= b < 64 && 0 <= d < 64;
    assert a == 0 ==> b >= 32;
    var cp := a * 4096 + b * 64 + d;
    assert ScalarAt(s) == cp;
    assert 0x800 <= cp < 0x1_0000;
    DivMod64(a * 64 + b, d);
    DivMod64(a, b);
    assert cp / 4096 == a by {
      assert cp == a * 4096 + (b * 64 + d) && 0 <= b * 64 + d < 4096;
    }
  }

  lemma FourBytesBack(s: seq<byte>)
    requires SeqLength(s) == 4
    ensures EncodeChar(ScalarAt(s) as char) == s[..4]
  {
    var a, b, d, e := s[0] as int - 0xF0, s[1] as int - 0x80, s[2] as int - 0x80, s[3] as int - 0x80;
    assert 0 <= a < 5 && 0 <= b < 64 && 0 <= d < 64 && 0 <= e < 64;
    assert a == 0 ==> b >= 16;
    var cp := a * 262144 + b * 4096 + d * 64 + e;
    assert ScalarAt(s) == cp;
    assert 0x1_0000 <= cp;
    DivMod64(a * 4096 + b * 64 + d, e);
    DivMod64(a * 64 + b, d);
    DivMod64(a, b);
    assert cp / 4096 == a * 64 + b by {
      assert cp == (a * 64 + b) * 4096 + (d * 64 + e) && 0 <= d * 64 + e < 4096;
    }
    assert cp / 262144 == a by {
      assert cp == a * 262144 + (b * 4096 + d * 64 + e) && 0 <= b * 4096 + d * 64 + e < 262144;
    }
  }

  /** Dividing `q * 64 + r` by 64 gives back `q` and `r`. */
  lemma DivMod64(q: int, r: int)
    requires 0 <= q && 0 <= r < 64
    ensures (q * 64 + r) / 64 == q && (q * 64 + r) % 64 == r
  {
  }

  /** Whatever decodes is the encoding of what it decodes to. */
  lemma {:induction false} EncodeDecodeFrom(s: seq<byte>, pos: nat)
    ensures DecodeFrom(s, pos).Success? ==> Encode(DecodeFrom(s, pos).value) == s
    decreases |s|
  {
    if s != [] && SeqLength(s) > 0 {
      EncodeDecodeFrom(s[SeqLength(s)..], pos + SeqLength(s));
      DecodedHead(s, pos);
    }
  }

  /** When the rest of the bytes re-encode, so do all of them. */
  lemma DecodedHead(s: seq<byte>, pos: nat)
    requires SeqLength(s) > 0
    ensures var n := SeqLength(s);
      DecodeFrom(s[n..], pos + n).Success? && Encode(DecodeFrom(s[n..], pos + n).value) == s[n..] ==>
        DecodeFrom(s, pos).Success? && Encode(DecodeFrom(s, pos).value) == s
  {
    var n := SeqLength(s);
    var rest := DecodeFrom(s[n..], pos + n);
    if rest.Success? {
      var c := ScalarAt(s) as char;
      assert DecodeFrom(s, pos) == Success([c] + rest.value);
      EncodeCons(c, rest.value);
      EncodeScalar(s);
      assert s[..n] + s[n..] == s;
    }
  }

  lemma EncodeCons(c: char, t: string)
    ensures Encode([c] + t) == EncodeChar(c) + Encode(t)
  {
    assert ([c] + t)[1..] == t;
  }

  /** Decoding undoes encoding: `s.encode().decode() == s`. */
  lemma DecodeEncode(s: string)
    ensures Decode(Encode(s)) == Success(s)
  {
    DecodeEncodeFrom(s, 0);
  }
}
