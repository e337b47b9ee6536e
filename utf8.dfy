/**
 * Rust `String` values as the UTF-8 bytes they are made of: `as_bytes` is Encode,
 * `String::from_utf8` is Decode (which rejects every ill-formed sequence, as the
 * well-formed table of the Unicode standard, section 3.9, demands).
 */
module Utf8 {
  import opened Wrappers
  import opened Bytes

  predicate IsAscii(c: char) {
    c as int < 0x80
  }

  predicate AllAscii(s: string) {
    forall i :: 0 <= i < |s| ==> IsAscii(s[i])
  }

  /** The one to four bytes of a scalar value. */
  function EncodeChar(c: char): (r: seq<byte>)
    ensures 1 <= |r| <= 4
    ensures |r| == 1 <==> IsAscii(c)
    ensures IsAscii(c) ==> r == [c as int]
    ensures !IsAscii(c) ==> forall i :: 0 <= i < |r| ==> r[i] >= 0x80
  {
    var cp := c as int;
    if cp < 0x80 then [cp]
    else if cp < 0x800 then [0xC0 + cp / 0x40, 0x80 + cp % 0x40]
    else if cp < 0x1_0000 then [0xE0 + cp / 0x1000, 0x80 + (cp / 0x40) % 0x40, 0x80 + cp % 0x40]
    else [0xF0 + cp / 0x4_0000, 0x80 + (cp / 0x1000) % 0x40, 0x80 + (cp / 0x40) % 0x40, 0x80 + cp % 0x40]
  }

  /** `str::as_bytes`. */
  function Encode(s: string): (r: seq<byte>)
    ensures |r| >= |s|
  {
    if s == [] then [] else EncodeChar(s[0]) + Encode(s[1..])
  }

  predicate IsCont(b: byte) {
    0x80 <= b < 0xC0
  }

  /** Lower and upper bound of the second byte after lead byte `b0`. */
  function SecondLo(b0: byte): byte {
    if b0 == 0xE0 then 0xA0 else if b0 == 0xF0 then 0x90 else 0x80
  }

  function SecondHi(b0: byte): byte {
    if b0 == 0xED then 0x9F else if b0 == 0xF4 then 0x8F else 0xBF
  }

  /** Number of bytes a sequence led by `b0` has, 0 for a byte that cannot lead. */
  function LeadWidth(b0: byte): nat {
    if b0 < 0x80 then 1
    else if 0xC2 <= b0 <= 0xDF then 2
    else if 0xE0 <= b0 <= 0xEF then 3
    else if 0xF0 <= b0 <= 0xF4 then 4
    else 0
  }

  /** The first scalar value of `b` and how many bytes it takes, when `b` starts well-formed. */
  function DecodeFirst(b: seq<byte>): Option<(char, nat)>
    requires |b| > 0
  {
    var w := LeadWidth(b[0]);
    if w == 0 || |b| < w then None
    else if w == 1 then Some((b[0] as char, 1))
    else if !(SecondLo(b[0]) <= b[1] <= SecondHi(b[0])) then None
    else if w == 2 then
      Some((Scalar2(b[0], b[1]) as char, 2))
    else if !IsCont(b[2]) then None
    else if w == 3 then
      Some((Scalar3(b[0], b[1], b[2]) as char, 3))
    else if !IsCont(b[3]) then None
    else
      Some((Scalar4(b[0], b[1], b[2], b[3]) as char, 4))
  }

  function Scalar2(b0: int, b1: int): int {
    (b0 - 0xC0) * 0x40 + (b1 - 0x80)
  }

  function Scalar3(b0: int, b1: int, b2: int): int {
    (b0 - 0xE0) * 0x1000 + (b1 - 0x80) * 0x40 + (b2 - 0x80)
  }

  function Scalar4(b0: int, b1: int, b2: int, b3: int): int {
    (b0 - 0xF0) * 0x4_0000 + (b1 - 0x80) * 0x1000 + (b2 - 0x80) * 0x40 + (b3 - 0x80)
  }

  lemma DecodeFirstWidth(b: seq<byte>)
    requires |b| > 0 && DecodeFirst(b).Some?
    ensures 1 <= DecodeFirst(b).value.1 <= |b|
  {
  }

  /** `String::from_utf8`: the text when every byte is part of a well-formed sequence. */
  function Decode(b: seq<byte>): Option<string>
    decreases |b|
  {
    if b == [] then Some([])
    else match DecodeFirst(b)
      case None => None
      case Some((c, n)) =>
        DecodeFirstWidth(b);
        match Decode(b[n..])
        case None => None
        case Some(rest) => Some([c] + rest)
  }

  predicate Valid(b: seq<byte>) {
    Decode(b).Some?
  }

  lemma DecodeFirstOfEncodeChar(c: char, rest: seq<byte>)
    ensures DecodeFirst(EncodeChar(c) + rest) == Some((c, |EncodeChar(c)|))
  {
    var cp := c as int;
    var b := EncodeChar(c) + rest;
    if cp < 0x80 {
    } else if cp < 0x800 {
      DecodeFirst2(cp, b);
    } else if cp < 0x1_0000 {
      DecodeFirst3(cp, b);
    } else {
      DecodeFirst4(cp, b);
    }
  }

  lemma DecodeFirst2(cp: int, b: seq<byte>)
    requires 0x80 <= cp < 0x800 && |b| >= 2
    requires b[0] == 0xC0 + cp / 0x40 && b[1] == 0x80 + cp % 0x40
    ensures LeadWidth(b[0]) == 2 && SecondLo(b[0]) <= b[1] <= SecondHi(b[0])
    ensures Scalar2(b[0], b[1]) == cp
  {
  }

  lemma DecodeFirst3(cp: int, b: seq<byte>)
    requires 0x800 <= cp < 0x1_0000 && !(0xD800 <= cp < 0xE000) && |b| >= 3
    requires b[0] == 0xE0 + cp / 0x1000 && b[1] == 0x80 + (cp / 0x40) % 0x40 && b[2] == 0x80 + cp % 0x40
    ensures LeadWidth(b[0]) == 3 && SecondLo(b[0]) <= b[1] <= SecondHi(b[0]) && IsCont(b[2])
    ensures Scalar3(b[0], b[1], b[2]) == cp
  {
    assert cp / 0x1000 == (cp / 0x40) / 0x40;
  }

  lemma DecodeFirst4(cp: int, b: seq<byte>)
    requires 0x1_0000 <= cp < 0x11_0000 && |b| >= 4
    requires b[0] == 0xF0 + cp / 0x4_0000 && b[1] == 0x80 + (cp / 0x1000) % 0x40
    requires b[2] == 0x80 + (cp / 0x40) % 0x40 && b[3] == 0x80 + cp % 0x40
    ensures LeadWidth(b[0]) == 4 && SecondLo(b[0]) <= b[1] <= SecondHi(b[0]) && IsCont(b[2]) && IsCont(b[3])
    ensures Scalar4(b[0], b[1], b[2], b[3]) == cp
  {
    assert cp / 0x1000 == (cp / 0x40) / 0x40;
    assert cp / 0x4_0000 == (cp / 0x1000) / 0x40;
  }

  /** Round trip: the bytes of any text decode back to that text. */
  lemma {:induction false} DecodeEncode(s: string)
    ensures Decode(Encode(s)) == Some(s)
  {
    if s != [] {
      var e := EncodeChar(s[0]);
      DecodeFirstOfEncodeChar(s[0], Encode(s[1..]));
      assert (e + Encode(s[1..]))[|e|..] == Encode(s[1..]);
      DecodeEncode(s[1..]);
      assert [s[0]] + s[1..] == s;
    }
  }

  lemma {:induction false} EncodeConcat(s: string, t: string)
    ensures Encode(s + t) == Encode(s) + Encode(t)
  {
    if s != [] {
      assert (s + t)[0] == s[0] && (s + t)[1..] == s[1..] + t;
      EncodeConcat(s[1..], t);
    } else {
      assert s + t == t;
    }
  }

  /** An ASCII byte occurs in the encoding exactly where its character occurs in the text. */
  lemma {:induction false} AsciiByteInEncode(s: string, x: byte)
    requires x < 0x80
    ensures x in Encode(s) <==> (x as char) in s
  {
    if s != [] {
      AsciiByteInEncode(s[1..], x);
      assert s == [s[0]] + s[1..];
      assert x in EncodeChar(s[0]) <==> s[0] == x as char;
    }
  }

  /** For ASCII text, bytes and characters coincide. */
  lemma {:induction false} EncodeAscii(s: string)
    requires AllAscii(s)
    ensures |Encode(s)| == |s|
    ensures forall i :: 0 <= i < |s| ==> Encode(s)[i] == s[i] as int
  {
    if s != [] {
      EncodeAscii(s[1..]);
    }
  }

  lemma EncodeScalar2(b0: byte, b1: byte)
    requires 0xC2 <= b0 <= 0xDF && IsCont(b1)
    ensures 0x80 <= Scalar2(b0, b1) < 0x800
    ensures EncodeChar(Scalar2(b0, b1) as char) == [b0, b1]
  {
    var cp := Scalar2(b0, b1);
    assert cp / 0x40 == b0 - 0xC0 && cp % 0x40 == b1 - 0x80;
  }

  lemma EncodeScalar3(b0: byte, b1: byte, b2: byte)
    requires 0xE0 <= b0 <= 0xEF && SecondLo(b0) <= b1 <= SecondHi(b0) && IsCont(b2)
    ensures 0x800 <= Scalar3(b0, b1, b2) < 0x1_0000
    ensures !(0xD800 <= Scalar3(b0, b1, b2) < 0xE000)
    ensures EncodeChar(Scalar3(b0, b1, b2) as char) == [b0, b1, b2]
  {
    var cp := Scalar3(b0, b1, b2);
    var q := cp / 0x40;
    assert q == (b0 - 0xE0) * 0x40 + (b1 - 0x80) && cp % 0x40 == b2 - 0x80;
    assert q / 0x40 == b0 - 0xE0 && q % 0x40 == b1 - 0x80;
    assert cp / 0x1000 == q / 0x40;
  }

  lemma EncodeScalar4(b0: byte, b1: byte, b2: byte, b3: byte)
    requires 0xF0 <= b0 <= 0xF4 && SecondLo(b0) <= b1 <= SecondHi(b0) && IsCont(b2) && IsCont(b3)
    ensures 0x1_0000 <= Scalar4(b0, b1, b2, b3) < 0x11_0000
    ensures EncodeChar(Scalar4(b0, b1, b2, b3) as char) == [b0, b1, b2, b3]
  {
    var cp := Scalar4(b0, b1, b2, b3);
    var q := cp / 0x40;
    var q2 := q / 0x40;
    assert q == (b0 - 0xF0) * 0x1000 + (b1 - 0x80) * 0x40 + (b2 - 0x80) && cp % 0x40 == b3 - 0x80;
    assert q2 == (b0 - 0xF0) * 0x40 + (b1 - 0x80) && q % 0x40 == b2 - 0x80;
    assert q2 / 0x40 == b0 - 0xF0 && q2 % 0x40 == b1 - 0x80;
    assert cp / 0x1000 == q2;
    assert cp / 0x4_0000 == q2 / 0x40;
  }

  /** The bytes the first decoded scalar value came from are its encoding. */
  lemma EncodeCharOfDecodeFirst(b: seq<byte>)
    requires |b| > 0 && DecodeFirst(b).Some?
    ensures DecodeFirst(b).value.1 <= |b|
    ensures b[..DecodeFirst(b).value.1] == EncodeChar(DecodeFirst(b).value.0)
  {
    var w := LeadWidth(b[0]);
    if w == 2 {
      EncodeScalar2(b[0], b[1]);
    } else if w == 3 {
      EncodeScalar3(b[0], b[1], b[2]);
    } else if w == 4 {
      EncodeScalar4(b[0], b[1], b[2], b[3]);
    }
  }

  /** Round trip the other way: a decodable byte string is the encoding of its text. */
  lemma {:induction false} EncodeDecode(b: seq<byte>)
    requires Decode(b).Some?
    ensures Encode(Decode(b).value) == b
    decreases |b|
  {
    if b != [] {
      var (c, n) := DecodeFirst(b).value;
      DecodeFirstWidth(b);
      EncodeCharOfDecodeFirst(b);
      EncodeDecode(b[n..]);
      var s := Decode(b).value;
      assert s[0] == c && s[1..] == Decode(b[n..]).value;
      assert b == b[..n] + b[n..];
    }
  }
}
