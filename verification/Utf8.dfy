/** UTF-8 as RFC 3629 defines it: the encoding of section 3 and the byte grammar of section 4, and the
    proof that they describe the same strings.

    Bytes and code points are numbers: the low six bits of one are its remainder by 0x40 and the others its
    quotient, and a byte is known by its high bits exactly when it lies in a range, from which it counts. */
module Utf8 {
  import opened Common

  type Byte = b: int | 0 <= b < 0x100

  type CodePoint = nat

  predicate Scalar(cp: CodePoint) {
    cp <= 0x10FFFF && !(0xD800 <= cp < 0xE000)
  }

  predicate Scalars(cps: seq<CodePoint>) {
    forall i :: 0 <= i < |cps| ==> Scalar(cps[i])
  }

  /** A byte after the first of a character. */
  predicate Tail(b: Byte) {
    0x80 <= b <= 0xBF
  }

  /** Six bits taken off the end of a number, as a later byte of a character, and put back. */
  function Later(bits: nat): Byte {
    0x80 + bits % 0x40
  }

  function Push(bits: nat, b: Byte): nat
    requires Tail(b)
  {
    bits * 0x40 + (b - 0x80)
  }

  lemma PushLater(bits: nat)
    ensures Push(bits / 0x40, Later(bits)) == bits
  {
  }

  lemma LaterPush(bits: nat, b: Byte)
    requires Tail(b)
    ensures Push(bits, b) / 0x40 == bits && Later(Push(bits, b)) == b
  {
  }

  /** The bytes of one code point, by the table of section 3. */
  function Encode(cp: CodePoint): (s: seq<Byte>)
    requires Scalar(cp)
    ensures 1 <= |s| <= 4
  {
    if cp < 0x80 then [cp]
    else if cp < 0x800 then [0xC0 + cp / 0x40, Later(cp)]
    else if cp < 0x10000 then [0xE0 + cp / 0x40 / 0x40, Later(cp / 0x40), Later(cp)]
    else [0xF0 + cp / 0x40 / 0x40 / 0x40, Later(cp / 0x40 / 0x40), Later(cp / 0x40), Later(cp)]
  }

  function EncodeAll(cps: seq<CodePoint>): seq<Byte>
    requires Scalars(cps)
  {
    if cps == [] then [] else Encode(cps[0]) + EncodeAll(cps[1..])
  }

  /** The length of the well-formed character that starts `s`, by the grammar of section 4; 0 if `s`
      does not start with one. */
  function CharLength(s: seq<Byte>): (n: nat)
    ensures n <= |s| && n <= 4
  {
    if |s| >= 1 && s[0] <= 0x7F then 1
    else if |s| >= 2 && 0xC2 <= s[0] <= 0xDF && Tail(s[1]) then 2
    else if |s| >= 3 && 0xE0 <= s[0] <= 0xEF && Tail(s[1]) && Tail(s[2]) &&
            (s[0] == 0xE0 ==> s[1] >= 0xA0) && (s[0] == 0xED ==> s[1] <= 0x9F) then 3
    else if |s| >= 4 && 0xF0 <= s[0] <= 0xF4 && Tail(s[1]) && Tail(s[2]) && Tail(s[3]) &&
            (s[0] == 0xF0 ==> s[1] >= 0x90) && (s[0] == 0xF4 ==> s[1] <= 0x8F) then 4
    else 0
  }

  predicate WellFormed(s: seq<Byte>)
    decreases |s|
  {
    s == [] || (var n := CharLength(s); n > 0 && WellFormed(s[n..]))
  }

  /** The code point of the well-formed character that starts `s`. */
  function Decode(s: seq<Byte>): CodePoint
    requires CharLength(s) > 0
  {
    var n := CharLength(s);
    if n == 1 then s[0]
    else if n == 2 then Push(s[0] - 0xC0, s[1])
    else if n == 3 then Push(Push(s[0] - 0xE0, s[1]), s[2])
    else Push(Push(Push(s[0] - 0xF0, s[1]), s[2]), s[3])
  }

  function CodePoints(s: seq<Byte>): seq<CodePoint>
    requires WellFormed(s)
    decreases |s|
  {
    if s == [] then [] else [Decode(s)] + CodePoints(s[CharLength(s)..])
  }

  // The forms of two, three and four bytes, each on its own.

  lemma TwoBytes(a: Byte, b: Byte)
    requires 0xC2 <= a <= 0xDF && Tail(b)
    ensures var cp := Push(a - 0xC0, b); 0x80 <= cp < 0x800 && 0xC0 + cp / 0x40 == a && Later(cp) == b
  {
    LaterPush(a - 0xC0, b);
  }

  lemma ThreeBytes(a: Byte, b: Byte, c: Byte)
    requires 0xE0 <= a <= 0xEF && Tail(b) && Tail(c) && (a == 0xE0 ==> b >= 0xA0) && (a == 0xED ==> b <= 0x9F)
    ensures var cp := Push(Push(a - 0xE0, b), c);
            0x800 <= cp < 0x10000 && Scalar(cp) &&
            0xE0 + cp / 0x40 / 0x40 == a && Later(cp / 0x40) == b && Later(cp) == c
  {
    var high := a - 0xE0;
    LaterPush(high, b);
    LaterPush(Push(high, b), c);
  }

  lemma FourBytes(a: Byte, b: Byte, c: Byte, d: Byte)
    requires 0xF0 <= a <= 0xF4 && Tail(b) && Tail(c) && Tail(d)
    requires (a == 0xF0 ==> b >= 0x90) && (a == 0xF4 ==> b <= 0x8F)
    ensures var cp := Push(Push(Push(a - 0xF0, b), c), d);
            0x10000 <= cp <= 0x10FFFF && 0xF0 + cp / 0x40 / 0x40 / 0x40 == a &&
            Later(cp / 0x40 / 0x40) == b && Later(cp / 0x40) == c && Later(cp) == d
  {
    var high := a - 0xF0;
    LaterPush(high, b);
    LaterPush(Push(high, b), c);
    LaterPush(Push(Push(high, b), c), d);
  }

  lemma TwoByteForm(cp: CodePoint)
    requires 0x80 <= cp < 0x800
    ensures 0xC2 <= 0xC0 + cp / 0x40 <= 0xDF
  {
  }

  lemma ThreeByteForm(cp: CodePoint)
    requires 0x800 <= cp < 0x10000 && Scalar(cp)
    ensures var high := cp / 0x40 / 0x40;
            high <= 0x0F &&
            (high == 0 ==> Later(cp / 0x40) >= 0xA0) && (high == 0x0D ==> Later(cp / 0x40) <= 0x9F)
  {
  }

  lemma FourByteForm(cp: CodePoint)
    requires 0x10000 <= cp <= 0x10FFFF
    ensures var high := cp / 0x40 / 0x40 / 0x40;
            high <= 4 &&
            (high == 0 ==> Later(cp / 0x40 / 0x40) >= 0x90) && (high == 4 ==> Later(cp / 0x40 / 0x40) <= 0x8F)
  {
  }

  lemma EncodeJoined2(a: Byte, b: Byte)
    requires 0xC2 <= a <= 0xDF && Tail(b)
    ensures Encode(Push(a - 0xC0, b)) == [a, b]
  {
    TwoBytes(a, b);
  }

  lemma EncodeJoined3(a: Byte, b: Byte, c: Byte)
    requires 0xE0 <= a <= 0xEF && Tail(b) && Tail(c) && (a == 0xE0 ==> b >= 0xA0) && (a == 0xED ==> b <= 0x9F)
    ensures var cp := Push(Push(a - 0xE0, b), c); Scalar(cp) && Encode(cp) == [a, b, c]
  {
    ThreeBytes(a, b, c);
  }

  lemma EncodeJoined4(a: Byte, b: Byte, c: Byte, d: Byte)
    requires 0xF0 <= a <= 0xF4 && Tail(b) && Tail(c) && Tail(d)
    requires (a == 0xF0 ==> b >= 0x90) && (a == 0xF4 ==> b <= 0x8F)
    ensures var cp := Push(Push(Push(a - 0xF0, b), c), d); Scalar(cp) && Encode(cp) == [a, b, c, d]
  {
    FourBytes(a, b, c, d);
  }

  /** A character decodes to a scalar value whose encoding it is. */
  lemma EncodeDecode(s: seq<Byte>)
    requires CharLength(s) > 0
    ensures Scalar(Decode(s)) && Encode(Decode(s)) == s[..CharLength(s)]
  {
    var n := CharLength(s);
    if n == 1 {
      assert Encode(s[0]) == [s[0]];
    } else if n == 2 {
      EncodeJoined2(s[0], s[1]);
      assert s[..n] == [s[0], s[1]];
    } else if n == 3 {
      EncodeJoined3(s[0], s[1], s[2]);
      assert s[..n] == [s[0], s[1], s[2]];
    } else {
      EncodeJoined4(s[0], s[1], s[2], s[3]);
      assert s[..n] == [s[0], s[1], s[2], s[3]];
    }
  }

  lemma DecodeEncode2(cp: CodePoint, rest: seq<Byte>)
    requires 0x80 <= cp < 0x800 && Scalar(cp)
    ensures CharLength(Encode(cp) + rest) == 2 && Decode(Encode(cp) + rest) == cp
  {
    PushLater(cp);
    TwoByteForm(cp);
  }

  lemma DecodeEncode3(cp: CodePoint, rest: seq<Byte>)
    requires 0x800 <= cp < 0x10000 && Scalar(cp)
    ensures CharLength(Encode(cp) + rest) == 3 && Decode(Encode(cp) + rest) == cp
  {
    PushLater(cp);
    PushLater(cp / 0x40);
    ThreeByteForm(cp);
  }

  lemma DecodeEncode4(cp: CodePoint, rest: seq<Byte>)
    requires 0x10000 <= cp <= 0x10FFFF && Scalar(cp)
    ensures CharLength(Encode(cp) + rest) == 4 && Decode(Encode(cp) + rest) == cp
  {
    PushLater(cp);
    PushLater(cp / 0x40);
    PushLater(cp / 0x40 / 0x40);
    FourByteForm(cp);
  }

  /** The encoding of a scalar value is one character that decodes to it. */
  lemma DecodeEncode(cp: CodePoint, rest: seq<Byte>)
    requires Scalar(cp)
    ensures var s := Encode(cp) + rest;
            CharLength(s) == |Encode(cp)| && Decode(s) == cp && s[CharLength(s)..] == rest
  {
    if 0x80 <= cp < 0x800 {
      DecodeEncode2(cp, rest);
    } else if 0x800 <= cp < 0x10000 {
      DecodeEncode3(cp, rest);
    } else if 0x10000 <= cp {
      DecodeEncode4(cp, rest);
    }
  }

  /** Encoding makes well-formed text, and decoding it gives the code points back. */
  lemma {:induction false} CodePointsOfEncoding(cps: seq<CodePoint>)
    requires Scalars(cps)
    ensures WellFormed(EncodeAll(cps)) && CodePoints(EncodeAll(cps)) == cps
  {
    if cps != [] {
      DecodeEncode(cps[0], EncodeAll(cps[1..]));
      CodePointsOfEncoding(cps[1..]);
    }
  }

  /** Well-formed text is the encoding of its code points. */
  lemma {:induction false} EncodingOfCodePoints(s: seq<Byte>)
    requires WellFormed(s)
    ensures Scalars(CodePoints(s)) && EncodeAll(CodePoints(s)) == s
    decreases |s|
  {
    if s != [] {
      var n, cp := CharLength(s), Decode(s);
      EncodeDecode(s);
      EncodingOfCodePoints(s[n..]);
      var rest := CodePoints(s[n..]);
      var cps := [cp] + rest;
      assert CodePoints(s) == cps && cps[0] == cp && cps[1..] == rest;
      assert EncodeAll(cps) == Encode(cp) + EncodeAll(rest);
      assert s[..n] + s[n..] == s;
    }
  }

  lemma {:induction false} EncodeAllConcat(a: seq<CodePoint>, b: seq<CodePoint>)
    requires Scalars(a) && Scalars(b)
    ensures Scalars(a + b) && EncodeAll(a + b) == EncodeAll(a) + EncodeAll(b)
  {
    if a == [] {
      assert a + b == b;
    } else {
      var rest, all := a[1..], a + b;
      EncodeAllConcat(rest, b);
      assert all[0] == a[0] && all[1..] == rest + b;
      Regroup(Encode(a[0]), EncodeAll(rest), EncodeAll(b));
    }
  }

  /** What follows a character does not change it. */
  lemma CharacterIsSelfDelimiting(s: seq<Byte>, rest: seq<Byte>)
    requires CharLength(s) > 0
    ensures CharLength(s + rest) == CharLength(s) && Decode(s + rest) == Decode(s)
  {
    var t := s + rest;
    assert forall i :: 0 <= i < |s| ==> t[i] == s[i];
  }
}
