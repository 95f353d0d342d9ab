/** The text conversions of the clipboard, on the bytes of C strings. */
module ClipboardText {
  import opened Common
  import opened Utf8

  const CR: Byte := 0x0D

  const QUESTION_MARK: Byte := 0x3F

  const REPLACEMENT: CodePoint := 0xFFFD

  /** The C string at the start of `memory`: the bytes before the first NUL. */
  function CString(memory: seq<Byte>): (s: seq<Byte>)
    requires 0 in memory
    ensures |s| < |memory| && s == memory[..|s|] && memory[|s|] == 0 && 0 !in s
  {
    if memory[0] == 0 then [] else [memory[0]] + CString(memory[1..])
  }

  lemma CStringIs(buffer: seq<Byte>, s: seq<Byte>)
    requires |s| < |buffer| && buffer[..|s|] == s && buffer[|s|] == 0 && 0 !in s
    ensures 0 in buffer && CString(buffer) == s
  {
    var c := CString(buffer);
    assert forall i :: 0 <= i < |s| ==> buffer[i] == s[i] && s[i] in s;
    assert forall i :: 0 <= i < |c| ==> c[i] == buffer[i] && c[i] in c;
  }

  // Carriage returns.

  /** `s` with every `x` taken out and the rest kept in order. */
  function Without<T(==)>(s: seq<T>, x: T): (r: seq<T>)
    ensures x !in r && |r| <= |s|
  {
    if s == [] then [] else (if s[0] == x then [] else [s[0]]) + Without(s[1..], x)
  }

  lemma {:induction false} WithoutConcat<T>(a: seq<T>, b: seq<T>, x: T)
    ensures Without(a + b, x) == Without(a, x) + Without(b, x)
  {
    if a == [] {
      assert a + b == b;
    } else {
      var rest, all := a[1..], a + b;
      WithoutConcat(rest, b, x);
      assert all[0] == a[0] && all[1..] == rest + b;
      Regroup(if a[0] == x then [] else [a[0]], Without(rest, x), Without(b, x));
    }
  }

  lemma WithoutOneMore<T>(s: seq<T>, i: nat, x: T)
    requires i < |s|
    ensures Without(s[..i + 1], x) == Without(s[..i], x) + if s[i] == x then [] else [s[i]]
    ensures |Without(s[..i + 1], x)| <= |Without(s, x)|
  {
    var before, one, after := s[..i], [s[i]], s[i + 1..];
    assert s[..i + 1] == before + one && s == s[..i + 1] + after && one[1..] == [];
    WithoutConcat(before, one, x);
    WithoutConcat(s[..i + 1], after, x);
  }

  lemma {:induction false} WithoutAbsent<T>(s: seq<T>, x: T)
    requires x !in s
    ensures Without(s, x) == s
  {
    if s != [] {
      WithoutAbsent(s[1..], x);
    }
  }

  function Occurs<T(==)>(s: seq<T>, x: T): nat {
    if s == [] then 0 else (if s[0] == x then 1 else 0) + Occurs(s[1..], x)
  }

  /** Everything else stays, and only moves up by as many places as were taken out before it. */
  lemma {:induction false} WithoutKeeps<T>(s: seq<T>, x: T, i: nat)
    requires i < |s| && s[i] != x
    ensures Occurs(s[..i], x) <= i && i - Occurs(s[..i], x) < |Without(s, x)|
    ensures Without(s, x)[i - Occurs(s[..i], x)] == s[i]
    ensures |Without(s, x)| == |s| - Occurs(s, x)
  {
    WithoutCounts(s, x);
    if i > 0 {
      assert s[..i][1..] == s[1..][..i - 1];
      WithoutKeeps(s[1..], x, i - 1);
    }
  }

  lemma {:induction false} WithoutCounts<T>(s: seq<T>, x: T)
    ensures |Without(s, x)| == |s| - Occurs(s, x)
  {
    if s != [] {
      WithoutCounts(s[1..], x);
    }
  }

  /** Copies `bytes` bytes of `src` to the start of `dst`, without the carriage returns. */
  method ConvertLF(src: array<Byte>, dst: array<Byte>, bytes: nat)
    requires src != dst && bytes <= src.Length
    requires |Without(src[..bytes], CR)| <= dst.Length
    modifies dst
    ensures var kept := Without(old(src[..bytes]), 0x0D); dst[..] == kept + old(dst[..])[|kept|..]
  {
    ghost var text, before := src[..bytes], dst[..];
    var i, j := 0, 0;
    while i < bytes
      invariant 0 <= i <= bytes && src[..bytes] == text && j == |Without(text[..i], CR)| <= dst.Length
      invariant dst[..j] == Without(text[..i], CR)
      invariant forall k :: j <= k < dst.Length ==> dst[k] == before[k]
    {
      WithoutOneMore(text, i, CR);
      assert text[i] == src[i];
      if src[i] != CR {
        dst[j] := src[i];
        j := j + 1;
      }
      i := i + 1;
    }
    assert text[..i] == text;
  }

  /** Taking the bytes 0x0D out of a UTF-8 text takes out exactly its code points U+000D, so what is left
      is well formed. */
  lemma {:induction false} ConvertLFOnCodePoints(cps: seq<CodePoint>)
    requires Scalars(cps)
    ensures Scalars(Without<CodePoint>(cps, 0x0D)) &&
            Without(EncodeAll(cps), 0x0D) == EncodeAll(Without<CodePoint>(cps, 0x0D))
  {
    if cps != [] {
      var first, rest := Encode(cps[0]), EncodeAll(cps[1..]);
      ConvertLFOnCodePoints(cps[1..]);
      WithoutConcat(first, rest, CR);
      var kept: seq<CodePoint> := if cps[0] == CR then [] else [cps[0]];
      CarriageReturnByte(cps[0]);
      EncodeAllConcat(kept, Without<CodePoint>(cps[1..], CR));
    }
  }

  lemma CarriageReturnByte(cp: CodePoint)
    requires Scalar(cp)
    ensures var kept: seq<CodePoint> := if cp == CR then [] else [cp];
            Without(Encode(cp), CR) == EncodeAll(kept)
  {
    if cp == CR {
      assert Encode(cp) == [CR];
    } else {
      WithoutAbsent(Encode(cp), CR);
      assert EncodeAll([cp]) == Encode(cp);
    }
  }

  // Latin-1 to UTF-8. A Latin-1 text is the sequence of its own code points.

  function Utf8OfLatin1(s: seq<Byte>): (r: seq<Byte>) {
    EncodeAll(s)
  }

  lemma {:induction false} Utf8OfLatin1Fits(s: seq<Byte>)
    ensures |s| <= |Utf8OfLatin1(s)| <= 2 * |s|
    ensures 0 !in s ==> 0 !in Utf8OfLatin1(s)
  {
    if s != [] {
      Utf8OfLatin1Fits(s[1..]);
    }
  }

  lemma Utf8OfLatin1Prefix(s: seq<Byte>, i: nat)
    requires i < |s|
    ensures Utf8OfLatin1(s[..i + 1]) == Utf8OfLatin1(s[..i]) + Encode(s[i])
    ensures |Utf8OfLatin1(s[..i + 1])| <= |Utf8OfLatin1(s)|
  {
    var before, one, after := s[..i], [s[i]], s[i + 1..];
    assert s[..i + 1] == before + one;
    EncodeAllConcat(before, one);
    assert EncodeAll(one) == Encode(one[0]);
    assert s == s[..i + 1] + after;
    EncodeAllConcat(s[..i + 1], after);
  }

  lemma Latin1Character(b: Byte)
    ensures Encode(b) == if b < 128 then [b] else [0xC2 + (if b > 0xBF then 1 else 0), b % 0x40 + 0x80]
  {
  }

  /** Writes the UTF-8 form of the C string `input` to the start of `out`, and no terminator. */
  method Latin1ToUTF8(out: array<Byte>, input: array<Byte>)
    requires out != input && 0 in input[..]
    requires |Utf8OfLatin1(CString(input[..]))| <= out.Length
    modifies out
    ensures var text := Utf8OfLatin1(old(CString(input[..]))); out[..] == text + old(out[..])[|text|..]
  {
    ghost var text, before := CString(input[..]), out[..];
    var i, o := 0, 0;
    assert text[..0] == [];
    while input[i] != 0
      invariant 0 <= i <= |text| && o == |Utf8OfLatin1(text[..i])| <= out.Length
      invariant input[..] == old(input[..])
      invariant out[..o] == Utf8OfLatin1(text[..i])
      invariant forall k :: o <= k < out.Length ==> out[k] == before[k]
      decreases |text| - i
    {
      assert input[..][i] != 0 && input[i] == text[i];
      Utf8OfLatin1Prefix(text, i);
      Latin1Character(text[i]);
      ghost var done, one := Utf8OfLatin1(text[..i]), Encode(text[i]);
      if input[i] < 128 {
        out[o] := input[i];
        o, i := o + 1, i + 1;
      } else {
        out[o] := 0xC2 + (if input[i] > 0xBF then 1 else 0);
        out[o + 1] := input[i] % 0x40 + 0x80;
        o, i := o + 2, i + 1;
      }
      assert out[..o] == done + one;
    }
    assert input[..][i] == 0;
    assert text[..i] == text;
  }

  // The validity check.

  /** What the check finds at the start of `s`, the memory from there on: a character of some length, one that
      it refuses, or one for which it has to read behind that memory. */
  datatype Look = Takes(length: nat) | Broken | Unseen

  function LookAt(s: seq<Byte>): (l: Look)
    requires s != []
    ensures l.Takes? ==> 1 <= l.length <= |s| && l.length <= 4
  {
    if s[0] < 0x80 then Takes(1)
    else if |s| < 2 then Unseen
    else if !Tail(s[1]) then Broken
    else if s[0] < 0xE0 then Takes(2)
    else if |s| < 3 then Unseen
    else if !Tail(s[2]) then Broken
    else if s[0] < 0xF0 then Takes(3)
    else if s[0] >= 0xF8 then Broken
    else if |s| < 4 then Unseen
    else if !Tail(s[3]) then Broken
    else Takes(4)
  }

  /** The answer of the check, or that it reads behind the memory there is. */
  datatype Verdict = Accepted | Rejected | ReadsBeyond

  /** The check of `size` bytes from byte `ix` on, in the memory `utf`. */
  function Check(utf: seq<Byte>, size: nat, ix: nat): Verdict
    decreases |utf| - ix
  {
    if ix >= |utf| then ReadsBeyond
    else if utf[ix] == 0 || ix >= size then Accepted
    else match LookAt(utf[ix..])
      case Takes(n) => Check(utf, size, ix + n)
      case Broken => Rejected
      case Unseen => ReadsBeyond
  }

  method CheckUTF8(utf: seq<Byte>, size: nat) returns (v: Verdict)
    requires size <= |utf|
    ensures v == Check(utf, size, 0)
  {
    var ix := 0;
    while ix < |utf| && utf[ix] != 0 && ix < size
      invariant Check(utf, size, ix) == Check(utf, size, 0)
      decreases |utf| - ix
    {
      var c := utf[ix];
      if c >= 0x80 {
        if ix + 1 == |utf| {
          return ReadsBeyond;
        } else if !Tail(utf[ix + 1]) {
          return Rejected;
        }
        if c >= 0xE0 {
          if ix + 2 == |utf| {
            return ReadsBeyond;
          } else if !Tail(utf[ix + 2]) {
            return Rejected;
          }
          if c >= 0xF0 {
            if c >= 0xF8 {
              return Rejected;
            } else if ix + 3 == |utf| {
              return ReadsBeyond;
            } else if !Tail(utf[ix + 3]) {
              return Rejected;
            }
            ix := ix + 4;
          } else {
            ix := ix + 3;
          }
        } else {
          ix := ix + 2;
        }
      } else {
        ix := ix + 1;
      }
    }
    return if ix < |utf| then Accepted else ReadsBeyond;
  }

  // How far it reads.

  /** How many bytes it reads of the character at the start of `s`. */
  function BytesLookedAt(s: seq<Byte>): (n: nat)
    requires |s| >= 4
    ensures 1 <= n <= 4
  {
    if s[0] < 0x80 then 1
    else if !Tail(s[1]) || s[0] < 0xE0 then 2
    else if !Tail(s[2]) || s[0] < 0xF0 || s[0] >= 0xF8 then 3
    else 4
  }

  /** One past the last byte that the check reads from `ix` on. */
  function ReadEnd(utf: seq<Byte>, size: nat, ix: nat): (end: nat)
    requires size + 4 <= |utf| && ix < size + 4
    ensures ix < end <= size + 4
    decreases |utf| - ix
  {
    if utf[ix] == 0 || ix >= size then ix + 1
    else match LookAt(utf[ix..])
      case Takes(n) => ReadEnd(utf, size, ix + n)
      case _ => ix + BytesLookedAt(utf[ix..])
  }

  /** The check of a text kept in `data` alone reads behind it exactly when it reads that far with anything
      behind it, and answers the same otherwise. */
  lemma {:induction false} ChecksItsMemory(data: seq<Byte>, behind: seq<Byte>, size: nat, ix: nat)
    requires size <= |data| && |behind| >= 4 && ix < size + 4
    ensures Check(data, size, ix) ==
            if ReadEnd(data + behind, size, ix) <= |data| then Check(data + behind, size, ix) else ReadsBeyond
    decreases |data| + 4 - ix
  {
    var utf := data + behind;
    if ix < |data| {
      var short, long := data[ix..], utf[ix..];
      assert long == short + behind && forall k :: 0 <= k < |short| ==> long[k] == short[k];
      if utf[ix] != 0 && ix < size && LookAt(long).Takes? {
        ChecksItsMemory(data, behind, size, ix + LookAt(long).length);
      }
    }
  }

  /** The walk ends below `size`: at a NUL between two characters, or at a refusal that needs no byte from
      `size` on. */
  predicate EndsInside(utf: seq<Byte>, size: nat, ix: nat)
    requires size + 4 <= |utf|
    decreases |utf| - ix
  {
    ix < size &&
    (|| utf[ix] == 0
     || match LookAt(utf[ix..])
        case Takes(n) => EndsInside(utf, size, ix + n)
        case _ => ix + BytesLookedAt(utf[ix..]) <= size)
  }

  /** The check reads only its data exactly when the walk ends inside; otherwise it reads one to four bytes
      behind. In particular it does so for every text without NUL that it accepts. */
  lemma {:induction false} ReadsOnlyItsData(utf: seq<Byte>, size: nat, ix: nat)
    requires size + 4 <= |utf| && ix < size + 4
    ensures ReadEnd(utf, size, ix) <= size <==> EndsInside(utf, size, ix)
    ensures ix <= size && 0 !in utf[ix..size] && Check(utf, size, ix) == Accepted ==> size < ReadEnd(utf, size, ix) <= size + 4
    decreases |utf| - ix
  {
    if ix < size && utf[ix] != 0 {
      assert forall k :: ix <= k < size ==> utf[ix..size][k - ix] == utf[k];
      var l := LookAt(utf[ix..]);
      if l.Takes? {
        ReadsOnlyItsData(utf, size, ix + l.length);
        assert 0 !in utf[ix..size] && ix + l.length <= size ==> 0 !in utf[ix + l.length..size];
      }
    }
  }

  /** One letter stored in exactly one byte: the check reads behind it. */
  lemma ReadsBehindOneByte()
    ensures Check([0x61], 1, 0) == ReadsBeyond
  {
    var data: seq<Byte> := [0x61];
    var size := 1;
    assert Check(data, size, 1) == ReadsBeyond;
    assert LookAt(data[0..]) == Takes(1);
  }

  // How right it is.

  /** A character the check lets through although RFC 3629 does not: a byte 0x80 to 0xBF out of place, an
      overlong form, a surrogate, or a code point above U+10FFFF. */
  predicate Lenient(s: seq<Byte>)
    requires s != [] && LookAt(s).Takes?
  {
    || 0x80 <= s[0] <= 0xC1
    || (s[0] == 0xE0 && s[1] < 0xA0)
    || (s[0] == 0xED && s[1] > 0x9F)
    || (s[0] == 0xF0 && s[1] < 0x90)
    || (s[0] == 0xF4 && s[1] > 0x8F)
    || 0xF5 <= s[0]
  }

  /** The check gives every well-formed character its length, and the others it lets through are lenient. */
  lemma CheckedCharacter(s: seq<Byte>)
    requires s != []
    ensures CharLength(s) > 0 <==> LookAt(s).Takes? && !Lenient(s)
    ensures CharLength(s) > 0 ==> LookAt(s).length == CharLength(s)
  {
  }

  /** Whether the check meets a lenient character from byte `ix` on, or one that runs over the end. */
  predicate MeetsLenient(utf: seq<Byte>, size: nat, ix: nat)
    requires size <= |utf|
    decreases |utf| - ix
  {
    ix < size &&
    match LookAt(utf[ix..])
    case Takes(n) => Lenient(utf[ix..]) || ix + n > size || MeetsLenient(utf, size, ix + n)
    case _ => false
  }

  /** The check is right about a text without NUL exactly when it meets no lenient character: it accepts every
      well-formed text that has a byte behind it, and accepts more than those only for such characters. */
  lemma {:induction false} AcceptsWellFormed(utf: seq<Byte>, size: nat, ix: nat)
    requires size < |utf| && ix <= size && 0 !in utf[ix..size]
    ensures WellFormed(utf[ix..size]) <==> Check(utf, size, ix) == Accepted && !MeetsLenient(utf, size, ix)
    decreases size - ix
  {
    if ix < size {
      var s, text := utf[ix..], utf[ix..size];
      assert utf[ix] == text[0] != 0;
      CheckedCharacter(s);
      if CharLength(text) > 0 {
        CharacterIsSelfDelimiting(text, utf[size..]);
        assert text + utf[size..] == s;
      }
      if CharLength(s) > 0 && ix + CharLength(s) <= size {
        var n := CharLength(s);
        assert CharLength(text) == n;
        AcceptsWellFormed(utf, size, ix + n);
        assert text[n..] == utf[ix + n..size];
      }
    }
  }

  /** It does accept a malformed text: the overlong form of U+0000. */
  lemma AcceptsOverlong()
    ensures var utf: seq<Byte> := [0xC0, 0x80, 0]; Check(utf, 2, 0) == Accepted && !WellFormed(utf[..2])
  {
    var utf: seq<Byte> := [0xC0, 0x80, 0];
    assert LookAt(utf[0..]) == Takes(2);
    assert CharLength(utf[..2]) == 0;
  }

  // UTF-8 to code points, one step at a time.

  /** How many bytes at the start of `s` are of the form of a later byte. */
  function Tails(s: seq<Byte>): (n: nat)
    ensures n <= |s|
  {
    if s != [] && Tail(s[0]) then 1 + Tails(s[1..]) else 0
  }

  lemma {:induction false} TailsAreFirst(s: seq<Byte>)
    ensures var n := Tails(s); (forall k :: 0 <= k < n ==> Tail(s[k])) && (n < |s| ==> !Tail(s[n]))
  {
    if s != [] && Tail(s[0]) {
      TailsAreFirst(s[1..]);
    }
  }

  datatype Step = Step(consumed: nat, cp: CodePoint)

  /** The rest of a character of which `consumed` bytes are read, with `count` later bytes still to come. */
  function Continue(s: seq<Byte>, bits: CodePoint, count: nat, consumed: nat): (step: Step)
    ensures step.consumed >= consumed
    decreases count
  {
    if count == 0 then Step(consumed, if 0xD800 <= bits < 0xE000 then REPLACEMENT else bits)
    else if s == [] || !Tail(s[0]) then Step(consumed + 1, REPLACEMENT)
    else Continue(s[1..], Push(bits, s[0]), count - 1, consumed + 1)
  }

  /** The step on the bytes it may look at. A step on a broken character takes one byte more than belongs to
      it, be that the byte that broke it or the end. */
  function OneStep(s: seq<Byte>): (step: Step)
    ensures s != [] ==> step.consumed > 0
  {
    if s == [] then Step(0, REPLACEMENT)
    else if s[0] < 0x80 then Step(1, s[0])
    else if 0xC0 <= s[0] < 0xE0 then Continue(s[1..], s[0] - 0xC0, 1, 1)
    else if 0xE0 <= s[0] < 0xF0 then Continue(s[1..], s[0] - 0xE0, 2, 1)
    else if 0xF0 <= s[0] < 0xF8 then Continue(s[1..], s[0] - 0xF0, 3, 1)
    else Step(1 + Tails(s[1..]), REPLACEMENT)
  }

  lemma {:induction false} ContinueStopsAtNul(s: seq<Byte>, bits: CodePoint, count: nat, consumed: nat, z: nat)
    requires z < |s| && s[z] == 0
    ensures Continue(s, bits, count, consumed).consumed <= consumed + z + 1
    decreases count
  {
    if count > 0 && Tail(s[0]) {
      ContinueStopsAtNul(s[1..], Push(bits, s[0]), count - 1, consumed + 1, z - 1);
    }
  }

  lemma {:induction false} TailsStopAtNul(s: seq<Byte>, z: nat)
    requires z < |s| && s[z] == 0
    ensures Tails(s) <= z
  {
    if Tail(s[0]) {
      TailsStopAtNul(s[1..], z - 1);
    }
  }

  /** A step takes nothing behind a NUL. */
  lemma StepStopsAtNul(s: seq<Byte>, z: nat)
    requires 0 < z < |s| && s[z] == 0
    ensures 0 < OneStep(s).consumed <= z + 1
  {
    var later := s[1..];
    TailsStopAtNul(later, z - 1);
    if 0xC0 <= s[0] < 0xE0 {
      ContinueStopsAtNul(later, s[0] - 0xC0, 1, 1, z - 1);
    } else if 0xE0 <= s[0] < 0xF0 {
      ContinueStopsAtNul(later, s[0] - 0xE0, 2, 1, z - 1);
    } else if 0xF0 <= s[0] < 0xF8 {
      ContinueStopsAtNul(later, s[0] - 0xF0, 3, 1, z - 1);
    }
  }

  /** The bytes a step may look at: at most `max` of them. */
  function Window(src: seq<Byte>, max: nat): seq<Byte> {
    if max <= |src| then src[..max] else src
  }

  method Utf8ToUCS4(src: seq<Byte>, max: nat) returns (consumed: nat, dst: CodePoint)
    requires max <= |src| || 0 in src
    ensures Step(consumed, dst) == OneStep(Window(src, max))
  {
    ghost var window := Window(src, max);
    dst := REPLACEMENT;
    if max == 0 {
      return 0, dst;
    }
    consumed := 1;
    var count;
    if src[0] < 0x80 {
      dst, count := src[0], 0;
    } else if 0xC0 <= src[0] < 0xE0 {
      dst, count := src[0] - 0xC0, 1;
    } else if 0xE0 <= src[0] < 0xF0 {
      dst, count := src[0] - 0xE0, 2;
    } else if 0xF0 <= src[0] < 0xF8 {
      dst, count := src[0] - 0xF0, 3;
    } else {
      while consumed < max && Tail(src[consumed])
        invariant 1 <= consumed <= |window| && forall k :: 1 <= k < consumed ==> Tail(src[k])
        invariant consumed + Tails(window[consumed..]) == 1 + Tails(window[1..])
        invariant dst == REPLACEMENT
        decreases |window| - consumed
      {
        consumed := consumed + 1;
      }
      return;
    }
    while count > 0
      invariant 1 <= consumed <= |window| && consumed + count <= 4
      invariant forall k :: 1 <= k < consumed ==> Tail(src[k])
      invariant Continue(window[consumed..], dst, count, consumed) == OneStep(window)
    {
      if consumed == max || !Tail(src[consumed]) {
        return consumed + 1, REPLACEMENT;
      }
      dst := Push(dst, src[consumed]);
      consumed, count := consumed + 1, count - 1;
    }
    if 0xD800 <= dst < 0xE000 {
      dst := REPLACEMENT;
    }
  }

  /** On a well-formed character the step takes exactly its bytes and gives its code point. */
  lemma StepOnCharacter(s: seq<Byte>)
    requires CharLength(s) > 0
    ensures OneStep(s) == Step(CharLength(s), Decode(s))
  {
    EncodeDecode(s);
  }

  /** What a step may make of a character that is not well formed: U+FFFD, or the number an overlong form or
      one above U+10FFFF stands for. */
  predicate FromBroken(step: Step) {
    || step.cp == 0xFFFD
    || step.cp > 0x10FFFF
    || (Scalar(step.cp) && |Encode(step.cp)| < step.consumed)
  }

  lemma BrokenTwoBytes(s: seq<Byte>)
    requires |s| >= 2 && CharLength(s) == 0 && 0xC0 <= s[0] < 0xE0 && Tail(s[1])
    ensures FromBroken(OneStep(s))
  {
    assert OneStep(s) == Continue(s[2..], Push(s[0] - 0xC0, s[1]), 0, 2);
    LaterPush(s[0] - 0xC0, s[1]);
  }

  lemma BrokenThreeBytes(s: seq<Byte>)
    requires |s| >= 3 && CharLength(s) == 0 && 0xE0 <= s[0] < 0xF0 && Tail(s[1]) && Tail(s[2])
    ensures FromBroken(OneStep(s))
  {
    var high := s[0] - 0xE0;
    var middle := Push(high, s[1]);
    LaterPush(high, s[1]);
    LaterPush(middle, s[2]);
    assert OneStep(s) == Continue(s[1..][1..], middle, 1, 2) == Continue(s[1..][1..][1..], Push(middle, s[2]), 0, 3);
  }

  lemma BrokenFourBytes(s: seq<Byte>)
    requires |s| >= 4 && CharLength(s) == 0 && 0xF0 <= s[0] < 0xF8 && Tail(s[1]) && Tail(s[2]) && Tail(s[3])
    ensures FromBroken(OneStep(s))
  {
    var high := s[0] - 0xF0;
    var middle := Push(high, s[1]);
    var low := Push(middle, s[2]);
    LaterPush(high, s[1]);
    LaterPush(middle, s[2]);
    LaterPush(low, s[3]);
    assert OneStep(s) == Continue(s[1..][1..], middle, 2, 2) == Continue(s[1..][1..][1..], low, 1, 3)
                      == Continue(s[1..][1..][1..][1..], Push(low, s[3]), 0, 4);
  }

  lemma {:induction false} TooFewTails(s: seq<Byte>, bits: CodePoint, count: nat, consumed: nat)
    requires Tails(s) < count
    ensures Continue(s, bits, count, consumed).cp == REPLACEMENT
    decreases count
  {
    if s != [] && Tail(s[0]) {
      TooFewTails(s[1..], Push(bits, s[0]), count - 1, consumed + 1);
    }
  }

  lemma {:induction false} ContinueTakes(s: seq<Byte>, bits: CodePoint, count: nat, consumed: nat)
    ensures Continue(s, bits, count, consumed).consumed == consumed + if Tails(s) >= count then count else Tails(s) + 1
    decreases count
  {
    if count > 0 && s != [] && Tail(s[0]) {
      ContinueTakes(s[1..], Push(bits, s[0]), count - 1, consumed + 1);
    }
  }

  /** How many bytes a step takes, by how many later bytes follow the first one: all that a first byte announces, one
      more than there are if there are too few, and all of them after a byte that announces nothing. */
  lemma StepTakes(s: seq<Byte>, tails: nat)
    requires s != [] && tails < |s| && forall i :: 1 <= i <= tails ==> 0x80 <= s[i] < 0xC0
    requires tails + 1 < |s| ==> !(0x80 <= s[tails + 1] < 0xC0)
    ensures var needs := if s[0] < 0xE0 then 1 else if s[0] < 0xF0 then 2 else 3;
            OneStep(s).consumed == if s[0] < 0x80 then 1
                                   else if s[0] < 0xC0 || s[0] >= 0xF8 then tails + 1
                                   else if tails >= needs then needs + 1
                                   else tails + 2
    ensures 0x80 <= s[0] < 0xC0 || s[0] >= 0xF8 ==> OneStep(s).cp == 0xFFFD
  {
    var later := s[1..];
    TailsAreFirst(later);
    assert forall k :: 0 <= k < |later| ==> later[k] == s[k + 1];
    assert Tails(later) == tails;
    if 0xC0 <= s[0] < 0xE0 {
      ContinueTakes(later, s[0] - 0xC0, 1, 1);
    } else if 0xE0 <= s[0] < 0xF0 {
      ContinueTakes(later, s[0] - 0xE0, 2, 1);
    } else if 0xF0 <= s[0] < 0xF8 {
      ContinueTakes(later, s[0] - 0xF0, 3, 1);
    }
  }

  /** On a broken character it gives U+FFFD, unless the character is an overlong form or a code point above
      U+10FFFF of the right shape, which it decodes. */
  lemma StepOnBroken(s: seq<Byte>)
    requires s != [] && CharLength(s) == 0
    ensures FromBroken(OneStep(s))
  {
    var later := s[1..];
    var tails := Tails(later);
    TailsAreFirst(later);
    assert forall k :: 0 <= k < tails ==> later[k] == s[k + 1];
    if 0xC0 <= s[0] < 0xE0 {
      if tails < 1 {
        TooFewTails(later, s[0] - 0xC0, 1, 1);
      } else {
        BrokenTwoBytes(s);
      }
    } else if 0xE0 <= s[0] < 0xF0 {
      if tails < 2 {
        TooFewTails(later, s[0] - 0xE0, 2, 1);
      } else {
        BrokenThreeBytes(s);
      }
    } else if 0xF0 <= s[0] < 0xF8 {
      if tails < 3 {
        TooFewTails(later, s[0] - 0xF0, 3, 1);
      } else {
        BrokenFourBytes(s);
      }
    }
  }

  // UTF-8 to Latin-1.

  /** The Latin-1 byte of a code point; '?' where there is none. */
  function Narrow(cp: CodePoint): Byte {
    if cp > 0xFF then QUESTION_MARK else cp
  }

  function Latin1Of(cps: seq<CodePoint>): seq<Byte> {
    seq(|cps|, i requires 0 <= i < |cps| => Narrow(cps[i]))
  }

  lemma {:induction false} NoNulCodePoint(s: seq<Byte>)
    requires WellFormed(s) && 0 !in s
    ensures 0 !in CodePoints(s)
    decreases |s|
  {
    if s != [] {
      EncodeDecode(s);
      NoNulCodePoint(s[CharLength(s)..]);
    }
  }

  function Met(cp: CodePoint, rest: Option<seq<CodePoint>>): Option<seq<CodePoint>> {
    match rest
    case None => None
    case Some(cps) => Some([cp] + cps)
  }

  /** The end of the memory that a walk can stay in: behind the last NUL. */
  function LastNul(src: seq<Byte>): (end: nat)
    ensures end <= |src| && (end > 0 ==> src[end - 1] == 0)
    ensures forall k :: end <= k < |src| ==> src[k] != 0
  {
    if src == [] || src[|src| - 1] == 0 then |src| else LastNul(src[..|src| - 1])
  }

  /** The code points that a walk from `i` on meets up to a NUL; None if no NUL is ahead of it any more, because
      a step took the last one for part of a character: it then leaves the memory. */
  function Walk(src: seq<Byte>, end: nat, i: nat): Option<seq<CodePoint>>
    requires end <= |src|
    decreases end - i
  {
    if i >= end then None
    else if src[i] == 0 then Some([])
    else
      var step := OneStep(src[i..]);
      Met(step.cp, Walk(src, end, i + step.consumed))
  }

  function Walked(src: seq<Byte>): Option<seq<CodePoint>> {
    Walk(src, LastNul(src), 0)
  }

  /** The step at offset `i`, while a NUL is ahead. */
  method StepAt(src: seq<Byte>, end: nat, i: nat, max: nat) returns (len: nat, ucs: CodePoint)
    requires i < end <= |src| && src[end - 1] == 0 && src[i] != 0 && |src| - i <= max
    ensures 0 < len <= end - i && Walk(src, end, i) == Met(ucs, Walk(src, end, i + len))
  {
    StepStopsAtNul(src[i..], end - 1 - i);
    assert Window(src[i..], max) == src[i..];
    len, ucs := Utf8ToUCS4(src[i..], max);
    assert Step(len, ucs) == OneStep(src[i..]);
  }

  const SIZE_MAX: nat := 0xFFFF_FFFF_FFFF_FFFF

  /** `n` and as many as are met. */
  function AndMet(n: nat, cps: Option<seq<CodePoint>>): Option<nat> {
    match cps
    case None => None
    case Some(s) => Some(n + |s|)
  }

  lemma OneMore(n: nat, cp: CodePoint, rest: Option<seq<CodePoint>>)
    ensures AndMet(n, Met(cp, rest)) == AndMet(n + 1, rest)
  {
  }

  /** The first pass; None when it leaves the memory. */
  method CountCodePoints(src: seq<Byte>, end: nat) returns (sz: Option<nat>)
    requires end == LastNul(src) && |src| <= SIZE_MAX
    ensures sz == AndMet(0, Walk(src, end, 0))
  {
    var n, i, inLen := 0, 0, SIZE_MAX;
    while i < end && inLen > 0 && src[i] != 0
      invariant i <= end && inLen == SIZE_MAX - i
      invariant AndMet(0, Walk(src, end, 0)) == AndMet(n, Walk(src, end, i))
      decreases end - i
    {
      var len, ucs := StepAt(src, end, i, inLen);
      OneMore(n, ucs, Walk(src, end, i + len));
      i, inLen, n := i + len, inLen - len, n + 1;
    }
    sz := if i < end then Some(n) else None;
  }

  /** What is met at one place and behind it, as part of everything met. */
  lemma MetAt(cps: seq<CodePoint>, position: nat, cp: CodePoint, rest: Option<seq<CodePoint>>)
    requires position <= |cps| && Some(cps[position..]) == Met(cp, rest)
    ensures position < |cps| && cps[position] == cp && rest == Some(cps[position + 1..])
  {
    assert cps[position..] == [cp] + rest.value;
    assert cps[position..][1..] == cps[position + 1..];
  }

  /** The walk is at offset `i`, before a NUL, and has met all but the last code points from `position` on. */
  ghost predicate At(src: seq<Byte>, end: nat, cps: seq<CodePoint>, i: nat, position: nat) {
    && i < end <= |src| && position <= |cps| && src[end - 1] == 0
    && Walk(src, end, i) == Some(cps[position..])
  }

  lemma AtEnds(src: seq<Byte>, end: nat, cps: seq<CodePoint>, i: nat, position: nat)
    requires At(src, end, cps, i, position)
    ensures src[i] == 0 <==> position == |cps|
  {
    if src[i] != 0 {
      assert |Walk(src, end, i).value| > 0;
    } else {
      assert |cps[position..]| == 0;
    }
  }

  method StepAlong(src: seq<Byte>, end: nat, i: nat, max: nat, ghost cps: seq<CodePoint>, ghost position: nat)
    returns (len: nat, ucs: CodePoint)
    requires At(src, end, cps, i, position) && src[i] != 0 && |src| - i <= max
    ensures 0 < len && position < |cps| && ucs == cps[position] && At(src, end, cps, i + len, position + 1)
  {
    len, ucs := StepAt(src, end, i, max);
    MetAt(cps, position, ucs, Walk(src, end, i + len));
  }

  /** The second pass, into a zeroed buffer. */
  method WriteLatin1(src: seq<Byte>, end: nat, out: array<Byte>, ghost cps: seq<CodePoint>)
    requires |src| <= 0xFFFF_FFFF && At(src, end, cps, 0, 0)
    requires out.Length == |cps| + 1 && forall k :: 0 <= k < out.Length ==> out[k] == 0
    modifies out
    ensures out[..] == Latin1Of(cps) + [0]
  {
    var position, i, inLen := 0, 0, 0xFFFF_FFFF;
    while inLen > 0 && src[i] != 0
      invariant At(src, end, cps, i, position) && inLen == 0xFFFF_FFFF - i
      invariant forall k :: 0 <= k < position ==> out[k] == Narrow(cps[k])
      invariant forall k :: position <= k < out.Length ==> out[k] == 0
      decreases |src| - i
    {
      var len, ucs := StepAlong(src, end, i, inLen, cps, position);
      out[position] := if ucs > 0xFF then QUESTION_MARK else ucs;
      i, inLen, position := i + len, inLen - len, position + 1;
    }
    AtEnds(src, end, cps, i, position);
  }

  /** One Latin-1 byte for every code point met, '?' for those Latin-1 does not have, whatever the text. The first
      pass counts them, the second writes them and the two agree; None when the first leaves the memory. */
  method Utf8ToLatin1(src: seq<Byte>) returns (latin1: Option<array<Byte>>)
    requires |src| <= 0xFFFF_FFFF
    ensures latin1.Some? <==> Walked(src).Some?
    ensures latin1.Some? ==> fresh(latin1.value) && latin1.value[..] == Latin1Of(Walked(src).value) + [0]
  {
    var end := LastNul(src);
    var sz := CountCodePoints(src, end);
    if sz.None? {
      return None;
    }
    var out := new Byte[sz.value + 1](ignored => 0);
    WriteLatin1(src, end, out, Walked(src).value);
    return Some(out);
  }

  /** A well-formed text is met as its code points, whatever is behind its terminator. */
  lemma {:induction false} WalkOnText(src: seq<Byte>, end: nat, i: nat, text: seq<Byte>)
    requires i + |text| < end <= |src| && src[i..i + |text|] == text && src[i + |text|] == 0
    requires WellFormed(text) && 0 !in text
    ensures Walk(src, end, i) == Some(CodePoints(text))
    decreases |text|
  {
    if text != [] {
      var n, s := CharLength(text), src[i..];
      assert s == text + src[i + |text|..];
      CharacterIsSelfDelimiting(text, src[i + |text|..]);
      StepOnCharacter(s);
      assert src[i] == text[0];
      WalkOnText(src, end, i + n, text[n..]);
    }
  }

  lemma TextIsMet(text: seq<Byte>)
    requires WellFormed(text) && 0 !in text
    ensures Walked(text + [0]) == Some(CodePoints(text))
  {
    WalkOnText(text + [0], |text| + 1, 0, text);
  }

  /** The copy of a well-formed text has no NUL before its terminator. */
  lemma Latin1IsWhole(text: seq<Byte>)
    requires WellFormed(text) && 0 !in text
    ensures var latin1 := Latin1Of(CodePoints(text)); 0 in latin1 + [0] && CString(latin1 + [0]) == latin1
  {
    var latin1 := Latin1Of(CodePoints(text));
    NoNulCodePoint(text);
    assert 0 !in latin1;
    CStringIs(latin1 + [0], latin1);
  }

  /** A character that the end of the text cuts short: it needs more later bytes than there are. */
  predicate CutShort(s: seq<Byte>) {
    s != [] && s[0] >= 0xC0 && Tails(s[1..]) == |s| - 1 &&
    |s| - 1 < if s[0] < 0xE0 then 1 else if s[0] < 0xF0 then 2 else if s[0] < 0xF8 then 3 else 0
  }

  /** The walk over a text comes to a character that its end cuts short. */
  predicate EndsCutShort(text: seq<Byte>, i: nat)
    decreases |text| - i
  {
    i < |text| && (CutShort(text[i..]) || EndsCutShort(text, i + OneStep(text[i..]).consumed))
  }

  lemma {:induction false} ContinueBeforeEnd(s: seq<Byte>, bits: CodePoint, count: nat, consumed: nat)
    ensures Continue(s + [0], bits, count, consumed) == Continue(s, bits, count, consumed)
    ensures Continue(s, bits, count, consumed).consumed <= consumed + |s| + 1
    ensures Continue(s, bits, count, consumed).consumed == consumed + |s| + 1 <==> Tails(s) == |s| < count
    decreases count
  {
    if count > 0 && s != [] && Tail(s[0]) {
      assert (s + [0])[1..] == s[1..] + [0];
      ContinueBeforeEnd(s[1..], Push(bits, s[0]), count - 1, consumed + 1);
    }
  }

  lemma {:induction false} TailsBeforeEnd(s: seq<Byte>)
    ensures Tails(s + [0]) == Tails(s)
  {
    if s != [] && Tail(s[0]) {
      assert (s + [0])[1..] == s[1..] + [0];
      TailsBeforeEnd(s[1..]);
    }
  }

  /** A step takes the terminator for part of a character exactly if the end cuts that short. */
  lemma StepBeforeEnd(s: seq<Byte>)
    requires s != []
    ensures OneStep(s + [0]) == OneStep(s)
    ensures OneStep(s).consumed == |s| + 1 <==> CutShort(s)
    ensures OneStep(s).consumed <= |s| + 1
  {
    var later := s[1..];
    assert (s + [0])[1..] == later + [0];
    TailsBeforeEnd(later);
    if 0xC0 <= s[0] < 0xE0 {
      ContinueBeforeEnd(later, s[0] - 0xC0, 1, 1);
    } else if 0xE0 <= s[0] < 0xF0 {
      ContinueBeforeEnd(later, s[0] - 0xE0, 2, 1);
    } else if 0xF0 <= s[0] < 0xF8 {
      ContinueBeforeEnd(later, s[0] - 0xF0, 3, 1);
    }
  }

  lemma {:induction false} LeavesFrom(src: seq<Byte>, text: seq<Byte>, i: nat)
    requires 0 !in text && i <= |text| && src == text + [0]
    ensures Walk(src, |src|, i).None? <==> EndsCutShort(text, i)
    decreases |text| - i
  {
    if i < |text| {
      var s := text[i..];
      assert src[i..] == s + [0] && src[i] != 0;
      StepBeforeEnd(s);
      var n := OneStep(s).consumed;
      var rest := Walk(src, |src|, i + n);
      assert Walk(src, |src|, i) == Met(OneStep(s).cp, rest);
      if CutShort(s) {
        assert rest == None;
      } else {
        LeavesFrom(src, text, i + n);
      }
    }
  }

  /** A text at the end of its memory is walked without leaving it exactly if it does not end so. */
  lemma LeavesIfCutShort(text: seq<Byte>)
    requires 0 !in text
    ensures Walked(text + [0]).None? <==> EndsCutShort(text, 0)
  {
    LeavesFrom(text + [0], text, 0);
  }

  /** The first byte of a two-byte character and nothing else: the walk leaves the memory. */
  lemma LoneLeadLeaves()
    ensures Walked([0xC3, 0]) == None
  {
    var text: seq<Byte> := [0xC3];
    assert CutShort(text[0..]);
    LeavesIfCutShort(text);
    assert text + [0] == [0xC3, 0];
  }

  /** Latin-1 text comes back from UTF-8 as it was. */
  lemma Latin1RoundTrip(s: seq<Byte>)
    ensures WellFormed(Utf8OfLatin1(s)) && Latin1Of(CodePoints(Utf8OfLatin1(s))) == s
  {
    CodePointsOfEncoding(s);
    assert Latin1Of(s) == s;
  }

  // The two forms a selection arrives in.

  /** A STRING selection, as it is sent on: its lines end without carriage returns and it is in UTF-8. The
      buffer of twice the size holds it with its terminator. */
  method StringSelection(data: array<Byte>, size: nat) returns (utf8: array<Byte>)
    requires size <= data.Length
    ensures fresh(utf8) && utf8.Length == (size + 1) * 2 && 0 in utf8[..]
    ensures CString(utf8[..]) == Utf8OfLatin1(CString(Without(data[..size], 0x0D) + [0]))
  {
    var filtered := new Byte[size + 1](ignored => 0);
    utf8 := new Byte[(size + 1) * 2](ignored => 0);
    ConvertLF(data, filtered, size);
    ghost var kept := Without(data[..size], CR);
    assert filtered[|kept|] == 0;
    SameCString(kept, filtered[..]);
    ghost var text := CString(filtered[..]);
    Utf8OfLatin1Fits(text);
    Latin1ToUTF8(utf8, filtered);
    CStringIs(utf8[..], Utf8OfLatin1(text));
  }

  /** The C string in a buffer that holds `kept` and then zeros. */
  lemma SameCString(kept: seq<Byte>, buffer: seq<Byte>)
    requires |kept| < |buffer| && buffer[..|kept|] == kept && buffer[|kept|] == 0
    ensures 0 in buffer && CString(buffer) == CString(kept + [0])
  {
    var a, b := CString(buffer), CString(kept + [0]);
    assert forall i :: 0 <= i <= |kept| ==> buffer[i] == (kept + [0])[i];
    assert forall i :: 0 <= i < |a| ==> a[i] == buffer[i] && a[i] in a;
    assert forall i :: 0 <= i < |b| ==> b[i] == (kept + [0])[i] && b[i] in b;
  }

  datatype Sending = Sent(text: array<Byte>) | NotSent(verdict: Verdict)

  /** A UTF8_STRING selection: sent when the check accepts it. */
  method Utf8Selection(data: array<Byte>, size: nat) returns (r: Sending)
    requires size <= data.Length
    ensures r.Sent? <==> Check(data[..], size, 0) == Accepted
    ensures r.NotSent? ==> r.verdict == Check(data[..], size, 0)
    ensures r.Sent? ==> fresh(r.text) && 0 in r.text[..] &&
                        CString(r.text[..]) == CString(Without(data[..size], 0x0D) + [0])
  {
    var v := CheckUTF8(data[..], size);
    if v != Accepted {
      return NotSent(v);
    }
    var filtered := new Byte[size + 1](ignored => 0);
    ConvertLF(data, filtered, size);
    ghost var kept := Without(data[..size], CR);
    assert filtered[|kept|] == 0;
    SameCString(kept, filtered[..]);
    return Sent(filtered);
  }

  /** A well-formed text without NUL passes the check exactly when there is a byte behind it, whatever that is,
      and is sent as the encoding of its code points without U+000D. */
  lemma WellFormedSelectionIsSent(cps: seq<CodePoint>, behind: seq<Byte>)
    requires Scalars(cps) && 0 !in EncodeAll(cps)
    ensures Check(EncodeAll(cps) + behind, |EncodeAll(cps)|, 0) == if behind == [] then ReadsBeyond else Accepted
    ensures Scalars(Without<CodePoint>(cps, 0x0D)) &&
            CString(Without(EncodeAll(cps), 0x0D) + [0]) == EncodeAll(Without<CodePoint>(cps, 0x0D))
  {
    var text := EncodeAll(cps);
    CodePointsOfEncoding(cps);
    WellFormedIsChecked(text, behind);
    ConvertLFOnCodePoints(cps);
    OthersStayAbsent(text, CR, 0);
    CStringIs(Without(text, CR) + [0], Without(text, CR));
  }

  lemma WellFormedIsChecked(text: seq<Byte>, behind: seq<Byte>)
    requires WellFormed(text) && 0 !in text
    ensures Check(text + behind, |text|, 0) == if behind == [] then ReadsBeyond else Accepted
  {
    var size, four := |text|, [0, 0, 0, 0];
    var more := if behind == [] then four else behind;
    var utf := text + more;
    assert utf[0..size] == text;
    AcceptsWellFormed(utf, size, 0);
    if behind == [] {
      ReadsOnlyItsData(utf, size, 0);
      ChecksItsMemory(text, four, size, 0);
      assert text + behind == text;
    }
  }

  lemma {:induction false} OthersStayAbsent<T>(s: seq<T>, x: T, y: T)
    requires y !in s
    ensures y !in Without(s, x)
  {
    if s != [] {
      OthersStayAbsent(s[1..], x, y);
    }
  }

  // A text on the connection, behind the message that announces its length.

  datatype Reading = Reading(text: seq<Byte>, rest: seq<Byte>)

  /** The server reads the length that was announced. */
  function ServerReads(stream: seq<Byte>, count: nat): Reading {
    Take(stream, count, count)
  }

  /** The activity reads up to one byte more, for its terminator, and nothing for an empty text. */
  function ActivityReads(stream: seq<Byte>, count: nat): Reading {
    if count == 0 then Reading([], stream) else Take(stream, count + 1, count)
  }

  /** Up to `size` bytes taken off the stream, into a zeroed buffer that is then cut off at `count`. */
  function Take(stream: seq<Byte>, size: nat, count: nat): Reading
    requires count <= size
  {
    var taken := if |stream| < size then |stream| else size;
    var buffer := stream[..taken] + seq(size - taken, ignored => 0);
    Reading(CString(buffer[..count] + [0]), stream[taken..])
  }

  /** Both ends get the text that was sent. The server leaves what follows it on the stream. The activity does
      so exactly when the text is empty or nothing follows: otherwise it eats a byte of the next message. */
  lemma TextArrives(text: seq<Byte>, following: seq<Byte>)
    requires 0 !in text
    ensures ServerReads(text + following, |text|) == Reading(text, following)
    ensures ActivityReads(text + following, |text|).text == text
    ensures ActivityReads(text + following, |text|).rest == following <==> text == [] || following == []
  {
    var n, stream := |text|, text + following;
    CStringIs(text + [0], text);
    assert (stream[..n] + seq(0, ignored => 0))[..n] == text && stream[n..] == following;
    if text != [] && following == [] {
      assert (stream[..n] + seq(1, ignored => 0))[..n] == text && stream[n..] == [];
    } else if text != [] {
      assert (stream[..n + 1] + seq(0, ignored => 0))[..n] == text;
      assert |stream[n + 1..]| < |following|;
    }
  }
}
