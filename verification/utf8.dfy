/**
 * UTF-8 as read by Rust's `str::from_utf8` (which `payload_view::<str>()`
 * uses): the well-formed byte sequences of Table 3-7 in section 3.9 of the
 * Unicode Standard (equivalently, section 4 of RFC 3629). Overlong forms,
 * surrogate code points and values above U+10FFFF are rejected.
 */
module Utf8 {
  import opened Wrappers

  type Byte = b: int | 0 <= b < 256

  predicate IsContinuation(b: int)
  {
    0x80 <= b <= 0xBF
  }

  /** The encoding of one scalar value, in 1 to 4 bytes. */
  function EncodeChar(c: char): (bs: seq<Byte>)
    ensures 1 <= |bs| <= 4
  {
    var n := c as int;
    if n < 0x80 then [n]
    else if n < 0x800 then [0xC0 + n / 64, 0x80 + n % 64]
    else if n < 0x1_0000 then [0xE0 + n / 64 / 64, 0x80 + n / 64 % 64, 0x80 + n % 64]
    else [0xF0 + n / 64 / 64 / 64, 0x80 + n / 64 / 64 % 64, 0x80 + n / 64 % 64, 0x80 + n % 64]
  }

  /** The encoding of a string: the encodings of its characters, in order. */
  function Encode(s: string): seq<Byte>
  {
    if |s| == 0 then [] else EncodeChar(s[0]) + Encode(s[1..])
  }

  /** A two-byte sequence: lead C2..DF, then one continuation byte. */
  function DecodeTwo(b0: int, b1: int): (r: Option<char>)
    requires 0xC2 <= b0 <= 0xDF
  {
    if IsContinuation(b1) then Some(((b0 - 0xC0) * 64 + (b1 - 0x80)) as char) else None
  }

  /**
   * A three-byte sequence: lead E0..EF, then two continuation bytes, the
   * first narrowed after E0 (no overlong forms) and after ED (no surrogates).
   */
  function DecodeThree(b0: int, b1: int, b2: int): (r: Option<char>)
    requires 0xE0 <= b0 <= 0xEF
  {
    var lo := if b0 == 0xE0 then 0xA0 else 0x80;
    var hi := if b0 == 0xED then 0x9F else 0xBF;
    if lo <= b1 <= hi && IsContinuation(b2) then
      Some((((b0 - 0xE0) * 64 + (b1 - 0x80)) * 64 + (b2 - 0x80)) as char)
    else None
  }

  /**
   * A four-byte sequence: lead F0..F4, then three continuation bytes, the
   * first narrowed after F0 (no overlong forms) and after F4 (nothing above
   * U+10FFFF).
   */
  function DecodeFour(b0: int, b1: int, b2: int, b3: int): (r: Option<char>)
    requires 0xF0 <= b0 <= 0xF4
  {
    var lo := if b0 == 0xF0 then 0x90 else 0x80;
    var hi := if b0 == 0xF4 then 0x8F else 0xBF;
    if lo <= b1 <= hi && IsContinuation(b2) && IsContinuation(b3) then
      Some(((((b0 - 0xF0) * 64 + (b1 - 0x80)) * 64 + (b2 - 0x80)) * 64 + (b3 - 0x80)) as char)
    else None
  }

  /** The length of the sequence a lead byte announces, 0 for a byte that cannot lead. */
  function SequenceLength(b0: int): nat
  {
    if b0 < 0x80 then 1
    else if 0xC2 <= b0 <= 0xDF then 2
    else if 0xE0 <= b0 <= 0xEF then 3
    else if 0xF0 <= b0 <= 0xF4 then 4
    else 0
  }

  /**
   * The scalar value at the front of `b` and the number of bytes it takes,
   * or `None` when `b` does not start with a well-formed sequence.
   */
  function DecodeFirst(b: seq<Byte>): (r: Option<(char, nat)>)
    requires |b| > 0
    ensures r.Some? ==> r.value.1 == SequenceLength(b[0]) && 1 <= r.value.1 <= |b|
  {
    var n := SequenceLength(b[0]);
    if n == 0 || |b| < n then None
    else
      var c :=
        if n == 1 then Some(b[0] as char)
        else if n == 2 then DecodeTwo(b[0], b[1])
        else if n == 3 then DecodeThree(b[0], b[1], b[2])
        else DecodeFour(b[0], b[1], b[2], b[3]);
      match c
      case None => None
      case Some(ch) => Some((ch, n))
  }

  /** `str::from_utf8`: the decoded string, or `None` for ill-formed input. */
  function Decode(b: seq<Byte>): Option<string>
    decreases |b|
  {
    if |b| == 0 then Some("")
    else
      match DecodeFirst(b)
      case None => None
      case Some((c, n)) =>
        match Decode(b[n..])
        case None => None
        case Some(rest) => Some([c] + rest)
  }

  lemma DivMod64(q: int, r: int)
    requires 0 <= q && 0 <= r < 64
    ensures (q * 64 + r) / 64 == q && (q * 64 + r) % 64 == r
  {
  }

  lemma DecodeTwoEncode(n: int)
    requires 0x80 <= n < 0x800
    ensures DecodeTwo(0xC0 + n / 64, 0x80 + n % 64) == Some(n as char)
  {
  }

  lemma DecodeThreeEncode(n: int)
    requires 0x800 <= n < 0x1_0000 && !(0xD800 <= n < 0xE000)
    ensures DecodeThree(0xE0 + n / 64 / 64, 0x80 + n / 64 % 64, 0x80 + n % 64) == Some(n as char)
  {
    assert (n / 64 / 64 * 64 + n / 64 % 64) * 64 + n % 64 == n;
  }

  lemma DecodeFourEncode(n: int)
    requires 0x1_0000 <= n < 0x11_0000
    ensures DecodeFour(0xF0 + n / 64 / 64 / 64, 0x80 + n / 64 / 64 % 64, 0x80 + n / 64 % 64, 0x80 + n % 64) == Some(n as char)
  {
    assert ((n / 64 / 64 / 64 * 64 + n / 64 / 64 % 64) * 64 + n / 64 % 64) * 64 + n % 64 == n;
  }

  lemma FirstOfTwo(c: char, rest: seq<Byte>)
    requires 0x80 <= c as int < 0x800
    ensures DecodeFirst(EncodeChar(c) + rest) == Some((c, 2))
  {
    var n := c as int;
    var b0, b1 := 0xC0 + n / 64, 0x80 + n % 64;
    assert EncodeChar(c) == [b0, b1];
    var b := EncodeChar(c) + rest;
    assert b[0] == b0 && b[1] == b1;
    assert SequenceLength(b0) == 2;
    DecodeTwoEncode(n);
  }

  lemma FirstOfThree(c: char, rest: seq<Byte>)
    requires 0x800 <= c as int < 0x1_0000
    ensures DecodeFirst(EncodeChar(c) + rest) == Some((c, 3))
  {
    var n := c as int;
    var b0, b1, b2 := 0xE0 + n / 64 / 64, 0x80 + n / 64 % 64, 0x80 + n % 64;
    assert EncodeChar(c) == [b0, b1, b2];
    var b := EncodeChar(c) + rest;
    assert b[0] == b0 && b[1] == b1 && b[2] == b2;
    assert SequenceLength(b0) == 3;
    DecodeThreeEncode(n);
  }

  lemma FirstOfFour(c: char, rest: seq<Byte>)
    requires 0x1_0000 <= c as int
    ensures DecodeFirst(EncodeChar(c) + rest) == Some((c, 4))
  {
    var n := c as int;
    var b0, b1, b2, b3 := 0xF0 + n / 64 / 64 / 64, 0x80 + n / 64 / 64 % 64, 0x80 + n / 64 % 64, 0x80 + n % 64;
    assert EncodeChar(c) == [b0, b1, b2, b3];
    var b := EncodeChar(c) + rest;
    assert b[0] == b0 && b[1] == b1 && b[2] == b2 && b[3] == b3;
    assert SequenceLength(b0) == 4;
    DecodeFourEncode(n);
  }

  /** The decoder reads back the encoding of any character, whatever follows it. */
  lemma DecodeFirstEncodeChar(c: char, rest: seq<Byte>)
    ensures DecodeFirst(EncodeChar(c) + rest) == Some((c, |EncodeChar(c)|))
  {
    var n := c as int;
    if n < 0x80 {
      assert (EncodeChar(c) + rest)[0] == n;
    } else if n < 0x800 {
      FirstOfTwo(c, rest);
    } else if n < 0x1_0000 {
      FirstOfThree(c, rest);
    } else {
      FirstOfFour(c, rest);
    }
  }

  /** Decoding an encoding gives the string back. */
  lemma {:induction false} DecodeEncode(s: string)
    ensures Decode(Encode(s)) == Some(s)
  {
    if |s| > 0 {
      var e := EncodeChar(s[0]);
      var tail := Encode(s[1..]);
      DecodeFirstEncodeChar(s[0], tail);
      assert (e + tail)[|e|..] == tail;
      DecodeEncode(s[1..]);
      assert [s[0]] + s[1..] == s;
    }
  }

  lemma EncodeTwo(x0: int, x1: int)
    requires 2 <= x0 <= 0x1F && 0 <= x1 < 64
    ensures 0x80 <= x0 * 64 + x1 < 0x800
    ensures EncodeChar((x0 * 64 + x1) as char) == [0xC0 + x0, 0x80 + x1]
  {
    DivMod64(x0, x1);
  }

  lemma EncodeThree(x0: int, x1: int, x2: int)
    requires 0 <= x0 <= 0xF && 0 <= x1 < 64 && 0 <= x2 < 64
    requires 0x800 <= (x0 * 64 + x1) * 64 + x2
    requires !(0xD800 <= (x0 * 64 + x1) * 64 + x2 < 0xE000)
    ensures EncodeChar(((x0 * 64 + x1) * 64 + x2) as char) == [0xE0 + x0, 0x80 + x1, 0x80 + x2]
  {
    var q := x0 * 64 + x1;
    DivMod64(q, x2);
    DivMod64(x0, x1);
  }

  lemma EncodeFour(x0: int, x1: int, x2: int, x3: int)
    requires 0 <= x0 <= 4 && 0 <= x1 < 64 && 0 <= x2 < 64 && 0 <= x3 < 64
    requires 0x1_0000 <= ((x0 * 64 + x1) * 64 + x2) * 64 + x3 < 0x11_0000
    ensures EncodeChar((((x0 * 64 + x1) * 64 + x2) * 64 + x3) as char) == [0xF0 + x0, 0x80 + x1, 0x80 + x2, 0x80 + x3]
  {
    var q1 := x0 * 64 + x1;
    var q2 := q1 * 64 + x2;
    DivMod64(q2, x3);
    DivMod64(q1, x2);
    DivMod64(x0, x1);
  }

  lemma TwoIsEncoding(b: seq<Byte>)
    requires |b| >= 2 && SequenceLength(b[0]) == 2 && DecodeTwo(b[0], b[1]).Some?
    ensures EncodeChar(DecodeTwo(b[0], b[1]).value) == b[..2]
  {
    EncodeTwo(b[0] - 0xC0, b[1] - 0x80);
  }

  lemma ThreeIsEncoding(b: seq<Byte>)
    requires |b| >= 3 && SequenceLength(b[0]) == 3 && DecodeThree(b[0], b[1], b[2]).Some?
    ensures EncodeChar(DecodeThree(b[0], b[1], b[2]).value) == b[..3]
  {
    EncodeThree(b[0] - 0xE0, b[1] - 0x80, b[2] - 0x80);
  }

  lemma FourIsEncoding(b: seq<Byte>)
    requires |b| >= 4 && SequenceLength(b[0]) == 4 && DecodeFour(b[0], b[1], b[2], b[3]).Some?
    ensures EncodeChar(DecodeFour(b[0], b[1], b[2], b[3]).value) == b[..4]
  {
    EncodeFour(b[0] - 0xF0, b[1] - 0x80, b[2] - 0x80, b[3] - 0x80);
  }

  /** A well-formed leading sequence is exactly the encoding of the character it decodes to. */
  lemma EncodeCharDecodeFirst(b: seq<Byte>)
    requires |b| > 0 && DecodeFirst(b).Some?
    ensures EncodeChar(DecodeFirst(b).value.0) == b[..DecodeFirst(b).value.1]
  {
    var n := SequenceLength(b[0]);
    if n == 2 {
      TwoIsEncoding(b);
    } else if n == 3 {
      ThreeIsEncoding(b);
    } else if n == 4 {
      FourIsEncoding(b);
    }
  }

  /** Whatever decodes to `s` is the encoding of `s`: well-formed input has one reading. */
  lemma {:induction false} EncodeDecode(b: seq<Byte>, s: string)
    requires Decode(b) == Some(s)
    ensures Encode(s) == b
    decreases |b|
  {
    if |b| > 0 {
      DecodeCons(b);
      var (c, n) := DecodeFirst(b).value;
      var rest := Decode(b[n..]).value;
      EncodeDecode(b[n..], rest);
      EncodeCharDecodeFirst(b);
      assert s == [c] + rest;
      EncodeGlue(b, s, c, n, rest);
    }
  }

  lemma EncodeGlue(b: seq<Byte>, s: string, c: char, n: nat, rest: string)
    requires 1 <= n <= |b| && s == [c] + rest
    requires EncodeChar(c) == b[..n] && Encode(rest) == b[n..]
    ensures Encode(s) == b
  {
    EncodeCons(s);
    assert s[1..] == rest;
    assert b == b[..n] + b[n..];
  }

  /** A non-empty well-formed input is its first scalar value followed by the decoding of the rest. */
  lemma DecodeCons(b: seq<Byte>)
    requires |b| > 0 && Decode(b).Some?
    ensures DecodeFirst(b).Some?
    ensures Decode(b[DecodeFirst(b).value.1..]).Some?
    ensures Decode(b).value == [DecodeFirst(b).value.0] + Decode(b[DecodeFirst(b).value.1..]).value
  {
  }

  lemma EncodeCons(s: string)
    requires |s| > 0
    ensures Encode(s) == EncodeChar(s[0]) + Encode(s[1..])
  {
  }

  /** `b` is well-formed UTF-8 spelling `s` exactly when `b` is the encoding of `s`. */
  lemma {:induction false} DecodeIffEncode(b: seq<Byte>, s: string)
    ensures Decode(b) == Some(s) <==> Encode(s) == b
  {
    if Decode(b) == Some(s) {
      EncodeDecode(b, s);
    }
    if Encode(s) == b {
      DecodeEncode(s);
    }
  }
}
