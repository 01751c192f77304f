/**
 * 128-bit message identifiers and their canonical text form, the lower-case
 * hyphenated 8-4-4-4-12 layout produced by Rust's `Uuid::to_string`. The full
 * grammars accepted by the `uuid` crate's `Uuid::from_str` and by Java's
 * `UUID.fromString` are not modelled: the stores take their parser as a
 * parameter of type `Parser`. `ParseHyphenated` is the layout both of them
 * accept, and it reads every formatted identifier back.
 */
module Uuid {
  import opened Wrappers

  const Bound: nat := 0x1_0000_0000_0000_0000_0000_0000_0000_0000

  /** A 128-bit identifier. */
  type Uuid = n: nat | n < Bound

  /** A UUID parser: the identifier, or the text of the error it raises. */
  type Parser = string -> Result<Uuid, string>

  function Pow16(w: nat): nat
  {
    if w == 0 then 1 else 16 * Pow16(w - 1)
  }

  /** Lower-case hexadecimal digit for `d`. */
  function HexDigit(d: nat): char
    requires d < 16
  {
    if d < 10 then ('0' as int + d) as char else ('a' as int + d - 10) as char
  }

  /** Value of a hexadecimal digit of either case. */
  function HexValue(c: char): Option<nat>
  {
    if '0' <= c <= '9' then Some(c as int - '0' as int)
    else if 'a' <= c <= 'f' then Some(c as int - 'a' as int + 10)
    else if 'A' <= c <= 'F' then Some(c as int - 'A' as int + 10)
    else None
  }

  /** The `w` low hexadecimal digits of `n`, most significant first. */
  function ToHex(n: nat, w: nat): (s: string)
    ensures |s| == w
  {
    if w == 0 then "" else ToHex(n / 16, w - 1) + [HexDigit(n % 16)]
  }

  /** The value of a string of hexadecimal digits, most significant first. */
  function FromHex(s: string): (r: Option<nat>)
    ensures r.Some? ==> r.value < Pow16(|s|)
  {
    if |s| == 0 then Some(0)
    else
      match (FromHex(s[..|s| - 1]), HexValue(s[|s| - 1]))
      case (Some(hi), Some(lo)) => Some(hi * 16 + lo)
      case _ => None
  }

  lemma HexDigitValue(d: nat)
    requires d < 16
    ensures HexValue(HexDigit(d)) == Some(d)
  {
  }

  /** Reading back `w` formatted digits gives the number, when it fits in `w` digits. */
  lemma {:induction false} HexRoundTrip(n: nat, w: nat)
    requires n < Pow16(w)
    ensures FromHex(ToHex(n, w)) == Some(n)
  {
    if w > 0 {
      var s := ToHex(n, w);
      assert s[..w - 1] == ToHex(n / 16, w - 1);
      HexRoundTrip(n / 16, w - 1);
      HexDigitValue(n % 16);
    }
  }

  lemma {:induction false} Pow16Add(a: nat, b: nat)
    ensures Pow16(a + b) == Pow16(a) * Pow16(b)
  {
    if a > 0 {
      Pow16Add(a - 1, b);
    }
  }

  lemma Pow16Is128Bits()
    ensures Pow16(32) == Bound
  {
    assert Pow16(1) == 16;
    Pow16Add(1, 1);
    Pow16Add(2, 2);
    Pow16Add(4, 4);
    Pow16Add(8, 8);
    Pow16Add(16, 16);
  }

  /** `msg_id.to_string()`: 36 characters, 32 lower-case digits in groups 8-4-4-4-12. */
  function Format(u: Uuid): (s: string)
    ensures |s| == 36
    ensures s[8] == '-' && s[13] == '-' && s[18] == '-' && s[23] == '-'
  {
    var h := ToHex(u, 32);
    h[0..8] + "-" + h[8..12] + "-" + h[12..16] + "-" + h[16..20] + "-" + h[20..32]
  }

  /** The 32 digits of a 36-character hyphenated layout, without the hyphens. */
  function Digits(s: string): (d: string)
    requires |s| == 36
    ensures |d| == 32
  {
    s[0..8] + s[9..13] + s[14..18] + s[19..23] + s[24..36]
  }

  /** Accepts exactly the hyphenated 8-4-4-4-12 layout, with digits of either case. */
  function ParseHyphenated(s: string): (r: Result<Uuid, string>)
    ensures r.Success? ==> |s| == 36 && s[8] == '-' && s[13] == '-' && s[18] == '-' && s[23] == '-'
    ensures r.Success? ==> forall i :: 0 <= i < 36 && i !in {8, 13, 18, 23} ==> HexValue(s[i]).Some?
  {
    if |s| != 36 || s[8] != '-' || s[13] != '-' || s[18] != '-' || s[23] != '-' then
      Failure("Invalid UUID string: " + s)
    else
      match FromHex(Digits(s))
      case None => Failure("Invalid UUID string: " + s)
      case Some(n) =>
        Pow16Is128Bits();
        DigitsAllHex(s);
        Success(n)
  }

  /** Where the digits of a 36-character layout sit in `Digits`. */
  function DigitIndex(i: nat): nat
    requires i < 36 && i !in {8, 13, 18, 23}
  {
    if i < 8 then i else if i < 13 then i - 1 else if i < 18 then i - 2 else if i < 23 then i - 3 else i - 4
  }

  lemma {:induction false} FromHexAllDigits(d: string, j: nat)
    requires FromHex(d).Some?
    requires j < |d|
    ensures HexValue(d[j]).Some?
  {
    if j < |d| - 1 {
      FromHexAllDigits(d[..|d| - 1], j);
    }
  }

  lemma DigitsAllHex(s: string)
    requires |s| == 36
    requires FromHex(Digits(s)).Some?
    ensures forall i :: 0 <= i < 36 && i !in {8, 13, 18, 23} ==> HexValue(s[i]).Some?
  {
    forall i | 0 <= i < 36 && i !in {8, 13, 18, 23}
      ensures HexValue(s[i]).Some?
    {
      assert Digits(s)[DigitIndex(i)] == s[i];
      FromHexAllDigits(Digits(s), DigitIndex(i));
    }
  }

  /** Every formatted identifier reads back as itself. */
  lemma FormatRoundTrip(u: Uuid)
    ensures ParseHyphenated(Format(u)) == Success(u)
  {
    var h := ToHex(u, 32);
    var s := Format(u);
    assert s[0..8] == h[0..8];
    assert s[9..13] == h[8..12];
    assert s[14..18] == h[12..16];
    assert s[19..23] == h[16..20];
    assert s[24..36] == h[20..32];
    assert h == h[0..8] + h[8..12] + h[12..16] + h[16..20] + h[20..32];
    assert Digits(s) == h;
    Pow16Is128Bits();
    HexRoundTrip(u, 32);
  }

  /** Distinct identifiers have distinct text forms. */
  lemma FormatInjective(u: Uuid, v: Uuid)
    requires Format(u) == Format(v)
    ensures u == v
  {
    FormatRoundTrip(u);
    FormatRoundTrip(v);
  }
}
