/** Bytes, 64-bit and 32-bit unsigned ranges, and the decimal numerals the C printers emit. */
module Bytes {
  type byte = b: int | 0 <= b < 256
  type u32 = n: int | 0 <= n < 0x1_0000_0000
  type u64 = n: int | 0 <= n < 0x1_0000_0000_0000_0000
  type i64 = n: int | -0x8000_0000_0000_0000 <= n < 0x8000_0000_0000_0000

  const U32_MAX: u32 := 0xFFFF_FFFF

  const LINE_FEED: byte := 10

  datatype Option<+T> = None | Some(value: T)

  /** What a reader made of the front of its input, and what is left. */
  datatype Parsed<+T> = Failed | Parsed(value: T, rest: seq<byte>)

  /** The bytes of an ASCII literal. */
  function Ascii(s: string): (r: seq<byte>)
    ensures |r| == |s|
    ensures forall i :: 0 <= i < |s| ==> r[i] == s[i] as int % 256
  {
    seq(|s|, i requires 0 <= i < |s| => s[i] as int % 256)
  }

  predicate IsDigit(b: byte) { 48 <= b <= 57 }

  predicate AllDigits(s: seq<byte>) { forall i :: 0 <= i < |s| ==> IsDigit(s[i]) }

  function Pow10(k: nat): (p: nat)
    ensures p > 0
  {
    if k == 0 then 1 else 10 * Pow10(k - 1)
  }

  /** The numeral "%u" and "%llu" print: no sign, no leading zero. */
  function Decimal(n: nat): (r: seq<byte>)
    ensures |r| > 0 && AllDigits(r)
    ensures n > 0 ==> r[0] != 48
    ensures n == 0 ==> r == [48]
  {
    if n < 10 then [48 + n] else Decimal(n / 10) + [48 + n % 10]
  }

  /** The numeral "%lld" prints. */
  function SignedDecimal(n: int): seq<byte> {
    if n < 0 then [45] + Decimal(-n) else Decimal(n)
  }

  /** The value of a digit string. */
  function DigitsValue(s: seq<byte>): nat
    requires AllDigits(s)
  {
    if s == [] then 0 else DigitsValue(s[..|s| - 1]) * 10 + (s[|s| - 1] - 48)
  }

  /** The value of an optionally negative digit string. */
  function NumeralValue(s: seq<byte>): Option<int> {
    if s != [] && s[0] == 45 && |s| > 1 && AllDigits(s[1..]) then Some(-(DigitsValue(s[1..]) as int))
    else if s != [] && AllDigits(s) then Some(DigitsValue(s))
    else None
  }

  lemma {:induction false} DecimalRoundTrip(n: nat)
    ensures DigitsValue(Decimal(n)) == n
  {
    var s := Decimal(n);
    if n >= 10 {
      DecimalRoundTrip(n / 10);
      assert s[..|s| - 1] == Decimal(n / 10);
    } else {
      assert s[..|s| - 1] == [];
    }
  }

  lemma SignedDecimalRoundTrip(n: int)
    ensures NumeralValue(SignedDecimal(n)) == Some(n)
  {
    if n < 0 {
      DecimalRoundTrip(-n);
      assert SignedDecimal(n)[1..] == Decimal(-n);
    } else {
      DecimalRoundTrip(n);
    }
  }

  lemma {:induction false} DecimalLength(n: nat, k: nat)
    requires k > 0 && n < Pow10(k)
    ensures |Decimal(n)| <= k
  {
    if n >= 10 {
      assert k > 1 by {
        assert Pow10(1) == 10 * Pow10(0);
      }
      DecimalLength(n / 10, k - 1);
    }
  }

  /** A u32 prints in at most 10 bytes, a u64 in at most 20, an i64 in at most 20:
      the 32-byte scratch buffers of the C printers never overflow. */
  lemma NumeralLengths()
    ensures forall n: u32 :: |Decimal(n)| <= 10
    ensures forall n: u64 :: |Decimal(n)| <= 20
    ensures forall n: i64 :: |SignedDecimal(n)| <= 20
  {
    Pow10Values();
    forall n: u32 ensures |Decimal(n)| <= 10 { DecimalLength(n, 10); }
    forall n: u64 ensures |Decimal(n)| <= 20 { DecimalLength(n, 20); }
    forall n: i64 ensures |SignedDecimal(n)| <= 20 {
      if n < 0 { DecimalLength(-(n as int), 19); } else { DecimalLength(n, 19); }
    }
  }

  lemma Pow10Values()
    ensures Pow10(10) == 10_000_000_000
    ensures Pow10(19) == 10_000_000_000_000_000_000
    ensures Pow10(20) == 100_000_000_000_000_000_000
  {
    assert Pow10(5) == 100_000;
    assert Pow10(10) == 10_000_000_000;
    assert Pow10(15) == 1_000_000_000_000_000;
    assert Pow10(19) == 10_000_000_000_000_000_000;
  }
}
