/** Hexadecimal text as Python reads and writes it. */
module Hex {
  import opened Bytes

  /** What `bytes.fromhex` skips. */
  predicate IsSpace(c: char) {
    c == ' ' || 9 <= c as int <= 13
  }

  /** What `str.strip` removes. */
  predicate IsWhitespace(c: char) {
    || IsSpace(c) || 0x1C <= c as int <= 0x1F
    || c as int in {0x85, 0xA0, 0x1680, 0x2028, 0x2029, 0x202F, 0x205F, 0x3000} || 0x2000 <= c as int <= 0x200A
  }

  /** `strip` and its two halves. */
  function StripLeft(s: string): string {
    if s != [] && IsWhitespace(s[0]) then StripLeft(s[1..]) else s
  }

  function Strip(s: string): string
    decreases |s|
  {
    var l := StripLeft(s);
    if l != [] && IsWhitespace(l[|l| - 1]) then StripRight(l) else l
  }

  function StripRight(s: string): string {
    if s != [] && IsWhitespace(s[|s| - 1]) then StripRight(s[..|s| - 1]) else s
  }

  predicate IsHexDigit(c: char) {
    '0' <= c <= '9' || 'a' <= c <= 'f' || 'A' <= c <= 'F'
  }

  predicate AllHex(s: string) {
    forall i | 0 <= i < |s| :: IsHexDigit(s[i])
  }

  function DigitValue(c: char): (v: nat)
    requires IsHexDigit(c)
    ensures v < 16
  {
    if '0' <= c <= '9' then c as int - '0' as int
    else if 'a' <= c <= 'f' then c as int - 'a' as int + 10
    else c as int - 'A' as int + 10
  }

  function DigitChar(v: nat): (c: char)
    requires v < 16
    ensures IsHexDigit(c) && DigitValue(c) == v
  {
    if v < 10 then ('0' as int + v) as char else ('a' as int + v - 10) as char
  }

  function LowerChar(c: char): char {
    if 'A' <= c <= 'F' then (c as int - 'A' as int + 'a' as int) as char else c
  }

  function Lower(s: string): (l: string)
    ensures |l| == |s|
  {
    seq(|s|, i requires 0 <= i < |s| => LowerChar(s[i]))
  }

  function PairValue(hi: char, lo: char): byte
    requires IsHexDigit(hi) && IsHexDigit(lo)
  {
    16 * DigitValue(hi) + DigitValue(lo)
  }

  /** `bytes.fromhex`: digit pairs, with white space allowed between (not inside) them. */
  function FromHex(s: string): Option<seq<byte>> {
    if s == [] then Some([])
    else if IsSpace(s[0]) then FromHex(s[1..])
    else if |s| < 2 || !IsHexDigit(s[0]) || !IsHexDigit(s[1]) then None
    else
      match FromHex(s[2..])
      case None => None
      case Some(rest) => Some([PairValue(s[0], s[1])] + rest)
  }

  /** `v` in lowercase hexadecimal, zero-padded to `n` digits. */
  function Digits(v: nat, n: nat): (s: string)
    ensures |s| == n
  {
    if n == 0 then "" else Digits(v / 16, n - 1) + [DigitChar(v % 16)]
  }

  /** `zfill(n)` on a string without a sign. */
  function ZFill(s: string, n: nat): string {
    if |s| >= n then s else seq(n - |s|, i => '0') + s
  }

  function Pairs(s: string): (bytes: seq<byte>)
    requires AllHex(s) && |s| % 2 == 0
    ensures |bytes| == |s| / 2
  {
    seq(|s| / 2, i requires 0 <= i < |s| / 2 => PairValue(s[2 * i], s[2 * i + 1]))
  }

  /** Without white space, reading hex is reading its digit pairs. */
  lemma {:induction false} FromHexPairs(s: string)
    requires AllHex(s) && |s| % 2 == 0
    ensures FromHex(s) == Some(Pairs(s))
    decreases |s|
  {
    if s != [] {
      assert !IsSpace(s[0]);
      FromHexPairs(s[2..]);
      assert [PairValue(s[0], s[1])] + Pairs(s[2..]) == Pairs(s);
    }
  }

  lemma DigitsStep(high: nat, hi: char, lo: char, n: nat)
    requires IsHexDigit(hi) && IsHexDigit(lo)
    ensures Digits(256 * high + PairValue(hi, lo), n + 2) == Digits(high, n) + [LowerChar(hi), LowerChar(lo)]
  {
    var v := 256 * high + PairValue(hi, lo);
    assert v % 16 == DigitValue(lo) && v / 16 == 16 * high + DigitValue(hi);
    assert (v / 16) % 16 == DigitValue(hi) && v / 16 / 16 == high;
    assert Digits(v, n + 2) == Digits(v / 16, n + 1) + [DigitChar(DigitValue(lo))];
    assert Digits(v / 16, n + 1) == Digits(high, n) + [DigitChar(DigitValue(hi))];
  }

  /** Hex text read as bytes and printed back as a number is the same text in lower case. */
  lemma HexRoundTrip(s: string)
    requires AllHex(s) && |s| % 2 == 0
    ensures FromHex(s).Some? && |FromHex(s).value| == |s| / 2
    ensures Digits(FromBigEndian(FromHex(s).value), |s|) == Lower(s)
  {
    FromHexPairs(s);
    PairsRoundTrip(s);
  }

  lemma FromBigEndianSnoc(front: seq<byte>, last: byte)
    ensures FromBigEndian(front + [last]) == 256 * FromBigEndian(front) + last
  {
    assert (front + [last])[..|front|] == front;
  }

  predicate PrintsBack(s: string)
    requires AllHex(s) && |s| % 2 == 0
  {
    Printed(s) == Lower(s)
  }

  /** The bytes that hex text stands for, as one number, printed at the width of the text. */
  function Printed(s: string): string
    requires AllHex(s) && |s| % 2 == 0
  {
    Digits(FromBigEndian(Pairs(s)), |s|)
  }

  lemma PairsStep(s: string)
    requires AllHex(s) && |s| % 2 == 0 && s != []
    ensures var n := |s| - 2;
            FromBigEndian(Pairs(s)) == 256 * FromBigEndian(Pairs(s[..n])) + PairValue(s[n], s[n + 1])
  {
    var n := |s| - 2;
    assert Pairs(s) == Pairs(s[..n]) + [PairValue(s[n], s[n + 1])];
    FromBigEndianSnoc(Pairs(s[..n]), PairValue(s[n], s[n + 1]));
  }

  lemma PrintedStep(s: string)
    requires AllHex(s) && |s| % 2 == 0 && s != []
    ensures var n := |s| - 2; Printed(s) == Printed(s[..n]) + [LowerChar(s[n]), LowerChar(s[n + 1])]
  {
    var n := |s| - 2;
    PairsStep(s);
    DigitsStep(FromBigEndian(Pairs(s[..n])), s[n], s[n + 1], n);
  }

  lemma LowerStep(s: string)
    requires |s| >= 2
    ensures var n := |s| - 2; Lower(s) == Lower(s[..n]) + [LowerChar(s[n]), LowerChar(s[n + 1])]
  {
  }

  lemma {:induction false} PairsRoundTrip(s: string)
    requires AllHex(s) && |s| % 2 == 0
    ensures PrintsBack(s)
    decreases |s|
  {
    if s != [] {
      var n := |s| - 2;
      PairsRoundTrip(s[..n]);
      PrintedStep(s);
      LowerStep(s);
    }
  }

  /** Fixed-width hexadecimal distinguishes all numbers that fit. */
  lemma {:induction false} DigitsInjective(a: nat, b: nat, n: nat)
    requires a < Pow16(n) && b < Pow16(n)
    requires Digits(a, n) == Digits(b, n)
    ensures a == b
  {
    if n > 0 {
      assert Digits(a, n)[n - 1] == DigitChar(a % 16) && Digits(b, n)[n - 1] == DigitChar(b % 16);
      assert Digits(a, n)[..n - 1] == Digits(a / 16, n - 1);
      assert Digits(b, n)[..n - 1] == Digits(b / 16, n - 1);
      DigitsInjective(a / 16, b / 16, n - 1);
    }
  }

  function Pow16(n: nat): nat { if n == 0 then 1 else 16 * Pow16(n - 1) }

  lemma {:induction false} DigitsAreHex(v: nat, n: nat)
    ensures AllHex(Digits(v, n))
  {
    if n > 0 { DigitsAreHex(v / 16, n - 1); }
  }
}
