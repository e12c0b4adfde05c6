// Positional numerals: the decimal digits of version numbers and shard names and
// the hexadecimal digits of chunk sizes and archive headers, with their readers.
module Numerals {

  // The digits of n in the given base, most significant first; zero is one digit.
  function Digits(n: nat, base: nat): (ds: seq<nat>)
    requires base >= 2
    ensures |ds| >= 1
    ensures forall i :: 0 <= i < |ds| ==> ds[i] < base
  {
    if n < base then [n]
    else
      DivSmaller(n, base);
      Digits(n / base, base) + [n % base]
  }

  lemma DivSmaller(n: nat, base: nat)
    requires base >= 2 && n >= base
    ensures n / base < n
  {
    var q := n / base;
    DivMod(n, base);
    assert q * base >= q * 2;
  }

  // The number a digit string stands for.
  function Value(ds: seq<nat>, base: nat): nat
  {
    if |ds| == 0 then 0 else Value(ds[..|ds| - 1], base) * base + ds[|ds| - 1]
  }

  function Zeros(k: nat): (ds: seq<nat>)
    ensures |ds| == k
  {
    seq(k, i => 0)
  }

  function Pow(base: nat, k: nat): nat {
    if k == 0 then 1 else base * Pow(base, k - 1)
  }

  lemma DivMod(n: nat, base: nat)
    requires base >= 2
    ensures n == (n / base) * base + n % base
  {
  }

  lemma ValueAppend(ds: seq<nat>, d: nat, base: nat)
    ensures Value(ds + [d], base) == Value(ds, base) * base + d
  {
    assert (ds + [d])[..|ds|] == ds;
  }

  lemma {:induction false} ValueOfDigits(n: nat, base: nat)
    requires base >= 2
    ensures Value(Digits(n, base), base) == n
  {
    if n < base {
      ValueAppend([], n, base);
      assert [] + [n] == [n];
    } else {
      ValueOfDigits(n / base, base);
      ValueAppend(Digits(n / base, base), n % base, base);
      DivMod(n, base);
    }
  }

  // Leading zeros, as a fixed-width field writes them, do not change the value.
  lemma {:induction false} ValueOfPadded(k: nat, ds: seq<nat>, base: nat)
    ensures Value(Zeros(k) + ds, base) == Value(ds, base)
    decreases k, |ds|
  {
    var all := Zeros(k) + ds;
    if |ds| > 0 {
      assert all[..|all| - 1] == Zeros(k) + ds[..|ds| - 1];
      ValueOfPadded(k, ds[..|ds| - 1], base);
    } else if k > 0 {
      assert all[..|all| - 1] == Zeros(k - 1) + ds;
      ValueOfPadded(k - 1, ds, base);
    }
  }

  // A number below base^k has at most k digits.
  lemma {:induction false} DigitsFit(n: nat, base: nat, k: nat)
    requires base >= 2 && k >= 1 && n < Pow(base, k)
    ensures |Digits(n, base)| <= k
  {
    assert Pow(base, 1) == base;
    if n >= base {
      DividesDown(n, base, Pow(base, k - 1));
      DigitsFit(n / base, base, k - 1);
    }
  }

  lemma DividesDown(n: nat, base: nat, p: nat)
    requires base >= 2 && n < base * p
    ensures n / base < p
  {
    DivMod(n, base);
    if n / base >= p {
      MulMono(base, p, n / base);
    }
  }

  lemma MulMono(base: nat, p: nat, q: nat)
    requires p <= q
    ensures base * p <= base * q
  {
  }

  // ---- decimal text ----

  predicate IsDecimal(c: char) { '0' <= c <= '9' }

  function DigitValue(c: char): nat
    requires IsDecimal(c)
  {
    c as int - '0' as int
  }

  function DecimalDigit(d: nat): char {
    if d < 10 then '0' + d as char else '?'
  }

  function Decimal(n: nat): (text: string)
    ensures |text| >= 1
    ensures forall i :: 0 <= i < |text| ==> IsDecimal(text[i])
  {
    var ds := Digits(n, 10);
    seq(|ds|, i requires 0 <= i < |ds| => DecimalDigit(ds[i]))
  }

  function DecimalValue(text: string): nat
    requires forall i :: 0 <= i < |text| ==> IsDecimal(text[i])
  {
    Value(seq(|text|, i requires 0 <= i < |text| && IsDecimal(text[i]) => DigitValue(text[i])), 10)
  }

  // int(str(n)) == n
  lemma DecimalRoundTrip(n: nat)
    ensures DecimalValue(Decimal(n)) == n
  {
    var text, ds := Decimal(n), Digits(n, 10);
    forall i | 0 <= i < |text| ensures DigitValue(text[i]) == ds[i] {
      assert text[i] == DecimalDigit(ds[i]);
    }
    assert seq(|text|, i requires 0 <= i < |text| && IsDecimal(text[i]) => DigitValue(text[i])) == ds;
    ValueOfDigits(n, 10);
  }

  // How many characters at the front of the text are decimal digits.
  function LeadingDigits(text: string): (k: nat)
    ensures k <= |text|
    ensures forall i :: 0 <= i < k ==> IsDecimal(text[i])
    ensures k < |text| ==> !IsDecimal(text[k])
  {
    if |text| > 0 && IsDecimal(text[0]) then 1 + LeadingDigits(text[1..]) else 0
  }

  // A numeral followed by anything that is not a digit is read back whole.
  lemma {:induction false} LeadingDigitsOf(numeral: string, rest: string)
    requires forall i :: 0 <= i < |numeral| ==> IsDecimal(numeral[i])
    requires rest == [] || !IsDecimal(rest[0])
    ensures LeadingDigits(numeral + rest) == |numeral|
  {
    if numeral == [] {
      assert numeral + rest == rest;
    } else {
      LeadingDigitsOf(numeral[1..], rest);
      assert (numeral + rest)[1..] == numeral[1..] + rest;
    }
  }

  // ---- hexadecimal bytes ----

  type byte = b: int | 0 <= b < 256

  function HexByte(d: nat): byte {
    if d < 10 then 0x30 + d else if d < 16 then 0x61 + (d - 10) else 0x3f
  }

  // A hexadecimal digit in either case, as RFC 9112 and cpio(5) read them.
  function HexDigit(b: byte): (d: int)
    ensures d == -1 || 0 <= d < 16
  {
    if 0x30 <= b <= 0x39 then b - 0x30
    else if 0x61 <= b <= 0x66 then b - 0x61 + 10
    else if 0x41 <= b <= 0x46 then b - 0x41 + 10
    else -1
  }

  predicate IsHex(bs: seq<byte>) {
    forall i :: 0 <= i < |bs| ==> HexDigit(bs[i]) >= 0
  }

  function ToHex(ds: seq<nat>): (bs: seq<byte>)
    ensures |bs| == |ds|
  {
    seq(|ds|, i requires 0 <= i < |ds| => HexByte(ds[i]))
  }

  // f"{n:x}"
  function Hex(n: nat): (bs: seq<byte>)
    ensures |bs| >= 1
  {
    ToHex(Digits(n, 16))
  }

  // f"{n:08x}": padded to eight digits, longer when the number needs more.
  function Hex8(n: nat): (bs: seq<byte>)
    ensures |bs| >= 8
  {
    var ds := Digits(n, 16);
    ToHex(Zeros(if |ds| < 8 then 8 - |ds| else 0) + ds)
  }

  function HexValue(bs: seq<byte>): nat
    requires IsHex(bs)
  {
    Value(seq(|bs|, i requires 0 <= i < |bs| => HexDigit(bs[i]) as nat), 16)
  }

  lemma HexValueOf(ds: seq<nat>)
    requires forall i :: 0 <= i < |ds| ==> ds[i] < 16
    ensures IsHex(ToHex(ds)) && HexValue(ToHex(ds)) == Value(ds, 16)
  {
    var bs := ToHex(ds);
    assert forall i :: 0 <= i < |bs| ==> HexDigit(bs[i]) == ds[i];
    assert seq(|bs|, i requires 0 <= i < |bs| => HexDigit(bs[i]) as nat) == ds;
  }

  lemma HexRoundTrip(n: nat)
    ensures IsHex(Hex(n)) && HexValue(Hex(n)) == n
  {
    HexValueOf(Digits(n, 16));
    ValueOfDigits(n, 16);
  }

  // A field below 2^32 is exactly eight digits and reads back as itself.
  lemma Hex8RoundTrip(n: nat)
    requires n < 0x1_0000_0000
    ensures |Hex8(n)| == 8 && IsHex(Hex8(n)) && HexValue(Hex8(n)) == n
  {
    assert Pow(16, 8) == 0x1_0000_0000 by {
      assert Pow(16, 2) == 16 * Pow(16, 1);
      assert Pow(16, 4) == 16 * (16 * Pow(16, 2));
      assert Pow(16, 6) == 16 * (16 * Pow(16, 4));
      assert Pow(16, 8) == 16 * (16 * Pow(16, 6));
    }
    DigitsFit(n, 16, 8);
    var ds := Digits(n, 16);
    var k := if |ds| < 8 then 8 - |ds| else 0;
    HexValueOf(Zeros(k) + ds);
    ValueOfPadded(k, ds, 16);
    ValueOfDigits(n, 16);
  }
}
