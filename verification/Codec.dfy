/** Hexadecimal and decimal printing and parsing. */
module Codec {
  import opened Basics

  const HEX_DIGITS := "0123456789abcdef"

  predicate IsHex(c: char) {
    '0' <= c <= '9' || 'a' <= c <= 'f' || 'A' <= c <= 'F'
  }

  predicate AllHex(s: string) {
    forall i | 0 <= i < |s| :: IsHex(s[i])
  }

  function HexValue(c: char): (v: nat)
    requires IsHex(c)
    ensures v < 16
  {
    if c <= '9' then c as int - '0' as int
    else if c <= 'F' then c as int - 'A' as int + 10
    else c as int - 'a' as int + 10
  }

  /** The character `%02x` prints at position `i` of the text for `bytes`. */
  function HexAt(bytes: seq<byte>, i: nat): char
    requires i < 2 * |bytes|
  {
    HEX_DIGITS[if i % 2 == 0 then bytes[i / 2] / 16 else bytes[i / 2] % 16]
  }

  /** Two lower-case hexadecimal digits for every byte. */
  function ToHex(bytes: seq<byte>): (s: string)
    ensures |s| == 2 * |bytes|
  {
    seq(2 * |bytes|, i requires 0 <= i < 2 * |bytes| => HexAt(bytes, i))
  }

  /** One byte for every two digits; an odd last digit is dropped. */
  function FromHex(s: string): (bytes: seq<byte>)
    requires AllHex(s)
    ensures |bytes| == |s| / 2
  {
    seq(|s| / 2, i requires 0 <= i < |s| / 2 => 16 * HexValue(s[2 * i]) + HexValue(s[2 * i + 1]))
  }

  predicate IsLowerHex(c: char) {
    '0' <= c <= '9' || 'a' <= c <= 'f'
  }

  lemma HexAtIsLowerHex(bytes: seq<byte>, i: nat)
    requires i < 2 * |bytes|
    ensures IsLowerHex(HexAt(bytes, i)) && IsHex(HexAt(bytes, i))
    ensures HexValue(HexAt(bytes, i)) == if i % 2 == 0 then bytes[i / 2] / 16 else bytes[i / 2] % 16
  {
    var d := if i % 2 == 0 then bytes[i / 2] / 16 else bytes[i / 2] % 16;
    assert 0 <= d < 16;
    HexDigitValue(d);
  }

  lemma HexDigitValue(d: nat)
    requires d < 16
    ensures IsLowerHex(HEX_DIGITS[d]) && HexValue(HEX_DIGITS[d]) == d
    ensures HEX_DIGITS[d] == if d < 10 then '0' + d as char else 'a' + (d - 10) as char
  {
    if d < 10 {
      assert HEX_DIGITS[d] == '0' + d as char;
    } else {
      assert HEX_DIGITS[d] == 'a' + (d - 10) as char;
    }
  }

  lemma ToHexIsHex(bytes: seq<byte>)
    ensures AllHex(ToHex(bytes))
    ensures forall i | 0 <= i < |ToHex(bytes)| :: IsLowerHex(ToHex(bytes)[i])
  {
    forall i | 0 <= i < 2 * |bytes| ensures IsLowerHex(ToHex(bytes)[i]) {
      HexAtIsLowerHex(bytes, i);
    }
  }

  lemma HexRoundTrip(bytes: seq<byte>)
    ensures AllHex(ToHex(bytes)) && FromHex(ToHex(bytes)) == bytes
  {
    ToHexIsHex(bytes);
    var s := ToHex(bytes);
    forall i | 0 <= i < |bytes| ensures FromHex(s)[i] == bytes[i] {
      HexAtIsLowerHex(bytes, 2 * i);
      HexAtIsLowerHex(bytes, 2 * i + 1);
      assert (2 * i) / 2 == i && (2 * i + 1) / 2 == i;
      assert s[2 * i] == HexAt(bytes, 2 * i) && s[2 * i + 1] == HexAt(bytes, 2 * i + 1);
    }
  }

  /** What has been printed after one more byte. */
  lemma ToHexAppend(bytes: seq<byte>, b: byte)
    ensures ToHex(bytes + [b]) == ToHex(bytes) + [HEX_DIGITS[b / 16], HEX_DIGITS[b % 16]]
  {
    var all := bytes + [b];
    forall i | 0 <= i < 2 * |all|
      ensures ToHex(all)[i] == (ToHex(bytes) + [HEX_DIGITS[b / 16], HEX_DIGITS[b % 16]])[i]
    {
      if i < 2 * |bytes| {
        assert all[i / 2] == bytes[i / 2];
      } else {
        assert i / 2 == |bytes|;
      }
    }
  }

  predicate IsDigit(c: char) {
    '0' <= c <= '9'
  }

  predicate AllDigits(s: string) {
    forall i | 0 <= i < |s| :: IsDigit(s[i])
  }

  /** `std::to_string` on a non-negative number. */
  function ToDecimal(n: nat): (s: string)
    ensures |s| > 0 && AllDigits(s)
  {
    var last := [HEX_DIGITS[n % 10]];
    if n < 10 then last else ToDecimal(n / 10) + last
  }

  function FromDecimal(s: string): nat
    requires AllDigits(s)
  {
    if s == "" then 0
    else 10 * FromDecimal(s[..|s| - 1]) + (s[|s| - 1] as int - '0' as int)
  }

  lemma {:induction false} DecimalRoundTrip(n: nat)
    ensures FromDecimal(ToDecimal(n)) == n
  {
    var s := ToDecimal(n);
    if n < 10 {
      assert s[..|s| - 1] == "";
    } else {
      DecimalRoundTrip(n / 10);
      assert s[..|s| - 1] == ToDecimal(n / 10);
    }
  }

  /** A printed number followed by a non-digit can be read back in one way only. */
  lemma DecimalThenStop(a: nat, b: nat, x: string, y: string)
    requires x != "" && y != "" && !IsDigit(x[0]) && !IsDigit(y[0])
    requires ToDecimal(a) + x == ToDecimal(b) + y
    ensures a == b && x == y
  {
    var p, q := ToDecimal(a), ToDecimal(b);
    var s := p + x;
    assert s == q + y;
    assert forall i | 0 <= i < |p| :: IsDigit(s[i]);
    assert forall i | 0 <= i < |q| :: IsDigit(s[i]);
    assert s[|p|] == x[0] && s[|q|] == y[0];
    assert p == s[..|p|] && q == s[..|p|];
    assert x == s[|p|..] && y == s[|p|..];
    DecimalRoundTrip(a);
    DecimalRoundTrip(b);
  }

  const INT_MAX := 0x7fff_ffff

  /** `std::stoi` on a string of digits: no digits and overflow both throw. */
  function Stoi(s: string): Option<nat>
    requires AllDigits(s)
  {
    if s == "" || FromDecimal(s) > INT_MAX then None else Some(FromDecimal(s))
  }

  /** Printing is positional, in base ten. */
  lemma DecimalDigits(n: nat)
    ensures n < 10 ==> ToDecimal(n) == ['0' + n as char]
    ensures n >= 10 ==> ToDecimal(n) == ToDecimal(n / 10) + ['0' + (n % 10) as char]
  {
    HexDigitValue(n % 10);
  }

  function HexDigit(d: nat): char
    requires d < 16
  {
    if d < 10 then '0' + d as char else 'a' + (d - 10) as char
  }

  /** A byte is printed as its two hexadecimal digits, and bytes one after the other. */
  lemma HexDigits(a: seq<byte>, b: byte)
    ensures ToHex([b]) == [HexDigit(b / 16), HexDigit(b % 16)]
    ensures ToHex(a + [b]) == ToHex(a) + ToHex([b])
    ensures ToHex([]) == ""
  {
    HexDigitValue(b / 16);
    HexDigitValue(b % 16);
    ToHexAppend([], b);
    assert [] + [b] == [b] && ToHex([]) == "";
    ToHexAppend(a, b);
  }
}
