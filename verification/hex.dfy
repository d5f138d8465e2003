/**
 * Upper-case hexadecimal formatting, as `String(format: "%06X", n)` does it,
 * and the inverse parser that the round-trip properties are stated against.
 */
module Hex {
  import opened Wrappers
  import Arith

  const Digits: string := "0123456789ABCDEF"

  predicate IsUpperHexDigit(c: char) {
    '0' <= c <= '9' || 'A' <= c <= 'F'
  }

  /** The value of one hexadecimal digit of either case; `None` for any other character. */
  function DigitValue(c: char): (r: Option<nat>)
    ensures r.Some? <==> IsUpperHexDigit(c) || 'a' <= c <= 'f'
    ensures r.Some? ==> r.value < 16
  {
    if '0' <= c <= '9' then Some(c as int - '0' as int)
    else if 'A' <= c <= 'F' then Some(c as int - 'A' as int + 10)
    else if 'a' <= c <= 'f' then Some(c as int - 'a' as int + 10)
    else None
  }

  /** The upper-case digit for `d`; reading it back gives `d`. */
  function DigitChar(d: nat): (c: char)
    requires d < 16
    ensures IsUpperHexDigit(c)
    ensures DigitValue(c) == Some(d)
  {
    Digits[d]
  }

  /** Sixteen to the power `k`. */
  function Power16(k: nat): (p: nat)
    ensures p >= 1
  {
    if k == 0 then 1 else 16 * Power16(k - 1)
  }

  predicate AllUpperHexDigits(s: string) {
    forall i :: 0 <= i < |s| ==> IsUpperHexDigit(s[i])
  }

  /** The digits of `n` in base sixteen, most significant first, without leading zeros. */
  function ToHex(n: nat): (s: string)
    ensures 1 <= |s|
    ensures AllUpperHexDigits(s)
    ensures n >= 16 ==> s[0] != '0'
    decreases n
  {
    if n < 16 then [DigitChar(n)] else ToHex(n / 16) + [DigitChar(n % 16)]
  }

  /** One digit more: the numeral of `16 * q + d` is the numeral of `q` followed by the digit `d`. */
  lemma ToHexStep(n: nat, q: nat, d: nat)
    requires 1 <= q && d < 16 && n == 16 * q + d
    ensures ToHex(n) == ToHex(q) + [Digits[d]]
  {
    Arith.DivModUnique(n, 16, q, d);
  }

  function Zeros(k: nat): (z: string)
    ensures |z| == k
    ensures forall i :: 0 <= i < k ==> z[i] == '0'
  {
    if k == 0 then [] else Zeros(k - 1) + ['0']
  }

  /**
   * `"%06X"`: the digits of `n`, left-padded with zeros to at least six
   * characters; never truncated.
   */
  function Format06X(n: nat): (s: string)
    ensures |s| == if |ToHex(n)| < 6 then 6 else |ToHex(n)|
    ensures AllUpperHexDigits(s)
  {
    if |ToHex(n)| >= 6 then ToHex(n) else Zeros(6 - |ToHex(n)|) + ToHex(n)
  }

  /** The value of a run of hexadecimal digits; the empty run is zero. */
  function ParseDigits(s: string): (r: Option<nat>)
    ensures r.None? <==> exists i :: 0 <= i < |s| && DigitValue(s[i]).None?
  {
    if |s| == 0 then Some(0)
    else
      var init := ParseDigits(s[..|s| - 1]);
      var last := DigitValue(s[|s| - 1]);
      assert forall i :: 0 <= i < |s| - 1 ==> s[..|s| - 1][i] == s[i];
      if init.None? || last.None? then None else Some(init.value * 16 + last.value)
  }

  /** Reads a non-empty hexadecimal numeral, as `UInt(s, radix: 16)` would. */
  function Parse(s: string): (r: Option<nat>)
    ensures r.Some? <==> |s| > 0 && forall i :: 0 <= i < |s| ==> DigitValue(s[i]).Some?
  {
    if |s| == 0 then None else ParseDigits(s)
  }

  lemma {:induction false} ParseToHex(n: nat)
    ensures ParseDigits(ToHex(n)) == Some(n)
    decreases n
  {
    if n >= 16 {
      var s := ToHex(n);
      ParseToHex(n / 16);
      assert s[..|s| - 1] == ToHex(n / 16);
    }
  }

  lemma {:induction false} ParseIgnoresLeadingZeros(k: nat, s: string)
    ensures ParseDigits(Zeros(k) + s) == ParseDigits(s)
    decreases |s|, k
  {
    if |s| == 0 {
      assert Zeros(k) + s == Zeros(k);
      if k > 0 {
        assert Zeros(k)[..k - 1] == Zeros(k - 1) + [];
        ParseIgnoresLeadingZeros(k - 1, []);
      }
    } else {
      var t := Zeros(k) + s;
      assert t[..|t| - 1] == Zeros(k) + s[..|s| - 1];
      ParseIgnoresLeadingZeros(k, s[..|s| - 1]);
    }
  }

  /** Formatting then parsing gives back the number, whatever its size. */
  lemma FormatParseRoundTrip(n: nat)
    ensures Parse(Format06X(n)) == Some(n)
  {
    ParseToHex(n);
    if |ToHex(n)| < 6 {
      ParseIgnoresLeadingZeros(6 - |ToHex(n)|, ToHex(n));
    }
  }

  lemma {:induction false} ToHexLengthBound(n: nat, k: nat)
    requires 1 <= k
    requires n < Power16(k)
    ensures |ToHex(n)| <= k
    decreases k
  {
    if n >= 16 {
      assert k >= 2;
      ToHexLengthBound(n / 16, k - 1);
    }
  }

  /** Numbers that fit in 24 bits format to exactly six digits. */
  lemma SixDigits(n: nat)
    requires n < 0x100_0000
    ensures |Format06X(n)| == 6
  {
    assert Power16(6) == 0x100_0000;
    ToHexLengthBound(n, 6);
  }
}
