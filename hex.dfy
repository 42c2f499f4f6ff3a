/**
 * Hex text as the JavaScript built-ins used by the library see it:
 * hex characters, `Number.prototype.toString(16)`, `toLowerCase`,
 * padding with '0' and `String.prototype.substr(-k)`.
 */
module Hex {

  predicate IsHexChar(c: char) {
    '0' <= c <= '9' || 'a' <= c <= 'f' || 'A' <= c <= 'F'
  }

  predicate IsLowerHexChar(c: char) {
    '0' <= c <= '9' || 'a' <= c <= 'f'
  }

  /** Every character matches `[a-f0-9]` under the `i` flag. */
  predicate IsHexString(s: string) {
    forall i :: 0 <= i < |s| ==> IsHexChar(s[i])
  }

  predicate IsLowerHexString(s: string) {
    forall i :: 0 <= i < |s| ==> IsLowerHexChar(s[i])
  }

  /** The value of one hex digit, in either case, as `parseInt(_, 16)` reads it. */
  function HexValue(c: char): (v: nat)
    requires IsHexChar(c)
    ensures v < 16
  {
    if '0' <= c <= '9' then c as int - '0' as int
    else if 'a' <= c <= 'f' then c as int - 'a' as int + 10
    else c as int - 'A' as int + 10
  }

  /** The digit `toString(16)` writes for `d`: always lower case. */
  function HexDigit(d: nat): (c: char)
    requires d < 16
    ensures IsLowerHexChar(c) && HexValue(c) == d
  {
    if d < 10 then ('0' as int + d) as char else ('a' as int + d - 10) as char
  }

  /** `toLowerCase` on one character, for the ASCII letters. */
  function ToLower(c: char): char {
    if 'A' <= c <= 'Z' then (c as int - 'A' as int + 'a' as int) as char else c
  }

  function LowerString(s: string): (r: string)
    ensures |r| == |s|
    ensures forall i :: 0 <= i < |s| ==> r[i] == ToLower(s[i])
  {
    seq(|s|, i requires 0 <= i < |s| => ToLower(s[i]))
  }

  /** Writing back the value of a hex digit gives the digit in lower case. */
  lemma DigitOfValue(c: char)
    requires IsHexChar(c)
    ensures HexDigit(HexValue(c)) == ToLower(c)
  {
  }

  /** Lower-casing hex text keeps it hex and makes it lower case. */
  lemma LowerHexString(s: string)
    requires IsHexString(s)
    ensures IsLowerHexString(LowerString(s)) && IsHexString(LowerString(s))
  {
  }

  /** `n.toString(16)` for a non-negative integer: lower-case digits, no leading zeros. */
  function NatToHex(n: nat): (s: string)
    ensures 1 <= |s| && IsLowerHexString(s)
    ensures s[|s| - 1] == HexDigit(n % 16)
    ensures |s| == 1 <==> n < 16
  {
    if n < 16 then [HexDigit(n)] else NatToHex(n / 16) + [HexDigit(n % 16)]
  }

  function Zeros(n: nat): (z: string)
    ensures |z| == n
    ensures forall i :: 0 <= i < n ==> z[i] == '0'
  {
    seq(n, _ => '0')
  }

  /**
   * The result of the library's `padLeft` loops once the target length is known:
   * `s` preceded by as many '0's as it takes to reach `width`, or `s` itself
   * when it is already that long.
   */
  function ZeroPad(s: string, width: int): (r: string)
    ensures |r| == if |s| < width then width else |s|
    ensures r[|r| - |s|..] == s
    ensures forall i :: 0 <= i < |r| - |s| ==> r[i] == '0'
  {
    if |s| < width then Zeros(width - |s|) + s else s
  }

  /** Padding a padded string to the same width changes nothing. */
  lemma ZeroPadIdempotent(s: string, width: int)
    ensures ZeroPad(ZeroPad(s, width), width) == ZeroPad(s, width)
  {
  }

  /** `s.substr(-k)` for k >= 1 (the library uses k = 8): the last `k` characters, or all of `s` when it is shorter. */
  function LastChars(s: string, k: nat): (r: string)
    ensures |r| == if |s| < k then |s| else k
    ensures r == s[|s| - |r|..]
  {
    if |s| <= k then s else s[|s| - k..]
  }
}
