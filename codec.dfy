/**
 * The reference codec between lists of byte values and hex text: two hex
 * characters per byte, most significant digit first. The three copies of
 * `hexToDigitList` and `digitListToHex` in the library are each proved
 * equal to these definitions.
 */
module Codec {
  import opened Hex

  predicate IsByte(n: int) {
    0 <= n < 256
  }

  predicate IsByteList(l: seq<int>) {
    forall i :: 0 <= i < |l| ==> IsByte(l[i])
  }

  lemma ByteListAppend(a: seq<int>, b: seq<int>)
    requires IsByteList(a) && IsByteList(b)
    ensures IsByteList(a + b)
  {
  }

  /** `parseInt(hi + lo, 16)` for two hex characters. */
  function PairValue(hi: char, lo: char): (v: int)
    requires IsHexChar(hi) && IsHexChar(lo)
    ensures IsByte(v)
  {
    16 * HexValue(hi) + HexValue(lo)
  }

  /** One byte as two lower-case hex characters. */
  function ByteToHex(b: int): (s: string)
    requires IsByte(b)
    ensures |s| == 2 && IsLowerHexString(s)
    ensures PairValue(s[0], s[1]) == b
  {
    [HexDigit(b / 16), HexDigit(b % 16)]
  }

  function BytesToHex(l: seq<int>): (h: string)
    requires IsByteList(l)
    ensures |h| == 2 * |l| && IsLowerHexString(h)
  {
    if l == [] then "" else ByteToHex(l[0]) + BytesToHex(l[1..])
  }

  /** Consecutive pairs of hex characters parsed as bytes; a trailing odd character is dropped. */
  function HexToBytes(h: string): (l: seq<int>)
    requires IsHexString(h)
    ensures |l| == |h| / 2 && IsByteList(l)
    ensures forall i :: 0 <= i < |l| ==> l[i] == PairValue(h[2 * i], h[2 * i + 1])
  {
    if |h| < 2 then [] else [PairValue(h[0], h[1])] + HexToBytes(h[2..])
  }

  /** `padLeft(b.toString(16))` with its default width 2 is the two-digit form of a byte. */
  lemma PaddedByteHex(b: int)
    requires IsByte(b)
    ensures ZeroPad(NatToHex(b), 2) == ByteToHex(b)
  {
    if b >= 16 {
      assert NatToHex(b) == NatToHex(b / 16) + [HexDigit(b % 16)];
      assert NatToHex(b / 16) == [HexDigit(b / 16)];
    }
  }

  /** Encoding one more byte appends its two characters. */
  lemma {:induction false} BytesToHexSnoc(l: seq<int>, b: int)
    requires IsByteList(l) && IsByte(b)
    ensures BytesToHex(l + [b]) == BytesToHex(l) + ByteToHex(b)
  {
    if l != [] {
      assert (l + [b])[1..] == l[1..] + [b];
      BytesToHexSnoc(l[1..], b);
    }
  }

  /** One step of the library's encoding loops: the next byte, padded, is appended. */
  lemma EncodePrefixStep(l: seq<int>, i: nat)
    requires IsByteList(l) && i < |l|
    ensures BytesToHex(l[..i + 1]) == BytesToHex(l[..i]) + ZeroPad(NatToHex(l[i]), 2)
  {
    assert l[..i + 1] == l[..i] + [l[i]];
    BytesToHexSnoc(l[..i], l[i]);
    PaddedByteHex(l[i]);
  }

  /** Decoding the encoding of a byte list gives the list back. */
  lemma {:induction false} DecodeEncode(l: seq<int>)
    requires IsByteList(l)
    ensures HexToBytes(BytesToHex(l)) == l
  {
    if l != [] {
      var h := BytesToHex(l);
      assert h == ByteToHex(l[0]) + BytesToHex(l[1..]);
      assert h[2..] == BytesToHex(l[1..]);
      DecodeEncode(l[1..]);
    }
  }

  /** The two-digit form of a parsed pair is the pair in lower case. */
  lemma PairToHex(hi: char, lo: char)
    requires IsHexChar(hi) && IsHexChar(lo)
    ensures ByteToHex(PairValue(hi, lo)) == [ToLower(hi), ToLower(lo)]
  {
    var p := PairValue(hi, lo);
    assert p / 16 == HexValue(hi) && p % 16 == HexValue(lo);
    DigitOfValue(hi);
    DigitOfValue(lo);
  }

  /** Encoding the decoding of even-length hex text gives that text in lower case. */
  lemma {:induction false} EncodeDecode(h: string)
    requires IsHexString(h) && |h| % 2 == 0
    ensures BytesToHex(HexToBytes(h)) == LowerString(h)
  {
    if h != [] {
      var l := HexToBytes(h);
      var rest := HexToBytes(h[2..]);
      assert l == [PairValue(h[0], h[1])] + rest;
      assert l[1..] == rest;
      EncodeDecode(h[2..]);
      PairToHex(h[0], h[1]);
      assert BytesToHex(l) == [ToLower(h[0]), ToLower(h[1])] + LowerString(h[2..]);
      assert LowerString(h) == [ToLower(h[0]), ToLower(h[1])] + LowerString(h[2..]);
    }
  }
}
