/**
 * The inputs of `createRandomDigitList`: the clock reading and the values drawn
 * from `Math.random`. The four bytes of the time that it splices in,
 * `padLeft(time.toString(16).substr(-8), 8)` read back as hex pairs, are the
 * low 32 bits of the time, most significant byte first.
 */
module RandomDigits {
  import opened Hex
  import opened Codec

  /** The `k` low-order hex digits of `n`, lower case, most significant first. */
  function FixedHex(n: nat, k: nat): (s: string)
    ensures |s| == k && IsLowerHexString(s) && IsHexString(s)
  {
    if k == 0 then "" else FixedHex(n / 16, k - 1) + [HexDigit(n % 16)]
  }

  /** The `k` low-order bytes of `n`, most significant first. */
  function BytesBE(n: nat, k: nat): (l: seq<int>)
    ensures |l| == k && IsByteList(l)
  {
    if k == 0 then [] else BytesBE(n / 256, k - 1) + [n % 256]
  }

  /** The hex text the generator builds from the time before parsing it into bytes. */
  function TimeHex(time: nat): string {
    ZeroPad(LastChars(NatToHex(time), 8), 8)
  }

  lemma {:induction false} FixedHexOfZero(k: nat)
    ensures FixedHex(0, k) == Zeros(k)
  {
    if k > 0 {
      FixedHexOfZero(k - 1);
      assert Zeros(k) == Zeros(k - 1) + ['0'];
    }
  }

  lemma LastCharsSnoc(t: string, c: char, k: nat)
    requires k >= 1
    ensures LastChars(t + [c], k) == LastChars(t, k - 1) + [c]
  {
  }

  lemma ZeroPadSnoc(u: string, c: char, k: nat)
    requires k >= 1
    ensures ZeroPad(u + [c], k) == ZeroPad(u, k - 1) + [c]
  {
    if |u| < k - 1 {
      assert Zeros(k - 1 - |u|) + (u + [c]) == (Zeros(k - 1 - |u|) + u) + [c];
    }
  }

  /** A single-digit number padded to `k` digits. */
  lemma PaddedSmall(n: nat, k: nat)
    requires n < 16 && k >= 1
    ensures ZeroPad(LastChars(NatToHex(n), k), k) == FixedHex(n, k)
  {
    assert NatToHex(n) == [HexDigit(n)];
    assert LastChars([HexDigit(n)], k) == [HexDigit(n)];
    assert n / 16 == 0 && n % 16 == n;
    FixedHexOfZero(k - 1);
    assert FixedHex(n, k) == Zeros(k - 1) + [HexDigit(n)];
    if k == 1 {
      assert Zeros(0) + [HexDigit(n)] == [HexDigit(n)];
    }
  }

  /** Taking the last `k` digits and padding to `k` gives exactly the `k` low-order digits. */
  lemma {:induction false} PaddedSuffix(n: nat, k: nat)
    requires k >= 1
    ensures ZeroPad(LastChars(NatToHex(n), k), k) == FixedHex(n, k)
  {
    if n < 16 {
      PaddedSmall(n, k);
    } else {
      if k > 1 {
        PaddedSuffix(n / 16, k - 1);
      }
      PaddedStep(n, k);
    }
  }

  /** The step of `PaddedSuffix` for a number of two digits or more. */
  lemma PaddedStep(n: nat, k: nat)
    requires n >= 16 && k >= 1
    requires k > 1 ==> ZeroPad(LastChars(NatToHex(n / 16), k - 1), k - 1) == FixedHex(n / 16, k - 1)
    ensures ZeroPad(LastChars(NatToHex(n), k), k) == FixedHex(n, k)
  {
    SnocDigit(n, k);
  }

  /** One more digit of `n` passes through `substr(-k)` and the padding to `k`. */
  lemma SnocDigit(n: nat, k: nat)
    requires n >= 16 && k >= 1
    ensures ZeroPad(LastChars(NatToHex(n), k), k)
         == ZeroPad(LastChars(NatToHex(n / 16), k - 1), k - 1) + [HexDigit(n % 16)]
    ensures FixedHex(n, k) == FixedHex(n / 16, k - 1) + [HexDigit(n % 16)]
    ensures k == 1 ==> ZeroPad(LastChars(NatToHex(n / 16), 0), 0) == FixedHex(n / 16, 0)
  {
    var t := NatToHex(n / 16);
    var c := HexDigit(n % 16);
    assert NatToHex(n) == t + [c];
    LastCharsSnoc(t, c, k);
    ZeroPadSnoc(LastChars(t, k - 1), c, k);
  }

  /** Division facts that let two hex digits be read as one byte. */
  lemma ByteDigits(n: nat)
    ensures n / 16 / 16 == n / 256
    ensures (n % 256) / 16 == (n / 16) % 16
    ensures (n % 256) % 16 == n % 16
  {
  }

  /** `2k` low-order hex digits encode the `k` low-order bytes. */
  lemma {:induction false} FixedHexBytes(n: nat, k: nat)
    ensures FixedHex(n, 2 * k) == BytesToHex(BytesBE(n, k))
  {
    if k > 0 {
      FixedHexBytes(n / 256, k - 1);
      ByteDigits(n);
      assert FixedHex(n, 2 * k) == FixedHex(n / 16, 2 * k - 1) + [HexDigit(n % 16)];
      assert FixedHex(n / 16, 2 * k - 1) == FixedHex(n / 256, 2 * (k - 1)) + [HexDigit((n / 16) % 16)];
      assert ByteToHex(n % 256) == [HexDigit((n / 16) % 16), HexDigit(n % 16)];
      BytesToHexSnoc(BytesBE(n / 256, k - 1), n % 256);
    }
  }

  /** The time text is hex, and parsed pairwise it is the four low-order bytes of the time. */
  lemma TimeHexBytes(time: nat)
    ensures |TimeHex(time)| == 8 && IsHexString(TimeHex(time))
    ensures HexToBytes(TimeHex(time)) == BytesBE(time, 4)
  {
    PaddedSuffix(time, 8);
    FixedHexBytes(time, 4);
    DecodeEncode(BytesBE(time, 4));
  }

  /** Four bytes unfolded. */
  lemma BytesBE4(n: nat)
    ensures BytesBE(n, 4) == [n / 256 / 256 / 256 % 256, n / 256 / 256 % 256, n / 256 % 256, n % 256]
  {
    assert BytesBE(n / 256 / 256 / 256, 1) == [n / 256 / 256 / 256 % 256];
    assert BytesBE(n / 256 / 256, 2) == BytesBE(n / 256 / 256 / 256, 1) + [n / 256 / 256 % 256];
    assert BytesBE(n / 256, 3) == BytesBE(n / 256 / 256, 2) + [n / 256 % 256];
  }

  lemma ShiftBytes(n: nat)
    ensures n / 256 / 256 == n / 0x1_0000
    ensures n / 256 / 256 / 256 == n / 0x100_0000
  {
  }

  function Pow256(k: nat): (p: nat)
    ensures p > 0
  {
    if k == 0 then 1 else 256 * Pow256(k - 1)
  }

  /** Adding a multiple of 256^k to `w` leaves its `k` low-order bytes alone. */
  lemma {:induction false} BytesBEHigh(c: nat, w: nat, k: nat)
    ensures BytesBE(c * Pow256(k) + w, k) == BytesBE(w, k)
  {
    if k > 0 {
      var x := c * Pow256(k - 1);
      assert c * Pow256(k) == 256 * x;
      assert (256 * x + w) / 256 == x + w / 256;
      assert (256 * x + w) % 256 == w % 256;
      BytesBEHigh(c, w / 256, k - 1);
    }
  }

  /** The four bytes of the time, big-endian. */
  lemma TimeBytesExplicit(time: nat)
    ensures BytesBE(time, 4) == [time / 0x100_0000 % 0x100, time / 0x1_0000 % 0x100, time / 0x100 % 0x100, time % 0x100]
  {
    BytesBE4(time);
    ShiftBytes(time);
  }

  /** Only the time modulo 2^32 matters. */
  lemma TimeBytesLowWord(time: nat)
    ensures BytesBE(time, 4) == BytesBE(time % 0x1_0000_0000, 4)
  {
    assert Pow256(4) == 0x1_0000_0000;
    BytesBEHigh(time / 0x1_0000_0000, time % 0x1_0000_0000, 4);
  }

  /** What `parseInt(Math.random() * 0xFF)` yields twelve times: values in [0, 254]. */
  predicate IsDrawList(draws: seq<int>) {
    |draws| == 12 && forall i :: 0 <= i < 12 ==> 0 <= draws[i] < 0xFF
  }

  /** Splicing the time bytes into twelve draws gives sixteen byte values. */
  lemma DrawsSpliced(time: nat, draws: seq<int>)
    requires IsDrawList(draws)
    ensures |draws[..10] + BytesBE(time, 4) + draws[10..]| == 16
    ensures IsByteList(draws[..10] + BytesBE(time, 4) + draws[10..])
  {
    assert IsByteList(draws[..10]) && IsByteList(draws[10..]);
    ByteListAppend(draws[..10], BytesBE(time, 4));
    ByteListAppend(draws[..10] + BytesBE(time, 4), draws[10..]);
  }
}
