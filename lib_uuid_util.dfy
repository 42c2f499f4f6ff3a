/**
 * The codec of lib/UUIDUtil.js (ES-module version). It matches src/UUIDUtil.js
 * except that `padLeft` defaults its count with a default parameter, so an
 * explicit count of 0 is kept.
 */
module LibUUIDUtil {
  import opened Results
  import opened Hex
  import opened Codec
  import opened Shape
  import opened RandomDigits

  /**
   * `hex.replace(pattern, '$1-$2-$3-$4-$5')`: 32 hex characters (either case)
   * gain hyphens after positions 8, 12, 16 and 20; any other text is returned as is.
   */
  function FormatUUIDFromHex(hex: string): (r: string)
    ensures IsHex32(hex) ==> IsCanonical36(r) && RemoveHyphens(r) == hex
    ensures !IsHex32(hex) ==> r == hex
  {
    if IsHex32(hex) then HyphenateCanonical(hex); Hyphenate(hex) else hex
  }

  /** `count = 2`: only an absent count means 2. */
  function Width(count: Option<int>): int {
    if count == None then 2 else count.value
  }

  /** `padLeft(hex, count = 2)`: prepends '0' while the text is shorter than `count`. */
  method PadLeft(hex: string, count: Option<int>) returns (value: string)
    ensures value == ZeroPad(hex, Width(count))
  {
    value := hex;
    var target := Width(count);
    while |value| < target
      invariant |hex| <= |value|
      invariant value == Zeros(|value| - |hex|) + hex
      invariant |value| <= target || value == hex
      decreases target - |value|
    {
      assert "0" + (Zeros(|value| - |hex|) + hex) == Zeros(|value| - |hex| + 1) + hex;
      value := "0" + value;
    }
  }

  /**
   * `hexToDigitList(hex)`: walks the characters, keeps the one at each even index
   * and, at the following odd index, pushes the parsed pair.
   */
  method HexToDigitList(hex: string) returns (list: seq<int>)
    requires IsHexString(hex)
    ensures list == HexToBytes(hex)
  {
    list := [];
    var value := '0';
    var index := 0;
    while index < |hex|
      invariant 0 <= index <= |hex|
      invariant |list| == index / 2
      invariant forall i :: 0 <= i < |list| ==> list[i] == PairValue(hex[2 * i], hex[2 * i + 1])
      invariant index % 2 == 1 ==> value == hex[index - 1]
    {
      if index % 2 == 0 {
        value := hex[index];
      } else {
        list := list + [PairValue(value, hex[index])];
      }
      index := index + 1;
    }
  }

  /** `digitListToHex(list)`: appends `padLeft(item.toString(16))` for each item. */
  method DigitListToHex(list: seq<int>) returns (hex: string)
    requires IsByteList(list)
    ensures hex == BytesToHex(list)
  {
    hex := "";
    var i := 0;
    while i < |list|
      invariant 0 <= i <= |list|
      invariant hex == BytesToHex(list[..i])
    {
      var item := PadLeft(NatToHex(list[i]), None);
      assert Width(None) == 2;
      EncodePrefixStep(list, i);
      hex := hex + item;
      i := i + 1;
    }
    assert list[..i] == list;
  }

  /**
   * `createRandomDigitList()`, with the clock reading `time` and the twelve drawn
   * values `draws` as inputs: the four bytes of the time are spliced in at index 10.
   */
  method CreateRandomDigitList(time: nat, draws: seq<int>) returns (value: seq<int>)
    requires IsDrawList(draws)
    ensures value == draws[..10] + BytesBE(time, 4) + draws[10..]
    ensures |value| == 16 && IsByteList(value)
  {
    var hex := PadLeft(LastChars(NatToHex(time), 8), Some(8));
    assert Width(Some(8)) == 8;
    assert hex == TimeHex(time);
    TimeHexBytes(time);
    var hexList := HexToDigitList(hex);
    assert hexList == BytesBE(time, 4);
    value := draws;
    value := value[..10] + hexList + value[10..];
    DrawsSpliced(time, draws);
  }
}
