/**
 * src/index.js: a self-contained copy of the library. Its codec is
 * written with `match`, `map` and `join`; its `UUID` class has no construction
 * gate; its `isUUID` drops every hyphen before matching 32 hex characters.
 */
module SrcIndex {
  import opened Results
  import opened Hex
  import opened Codec
  import opened Shape
  import opened RandomDigits
  import opened UuidJson

  /** The TypeError of `fromString`, carrying its input. */
  datatype Error = InvalidId(id: string)

  /** `hex.replace(PATTERN, "$1-$2-$3-$4-$5")`. */
  function FormatUUIDFromHex(hex: string): (r: string)
    ensures IsHex32(hex) ==> IsCanonical36(r) && RemoveHyphens(r) == hex
    ensures !IsHex32(hex) ==> r == hex
  {
    if IsHex32(hex) then HyphenateCanonical(hex); Hyphenate(hex) else hex
  }

  /** `lengthTotal = 2`: only an absent length means 2. */
  function Width(lengthTotal: Option<int>): int {
    if lengthTotal == None then 2 else lengthTotal.value
  }

  /** `padLeft(value, lengthTotal = 2)`: prepends '0' while the text is too short. */
  method PadLeft(value: string, lengthTotal: Option<int>) returns (padded: string)
    ensures padded == ZeroPad(value, Width(lengthTotal))
  {
    padded := value;
    var target := Width(lengthTotal);
    while |padded| < target
      invariant |value| <= |padded|
      invariant padded == Zeros(|padded| - |value|) + value
      invariant |padded| <= target || padded == value
      decreases target - |padded|
    {
      assert "0" + (Zeros(|padded| - |value|) + value) == Zeros(|padded| - |value| + 1) + value;
      padded := "0" + padded;
    }
  }

  /**
   * `s.match(/.{2}/g)` for |s| >= 2 on a text without line terminators: its consecutive
   * 2-character pieces. (For shorter text `match` gives `null`; `HexToDigitList` handles that case.)
   */
  function Pairs(s: string): (pieces: seq<string>)
    ensures |pieces| == |s| / 2
    ensures forall i :: 0 <= i < |pieces| ==> pieces[i] == s[2 * i..2 * i + 2]
  {
    if |s| < 2 then []
    else
      var rest := Pairs(s[2..]);
      assert forall i :: 0 <= i < |rest| ==> rest[i] == s[2 * (i + 1)..2 * (i + 1) + 2];
      [s[..2]] + rest
  }

  /**
   * `hexToDigitList(hex)`: each 2-character piece parsed base 16, a trailing odd
   * character dropped. With fewer than two characters `match` gives `null` and
   * the `map` on it throws: no result.
   */
  function HexToDigitList(hex: string): (r: Option<seq<int>>)
    requires IsHexString(hex)
    ensures r.None? <==> |hex| < 2
    ensures r.Some? ==> r.value == HexToBytes(hex)
  {
    if |hex| < 2 then None
    else
      var pieces := Pairs(hex);
      var list := seq(|pieces|, i requires 0 <= i < |pieces| && |pieces[i]| == 2 && IsHexString(pieces[i]) =>
        PairValue(pieces[i][0], pieces[i][1]));
      assert forall i :: 0 <= i < |pieces| ==> pieces[i][0] == hex[2 * i] && pieces[i][1] == hex[2 * i + 1];
      Some(list)
  }

  /** `Array.prototype.join('')`. */
  function Join(parts: seq<string>): string {
    if parts == [] then "" else parts[0] + Join(parts[1..])
  }

  /** `list.map(item => padLeft(item.toString(16)))`. */
  function PaddedHexes(list: seq<int>): (parts: seq<string>)
    requires IsByteList(list)
    ensures |parts| == |list|
  {
    seq(|list|, i requires 0 <= i < |list| => ZeroPad(NatToHex(list[i]), Width(None)))
  }

  /** `list.map(item => padLeft(item.toString(16))).join('')`. */
  function DigitListToHex(list: seq<int>): (hex: string)
    requires IsByteList(list)
    ensures hex == BytesToHex(list)
  {
    PaddedJoin(list);
    Join(PaddedHexes(list))
  }

  lemma {:induction false} PaddedJoin(list: seq<int>)
    requires IsByteList(list)
    ensures Join(PaddedHexes(list)) == BytesToHex(list)
  {
    if list != [] {
      var parts := PaddedHexes(list);
      assert parts[1..] == PaddedHexes(list[1..]);
      assert parts[0] == ZeroPad(NatToHex(list[0]), 2);
      PaddedJoin(list[1..]);
      PaddedByteHex(list[0]);
    }
  }

  /** Draws of `Math.floor(Math.random() * 0x100)`: values in [0, 255]. */
  predicate IsByteDraws(draws: seq<int>, count: nat) {
    |draws| == count && IsByteList(draws)
  }

  /**
   * `createRandomDigitList()`: `randomDigits(10)`, the four time bytes and
   * `randomDigits(2)`, with the clock reading and the two draws as inputs.
   */
  function CreateRandomDigitList(time: nat, head: seq<int>, tail: seq<int>): (l: seq<int>)
    requires IsByteDraws(head, 10) && IsByteDraws(tail, 2)
    ensures l == head + BytesBE(time, 4) + tail
    ensures |l| == 16 && IsByteList(l)
  {
    TimeDigitList(time);
    ByteDrawsSpliced(time, head, tail);
    head + HexToDigitList(ZeroPad(LastChars(NatToHex(time), 8), Width(Some(8)))).value + tail
  }

  /** `hexToDigitList(padLeft(time.toString(16).substr(-8), 8))`: the four time bytes. */
  lemma TimeDigitList(time: nat)
    ensures IsHexString(ZeroPad(LastChars(NatToHex(time), 8), Width(Some(8))))
    ensures HexToDigitList(ZeroPad(LastChars(NatToHex(time), 8), Width(Some(8)))) == Some(BytesBE(time, 4))
  {
    var hex := ZeroPad(LastChars(NatToHex(time), 8), Width(Some(8)));
    assert hex == TimeHex(time);
    TimeHexBytes(time);
  }

  lemma ByteDrawsSpliced(time: nat, head: seq<int>, tail: seq<int>)
    requires IsByteDraws(head, 10) && IsByteDraws(tail, 2)
    ensures |head + BytesBE(time, 4) + tail| == 16 && IsByteList(head + BytesBE(time, 4) + tail)
  {
    ByteListAppend(head, BytesBE(time, 4));
    ByteListAppend(head + BytesBE(time, 4), tail);
  }

  /** `UUID.isUUID(id)`: `id` with every hyphen removed is exactly 32 hex characters. */
  function IsUUID(id: string): (b: bool)
    ensures b <==> (forall i :: 0 <= i < |id| ==> IsHexChar(id[i]) || id[i] == '-') && |RemoveHyphens(id)| == 32
    ensures IsCanonical36(id) ==> b
    ensures IsHex32(id) ==> b
    ensures b ==> |id| >= 32
  {
    HexOrHyphens(id);
    CanonicalIffHyphenated(id);
    Hex32HasNoHyphens(id);
    IsHex32(RemoveHyphens(id))
  }

  /** An instance; `__digits__` is set by the constructor and never reassigned. */
  class UUID {
    var digits: seq<int>

    /** `new UUID(value)`: `value || createRandomDigitList()`, with no gate. */
    constructor(value: Option<seq<int>>, time: nat, head: seq<int>, tail: seq<int>)
      requires value.None? ==> IsByteDraws(head, 10) && IsByteDraws(tail, 2)
      ensures digits == if value.Some? then value.value else head + BytesBE(time, 4) + tail
    {
      digits := if value.Some? then value.value else CreateRandomDigitList(time, head, tail);
    }

    /** `getId()`: the digits as hex, hyphenated. */
    function GetId(): (id: string)
      reads this
      requires IsByteList(digits)
      ensures |digits| == 16 ==> IsCanonical36(id) && LowerString(id) == id
      ensures |digits| == 16 ==> RemoveHyphens(id) == BytesToHex(digits)
      ensures |digits| != 16 ==> id == BytesToHex(digits)
    {
      var hex := DigitListToHex(digits);
      var id := FormatUUIDFromHex(hex);
      if |digits| == 16 then
        CanonicalDetermined(id, hex);
        assert LowerString(hex) == hex;
        LowerHyphenate(hex);
        id
      else
        id
    }

    /** `toJSON()`: the one-member object `{"uuid":"<getId()>"}`. */
    function ToJSON(): (json: string)
      reads this
      requires IsByteList(digits)
      ensures ReadUuidMember(json) == Some(GetId())
    {
      var id := GetId();
      IdIsPlain(this);
      ReadWritten(id);
      "{\"uuid\":\"" + id + "\"}"
    }
  }

  /** An id, hyphenated or not, needs no escaping inside a JSON string. */
  lemma IdIsPlain(u: UUID)
    requires IsByteList(u.digits)
    ensures IsPlainText(u.GetId())
  {
    var id := u.GetId();
    if |u.digits| == 16 {
      CanonicalChars(id);
      HexAndHyphensArePlain(id);
    } else {
      LowerHexIsPlain(id);
    }
  }

  /** Round trip: the id built from the digits of a valid id is its hyphenated form, in lower case. */
  lemma GetIdOfParsed(id: string, u: UUID)
    requires IsUUID(id) && u.digits == HexToBytes(RemoveHyphens(id))
    ensures IsByteList(u.digits) && u.GetId() == LowerString(Hyphenate(RemoveHyphens(id)))
  {
    var h := RemoveHyphens(id);
    EncodeDecode(h);
    LowerHexString(h);
    var hex := BytesToHex(u.digits);
    assert hex == LowerString(h);
    CanonicalDetermined(u.GetId(), hex);
    LowerHyphenate(h);
  }

  /** `UUID.randomUUID()`: `new UUID()`. */
  method RandomUUID(time: nat, head: seq<int>, tail: seq<int>) returns (u: UUID)
    requires IsByteDraws(head, 10) && IsByteDraws(tail, 2)
    ensures fresh(u) && u.digits == head + BytesBE(time, 4) + tail
  {
    u := new UUID(None, time, head, tail);
  }

  /**
   * `UUID.fromString(id)`: throws unless `isUUID(id)`; otherwise a new instance
   * holding the hex pairs of `id` without its hyphens.
   */
  method FromString(id: string) returns (r: Result<UUID, Error>)
    ensures r.Err? <==> !IsUUID(id)
    ensures r.Err? ==> r.error == InvalidId(id)
    ensures r.Ok? ==> fresh(r.value) && r.value.digits == HexToBytes(RemoveHyphens(id))
    ensures r.Ok? ==> |r.value.digits| == 16 && IsByteList(r.value.digits)
    ensures r.Ok? ==> r.value.GetId() == LowerString(Hyphenate(RemoveHyphens(id)))
  {
    if IsUUID(id) {
      var list := HexToDigitList(RemoveHyphens(id));
      var u := new UUID(Some(list.value), 0, [], []);
      GetIdOfParsed(id, u);
      r := Ok(u);
    } else {
      r := Err(InvalidId(id));
    }
  }

  /** Formatting never changes what a hyphen-blind check accepts, nor the hex it sees. */
  lemma FormatKeepsHex(hex: string)
    ensures RemoveHyphens(FormatUUIDFromHex(hex)) == (if IsHex32(hex) then hex else RemoveHyphens(hex))
    ensures IsUUID(FormatUUIDFromHex(hex)) <==> IsUUID(hex)
  {
    Hex32HasNoHyphens(hex);
  }

  /** `UUID.fromHex(hex)`: `fromString(formatUUIDFromHex(hex))`, with no check of its own. */
  method FromHex(hex: string) returns (r: Result<UUID, Error>)
    ensures r.Err? <==> !IsUUID(hex)
    ensures r.Err? ==> r.error == InvalidId(hex)
    ensures r.Ok? ==> fresh(r.value) && r.value.digits == HexToBytes(RemoveHyphens(hex))
  {
    var uuid := FormatUUIDFromHex(hex);
    FormatKeepsHex(hex);
    assert RemoveHyphens(uuid) == RemoveHyphens(hex) by {
      Hex32HasNoHyphens(hex);
    }
    r := FromString(uuid);
    assert r.Err? ==> !IsHex32(hex) && uuid == hex;
  }
}
