/**
 * The `UUID` class of src/UUID.js. An instance holds the digit list its
 * constructor captured, and none of its methods changes it, so it is a value
 * here (a caller overwriting the `digits` property is not modelled). The
 * constructor is guarded by the module-level flag `secret.instantiateEnabled`,
 * which only `createUUIDInstance` switches on, around its own `new UUID(...)`:
 * that flag and the factories that toggle it form the class `Factory`.
 */
module SrcUUID {
  import opened Results
  import opened Hex
  import opened Codec
  import opened Shape
  import opened RandomDigits
  import opened UuidJson
  import Util = SrcUUIDUtil

  datatype Error =
    | NotInstantiable          // `new UUID(...)` while the flag is off
    | InvalidHex(hex: string)  // the TypeError of `fromHex`, carrying its input
    | InvalidId(id: string)    // the TypeError of `fromString`, carrying its input

  /** An instance: the list `_digits` its `digits()` closure copies out. */
  datatype UUID = UUID(digits: seq<int>)

  /**
   * `UUID.isUUID(id)`: the whole of `id` is 8 hex characters, three times a hyphen
   * and 4 hex characters, a hyphen and 12 hex characters, in either case.
   */
  function IsUUID(id: string): (b: bool)
    ensures b <==> IsHex32(RemoveHyphens(id)) && Hyphenate(RemoveHyphens(id)) == id
    ensures IsHex32(id) ==> !b
  {
    CanonicalIffHyphenated(id);
    IsCanonical36(id)
  }

  /**
   * `getId()`: the digits as hex, hyphenated by `formatUUIDFromHex`. (The source
   * runs `digitListToHex`, which `SrcUUIDUtil.DigitListToHex` proves equal to
   * `BytesToHex`.)
   */
  function GetId(u: UUID): (id: string)
    requires IsByteList(u.digits)
    ensures |u.digits| == 16 ==> |id| == 36 && IsUUID(id) && LowerString(id) == id
    ensures |u.digits| == 16 ==> RemoveHyphens(id) == BytesToHex(u.digits)
    ensures |u.digits| != 16 ==> id == BytesToHex(u.digits)
  {
    var hex := BytesToHex(u.digits);
    var id := Util.FormatUUIDFromHex(hex);
    if |u.digits| == 16 then
      CanonicalDetermined(id, hex);
      assert LowerString(hex) == hex;
      LowerHyphenate(hex);
      id
    else
      id
  }

  /** `toJSON()` as written: the closing brace and quote come out swapped. */
  function ToJSON(u: UUID): (json: string)
    requires IsByteList(u.digits)
    ensures |json| == |GetId(u)| + 11
    ensures json[..9] == Opening && json[9..|json| - 2] == GetId(u) && json[|json| - 2..] == "}\""
  {
    "{\"uuid\":\"" + GetId(u) + "}\""
  }

  /** What `toJSON()` writes cannot be read as the one-member object it is meant to be. */
  lemma ToJSONUnreadable(u: UUID)
    requires IsByteList(u.digits)
    ensures ReadUuidMember(ToJSON(u)) == None
  {
    var json := ToJSON(u);
    assert json[|json| - 1] == '"';
  }

  /** `toJSON()` with the quote before the brace, as the method evidently intends. */
  function IntendedToJSON(u: UUID): (json: string)
    requires IsByteList(u.digits)
    ensures ReadUuidMember(json) == Some(GetId(u))
  {
    var id := GetId(u);
    IdIsPlain(u);
    ReadWritten(id);
    Opening + id + Closing
  }

  /** An id, hyphenated or not, needs no escaping inside a JSON string. */
  lemma IdIsPlain(u: UUID)
    requires IsByteList(u.digits)
    ensures IsPlainText(GetId(u))
  {
    var id := GetId(u);
    if |u.digits| == 16 {
      CanonicalChars(id);
      HexAndHyphensArePlain(id);
    } else {
      LowerHexIsPlain(id);
    }
  }

  /** `digits()`: a new array holding the stored list; writing to it cannot reach the instance. */
  method Digits(u: UUID) returns (copy: array<int>)
    ensures fresh(copy) && copy[..] == u.digits
  {
    copy := new int[|u.digits|](i requires 0 <= i < |u.digits| => u.digits[i]);
  }

  /** The digits `fromString` stores for a valid id: its hex pairs, 16 byte values. */
  lemma ParsedDigits(id: string)
    requires IsUUID(id)
    ensures |HexToBytes(RemoveHyphens(id))| == 16 && IsByteList(HexToBytes(RemoveHyphens(id)))
  {
  }

  /** Round trip: the id of the instance `fromString(id)` builds is `id` in lower case. */
  lemma GetIdOfParsed(id: string)
    requires IsUUID(id)
    ensures GetId(UUID(HexToBytes(RemoveHyphens(id)))) == LowerString(id)
  {
    var h := RemoveHyphens(id);
    var d := HexToBytes(h);
    EncodeDecode(h);
    LowerHexString(h);
    var hex := BytesToHex(d);
    assert hex == LowerString(h);
    var r := GetId(UUID(d));
    CanonicalDetermined(r, hex);
    LowerHyphenate(h);
  }

  /** Round trip the other way: parsing the id of a 16-byte instance gives its digits back. */
  lemma ParseGetId(u: UUID)
    requires IsByteList(u.digits) && |u.digits| == 16
    ensures IsUUID(GetId(u))
    ensures HexToBytes(RemoveHyphens(GetId(u))) == u.digits
  {
    DecodeEncode(u.digits);
  }

  /** `fromHex` accepts exactly 32 hex characters and strings already in the canonical shape. */
  lemma FromHexAccepts(hex: string)
    ensures IsUUID(Util.FormatUUIDFromHex(hex)) <==> IsHex32(hex) || IsCanonical36(hex)
  {
    var f := Util.FormatUUIDFromHex(hex);
    if IsHex32(hex) {
      CanonicalHyphenated(f);
    } else if IsCanonical36(hex) {
      CanonicalHyphenated(hex);
    }
  }

  /** The module state of src/UUID.js together with the static factories that use it. */
  class Factory {
    /** `secret.instantiateEnabled` */
    var instantiateEnabled: bool

    /** Loading the module: the flag starts off. */
    constructor()
      ensures !instantiateEnabled
    {
      instantiateEnabled := false;
    }

    /**
     * `new UUID(value)`: throws unless the flag is on; otherwise keeps `value`, or
     * when it is absent a fresh `createRandomDigitList()` (which reads `time` and
     * `draws` and nothing else).
     */
    method New(value: Option<seq<int>>, time: nat, draws: seq<int>) returns (r: Result<UUID, Error>)
      requires value.None? ==> IsDrawList(draws)
      ensures !instantiateEnabled ==> r == Err(NotInstantiable)
      ensures instantiateEnabled && value.Some? ==> r == Ok(UUID(value.value))
      ensures instantiateEnabled && value.None? ==> r == Ok(UUID(draws[..10] + BytesBE(time, 4) + draws[10..]))
    {
      if !instantiateEnabled {
        return Err(NotInstantiable);
      }
      var digits: seq<int>;
      if value.Some? {
        digits := value.value;
      } else {
        digits := Util.CreateRandomDigitList(time, draws);
      }
      r := Ok(UUID(digits));
    }

    /** `createUUIDInstance(uuid)`: switches the flag on, constructs, switches it off. */
    method CreateUUIDInstance(uuid: Option<seq<int>>, time: nat, draws: seq<int>) returns (u: UUID)
      requires uuid.None? ==> IsDrawList(draws)
      modifies this
      ensures !instantiateEnabled
      ensures u.digits == if uuid.Some? then uuid.value else draws[..10] + BytesBE(time, 4) + draws[10..]
    {
      instantiateEnabled := true;
      var r := New(uuid, time, draws);
      instantiateEnabled := false;
      u := r.value;
    }

    /** `UUID.randomUUID()`: ten draws, the four time bytes, two draws. */
    method RandomUUID(time: nat, draws: seq<int>) returns (u: UUID)
      requires IsDrawList(draws)
      modifies this
      ensures !instantiateEnabled
      ensures u.digits == draws[..10] + BytesBE(time, 4) + draws[10..]
      ensures |u.digits| == 16 && IsByteList(u.digits)
    {
      u := CreateUUIDInstance(None, time, draws);
      DrawsSpliced(time, draws);
    }

    /**
     * `UUID.fromString(id)`: throws unless `isUUID(id)`; otherwise stores the hex
     * pairs of `id` without its hyphens. (The time and draws passed on are unused:
     * a list is always given.)
     */
    method FromString(id: string) returns (r: Result<UUID, Error>)
      modifies this
      ensures r.Err? <==> !IsUUID(id)
      ensures r.Err? ==> r.error == InvalidId(id) && unchanged(this)
      ensures r.Ok? ==> !instantiateEnabled && r.value.digits == HexToBytes(RemoveHyphens(id))
      ensures r.Ok? ==> |r.value.digits| == 16 && IsByteList(r.value.digits) && GetId(r.value) == LowerString(id)
    {
      if IsUUID(id) {
        var list := Util.HexToDigitList(RemoveHyphens(id));
        var u := CreateUUIDInstance(Some(list), 0, []);
        ParsedDigits(id);
        GetIdOfParsed(id);
        r := Ok(u);
      } else {
        r := Err(InvalidId(id));
      }
    }

    /**
     * `UUID.fromHex(hex)`: formats `hex`, throws unless the result passes `isUUID`,
     * and otherwise is `fromString` of the formatted text.
     */
    method FromHex(hex: string) returns (r: Result<UUID, Error>)
      modifies this
      ensures r.Err? <==> !(IsHex32(hex) || IsCanonical36(hex))
      ensures r.Err? ==> r.error == InvalidHex(hex) && unchanged(this)
      ensures r.Ok? ==> IsUUID(Util.FormatUUIDFromHex(hex)) && !instantiateEnabled
      ensures r.Ok? ==> r.value.digits == HexToBytes(RemoveHyphens(Util.FormatUUIDFromHex(hex)))
      ensures r.Ok? && IsHex32(hex) ==> r.value.digits == HexToBytes(hex)
      ensures r.Ok? ==> GetId(r.value) == LowerString(Util.FormatUUIDFromHex(hex))
    {
      var uuid := Util.FormatUUIDFromHex(hex);
      FromHexAccepts(hex);
      if !IsUUID(uuid) {
        return Err(InvalidHex(hex));
      }
      r := FromString(uuid);
    }
  }
}
