# basic-uuid in Dafny

This is a model of the core of the JavaScript library basic-uuid. The core is a codec between three
forms of a 128-bit id:

- a list of 16 byte values;
- a string of 32 hex characters;
- the 8-4-4-4-12 hyphenated string of section 3 of RFC 4122. Only its shape is used; version and variant bits are never set or checked.

On top of the codec sit a shape check (`isUUID`), the factories `randomUUID`, `fromHex` and
`fromString`, and an id value with `getId` and `toJSON`.

The repository holds three copies of this code, and each is modelled as written, in its own module:

- `SrcUUIDUtil` models src/UUIDUtil.js.
- `LibUUIDUtil` models lib/UUIDUtil.js.
- `SrcUUID` models src/UUID.js, which has a construction gate.
- `SrcIndex` models src/index.js, a self-contained copy with an inline codec and no gate.

Shared modules hold what the copies have in common:

- `Hex`: the JavaScript built-ins used, such as `toString(16)`, `parseInt` on hex and `substr(-k)`, plus `ZeroPad`, the specification of the library's own `padLeft` loops.
- `Codec`: the reference byte/hex codec.
- `Shape`: the two string shapes, plus inserting and removing hyphens.
- `RandomDigits`: the clock and random inputs of the generator, and the time-to-bytes proof.
- `UuidJson`: a reader for the text `{"uuid":"<id>"}`.
- `Variants`: lemmas on how the copies differ.

The copies are modelled in the form of their code:

- Loops and accumulators (`padLeft`, the `map` callbacks that push or append, the in-place `splice`) are methods. Each is proved equal to a specification function, and the properties are proved about that function.
- Expression code is written as functions.
- In src/UUID.js, the module flag `secret.instantiateEnabled` is a field of the class `SrcUUID.Factory`. The static factories that set it on and off are methods of that class.
- The instances of src/UUID.js hold a list captured by the constructor that none of their methods changes, so they are a datatype.
- The instances of src/index.js set a field in their constructor, so they are a class.

Four behaviours of the code worth knowing:

- The `toJSON` of src/UUID.js emits `...}"`, where `..."}` is meant (see Findings).
- The random bytes of src/UUIDUtil.js and lib/UUIDUtil.js lie in [0, 254]; those of src/index.js in [0, 255].
- `hexToDigitList` drops a trailing odd character.
- The `isUUID` of src/index.js accepts hyphens anywhere, and unhyphenated hex; that of src/UUID.js accepts only the 8-4-4-4-12 form.

## Model

| member | source | states |
|---|---|---|
| `Hex.HexValue` | src/UUIDUtil.js:64 | the value `parseInt(_, 16)` gives one hex digit of either case is below 16 |
| `Hex.HexDigit` | src/UUIDUtil.js:83 | the digit `toString(16)` writes for a value below 16 is lower-case hex and reads back as that value |
| `Hex.NatToHex` | src/UUIDUtil.js:83 | `toString(16)` of a non-negative integer is at least one lowercase hex digit; its last digit is n mod 16; it has one digit exactly when n < 16 |
| `Hex.ZeroPad` | src/UUIDUtil.js:36-39 | the padded text has length max(\|s\|, width), ends with `s`, and every added character is '0' |
| `Hex.ZeroPadIdempotent` | src/UUIDUtil.js:36-39 | padding an already padded text to the same width changes nothing |
| `Hex.LastChars` | src/UUIDUtil.js:99 | `substr(-k)`, for k >= 1, keeps the last min(k, \|s\|) characters |
| `Codec.PairValue` | src/UUIDUtil.js:64 | `parseInt` of two hex characters is a byte value |
| `Codec.ByteToHex` | src/UUIDUtil.js:83 | a byte as two lowercase hex digits that parse back to it |
| `Codec.BytesToHex` | src/UUIDUtil.js:77-87 | the encoding has 2·\|l\| lowercase hex characters |
| `Codec.HexToBytes` | src/UUIDUtil.js:50-69 | the decoding has \|h\|/2 bytes (a trailing odd character is dropped); element i is the value of the pair h[2i] h[2i+1] |
| `Codec.PaddedByteHex` | src/UUIDUtil.js:83 | `padLeft(b.toString(16))` is the two-digit form of every byte |
| `Codec.DecodeEncode` | src/UUIDUtil.js:50-87 | `hexToDigitList(digitListToHex(l)) == l` for every list of bytes |
| `Codec.EncodeDecode` | src/UUIDUtil.js:50-87 | `digitListToHex(hexToDigitList(h))` is `h` in lower case, for even-length hex `h` |
| `Shape.IsHex32` | src/UUIDUtil.js:17 | the five groups of the format pattern back to back, as in `PATTERN` of src/index.js:1: exactly 32 hex characters of either case |
| `Shape.IsCanonical36` | src/UUID.js:75 | the regular expression of `isUUID`: 8, 4, 4, 4 and 12 hex characters of either case, separated by hyphens, and nothing else |
| `Shape.Hyphenate` | src/UUIDUtil.js:19 | the replacement `'$1-$2-$3-$4-$5'` of the groups 8, 4, 4, 4 and 12; the result has 36 characters |
| `Shape.RemoveHyphens` | src/UUID.js:126 | `replace(/-/g, '')` leaves no hyphen and never lengthens the text |
| `Shape.RemoveHyphensKeeps` | src/UUID.js:126 | every character other than '-' is kept, and every character of the result comes from the input |
| `Shape.RemoveHyphensNone` | src/UUID.js:126 | text without a hyphen comes back unchanged |
| `Shape.RemoveHyphensAppend` | src/UUID.js:126 | removal works piece by piece and keeps the order: the result for `a + b` is the result for `a` followed by that for `b` |
| `Shape.HexOrHyphens` | src/index.js:72 | the hyphen-free text is hex exactly when every character of the input is a hex digit or a hyphen |
| `Shape.HyphenateCanonical` | src/UUIDUtil.js:17-19 | hyphenating 32 hex characters gives the canonical shape, and removing the hyphens gives them back |
| `Shape.CanonicalHyphenated` | src/UUID.js:75 | every canonical string is the hyphenation of its 32 hex characters |
| `Shape.CanonicalIffHyphenated` | src/UUID.js:75 | canonical shape holds exactly for hyphenations of 32 hex characters (both directions) |
| `Shape.CanonicalChars` | src/UUID.js:75 | a canonical string holds only hex digits and hyphens |
| `Shape.LowerHyphenate` | src/UUID.js:50-55 | lowercasing commutes with hyphenation |
| `RandomDigits.TimeHex` | src/UUIDUtil.js:99 | the text `padLeft(time.toString(16).substr(-8), 8)` (its properties are in `TimeHexBytes`) |
| `RandomDigits.PaddedSuffix` | src/UUIDUtil.js:99 | `padLeft(n.toString(16).substr(-k), k)` is exactly the k low-order hex digits of n |
| `RandomDigits.FixedHexBytes` | src/UUIDUtil.js:99-101 | 2k low-order hex digits are the hex of the k low-order bytes, big-endian |
| `RandomDigits.TimeHexBytes` | src/UUIDUtil.js:97-101 | the time text has 8 hex characters and parses to the 4 low-order bytes of the time |
| `RandomDigits.TimeBytesExplicit` | src/UUIDUtil.js:97-101 | those bytes are time/2^24, time/2^16, time/2^8 and time, each mod 256 |
| `RandomDigits.TimeBytesLowWord` | src/UUIDUtil.js:97 | only time mod 2^32 matters |
| `RandomDigits.IsDrawList` | src/UUIDUtil.js:103 | twelve values of `parseInt(Math.random() * 0xFF)`, each in [0, 254] |
| `RandomDigits.DrawsSpliced` | src/UUIDUtil.js:103-105 | splicing 4 time bytes into 12 draws at index 10 gives 16 byte values |
| `UuidJson.ReadUuidMember` | src/index.js:19 | a text read as `{"uuid":"v"}` is exactly that text, and `v` needs no escaping: no quote, backslash or control character |
| `UuidJson.ReadWritten` | src/index.js:19 | writing a plain value into the object and reading it back gives the value |
| `SrcUUIDUtil.FormatUUIDFromHex` | src/UUIDUtil.js:15-20 | for 32 hex characters of either case, the result is canonical and its hyphen-free form is the input (so case is kept); any other input comes back unchanged |
| `SrcUUIDUtil.Width` | src/UUIDUtil.js:34 | the target length `count \|\| 2`: 2 for an absent count or 0, the count otherwise |
| `SrcUUIDUtil.PadLeft` | src/UUIDUtil.js:30-42 | the loop computes ZeroPad to `count \|\| 2`: a count of 0 or an absent count pads to 2 |
| `SrcUUIDUtil.HexToDigitList` | src/UUIDUtil.js:50-69 | the loop, with its value carried across callbacks, computes `HexToBytes(hex)` |
| `SrcUUIDUtil.DigitListToHex` | src/UUIDUtil.js:77-87 | the accumulating loop computes `BytesToHex(list)` |
| `SrcUUIDUtil.CreateRandomDigitList` | src/UUIDUtil.js:95-108 | the result is draws[0..10] + the 4 big-endian bytes of the time + draws[10..12]; it has 16 byte values |
| `LibUUIDUtil.FormatUUIDFromHex` | lib/UUIDUtil.js:13-18 | as in src/UUIDUtil.js: hyphens inserted exactly for 32 hex characters, any other input unchanged |
| `LibUUIDUtil.Width` | lib/UUIDUtil.js:28 | the default parameter `count = 2`: 2 only for an absent count |
| `LibUUIDUtil.PadLeft` | lib/UUIDUtil.js:28-38 | the loop computes ZeroPad to `count`, defaulting to 2 only when absent; an explicit 0 leaves the text unchanged |
| `LibUUIDUtil.HexToDigitList` | lib/UUIDUtil.js:46-65 | the loop computes `HexToBytes(hex)` |
| `LibUUIDUtil.DigitListToHex` | lib/UUIDUtil.js:73-83 | the loop computes `BytesToHex(list)` |
| `LibUUIDUtil.CreateRandomDigitList` | lib/UUIDUtil.js:91-104 | 10 draws, the 4 big-endian time bytes, then 2 draws: 16 byte values |
| `SrcUUID.IsUUID` | src/UUID.js:73-78 | accepts exactly the hyphenations of 32 hex characters (both directions); an unhyphenated 32-character hex string is rejected |
| `SrcUUID.GetId` | src/UUID.js:50-55 | for 16 bytes the id has length 36, passes `isUUID`, is all lower case, and removing its hyphens gives the hex of the digits |
| `SrcUUID.ToJSON` | src/UUID.js:62-65 | the text is `{"uuid":"`, then the id, then `}"`, as written |
| `SrcUUID.ToJSONUnreadable` | src/UUID.js:64 | the text `toJSON` writes is never readable as the one-member object |
| `SrcUUID.IntendedToJSON` | src/UUID.js:64 | the intended text reads back as the object whose `uuid` member is the id, for every list of bytes |
| `SrcUUID.IdIsPlain` | src/UUID.js:50-55 | an id, hyphenated or not, needs no escaping in a JSON string |
| `SrcUUID.Digits` | src/UUID.js:42 | `digits()` returns a newly allocated array holding the stored list, so writing to it cannot reach the instance |
| `SrcUUID.ParsedDigits` | src/UUID.js:118-134 | the digits stored for a valid id are 16 byte values |
| `SrcUUID.GetIdOfParsed` | src/UUID.js:118-134 | round trip: `fromString(s).getId()` is `s` in lower case, for every `s` with `isUUID(s)` |
| `SrcUUID.ParseGetId` | src/UUID.js:50-55 | round trip: the id of a 16-byte instance passes `isUUID` and parses back to the same digits |
| `SrcUUID.FromHexAccepts` | src/UUID.js:97-109 | `isUUID(formatUUIDFromHex(h))` holds exactly for 32-hex-character `h` and for `h` already canonical |
| `SrcUUID.Factory.constructor` | src/UUID.js:15-17 | the flag starts off |
| `SrcUUID.Factory.New` | src/UUID.js:28-35 | `new UUID(value)` throws while the flag is off; otherwise it keeps `value`, or uses a random list when `value` is absent |
| `SrcUUID.Factory.CreateUUIDInstance` | src/UUID.js:145-154 | the instance holds the given list or a random one, and the flag is off again afterwards |
| `SrcUUID.Factory.RandomUUID` | src/UUID.js:85-88 | 10 draws, the 4 time bytes, then 2 draws; 16 bytes; flag off afterwards |
| `SrcUUID.Factory.FromString` | src/UUID.js:118-134 | throws `InvalidId(id)` exactly when `isUUID(id)` is false, and then changes nothing; otherwise stores the hex pairs of `id` (16 bytes), `getId()` is `id` in lower case, and the flag is off |
| `SrcUUID.Factory.FromHex` | src/UUID.js:97-109 | throws `InvalidHex(hex)` exactly unless `hex` is 32 hex characters or already canonical; otherwise it stores the pairs of the formatted text (the pairs of `hex` itself for raw hex), and `getId()` is the formatted text in lower case |
| `SrcIndex.FormatUUIDFromHex` | src/index.js:23-26 | the same replacement with the non-global `PATTERN`: hyphens exactly for 32 hex characters |
| `SrcIndex.Width` | src/index.js:28 | the default parameter `lengthTotal = 2`: 2 only for an absent length |
| `SrcIndex.PadLeft` | src/index.js:28-36 | the loop computes ZeroPad to `lengthTotal`, which defaults to 2 |
| `SrcIndex.Pairs` | src/index.js:40 | for \|s\| >= 2, `match(/.{2}/g)` gives \|s\|/2 consecutive 2-character pieces (for shorter text `match` gives `null`, which `SrcIndex.HexToDigitList` handles) |
| `SrcIndex.HexToDigitList` | src/index.js:38-43 | no result (the `map` on `null` throws) exactly when fewer than 2 characters; otherwise the pieces parsed, which equal `HexToBytes(hex)` |
| `SrcIndex.PaddedHexes` | src/index.js:47 | `list.map(item => padLeft(item.toString(16)))`: one piece per item |
| `SrcIndex.Join` | src/index.js:49 | `join('')`: the pieces concatenated in order |
| `SrcIndex.DigitListToHex` | src/index.js:45-50 | `map(padLeft(toString(16))).join('')` equals `BytesToHex(list)` |
| `SrcIndex.PaddedJoin` | src/index.js:47-49 | joining the padded hex of each byte gives the reference encoding |
| `SrcIndex.IsByteDraws` | src/index.js:63-68 | `randomDigits(count)`: `count` values of `Math.floor(Math.random() * 0x100)`, each in [0, 255] |
| `SrcIndex.TimeDigitList` | src/index.js:56-58 | `hexToDigitList` of the padded time text gives the four big-endian time bytes |
| `SrcIndex.CreateRandomDigitList` | src/index.js:52-68 | `randomDigits(10)`, the 4 big-endian time bytes, then `randomDigits(2)`: 16 values in [0, 255] |
| `SrcIndex.IsUUID` | src/index.js:70-73 | accepts exactly the texts whose characters are all hex digits or hyphens and that hold 32 characters besides the hyphens (both directions); so every canonical string and every unhyphenated 32-hex string is accepted, and anything accepted has at least 32 characters |
| `SrcIndex.UUID.constructor` | src/index.js:5-8 | with no gate: the field is the given list, or the random list when none is given |
| `SrcIndex.UUID.GetId` | src/index.js:10-15 | for 16 bytes the id is canonical and lower case, and removing its hyphens gives the hex of the digits |
| `SrcIndex.UUID.ToJSON` | src/index.js:17-20 | the text reads back as `{"uuid":"<getId()>"}`, for instances of any number of bytes |
| `SrcIndex.IdIsPlain` | src/index.js:10-15 | an id, hyphenated or not, needs no escaping in a JSON string |
| `SrcIndex.GetIdOfParsed` | src/index.js:87-97 | the id of the instance built by `fromString(s)` is the hyphenation of `s`'s hex, in lower case |
| `SrcIndex.RandomUUID` | src/index.js:75-78 | a new instance holding 10 draws, the time bytes, then 2 draws |
| `SrcIndex.FromString` | src/index.js:87-97 | throws `InvalidId(id)` exactly when `isUUID(id)` is false; otherwise a new instance with the 16 hex pairs of `id` without hyphens |
| `SrcIndex.FormatKeepsHex` | src/index.js:80-85 | formatting keeps the hyphen-free hex, and so does not change what `isUUID` accepts |
| `SrcIndex.FromHex` | src/index.js:80-85 | behaves as `fromString(hex)`: it throws `InvalidId(hex)` exactly when `isUUID(hex)` is false, and otherwise stores the pairs of `hex` without hyphens |
| `Variants.StrictAcceptsLess` | src/index.js:70-73 | every id src/UUID.js accepts, src/index.js accepts too |
| `Variants.StrayHyphen` | src/index.js:70-73 | a hyphen followed by 32 hex digits passes src/index.js and fails src/UUID.js |
| `Variants.UnhyphenatedHex` | src/UUID.js:73-78 | 32 raw hex characters pass src/index.js and fail src/UUID.js |
| `Variants.PadWidths` | lib/UUIDUtil.js:28 | the two `padLeft` defaults differ only for an explicit count of 0 |
| `Variants.PadZeroCount` | src/UUIDUtil.js:34 | with a count of 0, src pads to 2 characters and lib returns the text as is |

## Left out

- `Math.random` and `new Date().getTime()` become inputs. The clock reading is a natural number `time`. The drawn values are integer lists whose range is a precondition: [0, 254] for `parseInt(Math.random() * 0xFF)`, and [0, 255] for `Math.floor(Math.random() * 0x100)`. The floating-point arithmetic that yields them is not modelled.
- A negative clock reading (before 1970) is not modelled; its `toString(16)` would start with '-'.
- `randomDigits(count)` in src/index.js is represented by its two results, the 10 and 2 drawn values passed to `SrcIndex.CreateRandomDigitList`.
- Uniqueness of generated ids is probabilistic and is not stated.
- `Hex.LastChars` models `substr(-k)` for k >= 1 only; `substr(-0)` would return the whole text, and the library only uses k = 8.
- `hexToDigitList` on non-hex characters is excluded by a precondition. There, `parseInt` gives NaN or a partial parse.
- `digitListToHex` on values outside [0, 255] or non-integers is excluded by a precondition. There, `toString(16)` gives more than two characters or a fraction.
- The regular expressions are character predicates. The `g` flag's `lastIndex` state is never involved, because each pattern with `g` is built afresh or used with `match`/`replace`, which reset it.
- In `/.{2}/g`, `.` does not match line terminators. That is irrelevant under the hex precondition.
- `toLowerCase` is modelled for ASCII letters only. All the round-trip statements apply it to hex text.
- `isUUID()` with no argument (default `''`) and non-string arguments are not modelled; every input is a string.
- The `splice` in `createRandomDigitList` reassigns a local sequence. The array it edits in place is local, so there is no aliasing to capture.
- The field `__digits__` of src/index.js is a public property. The constructor keeps the caller's array by reference, not a copy. A later in-place write to that array (`a[0] = 255` after `new UUID(a)`), or to `u.__digits__`, changes what `getId()` and `toJSON()` return. `SrcIndex.UUID` holds the digits as a sequence value, so this aliasing is not captured, and neither is a caller reassigning the property. src/UUID.js has no such aliasing: its instances are never handed a caller's array (`fromString` builds a new list), and `digits()` hands out a copy.
- `this.digits` in src/UUID.js is a writable property holding a closure. A caller that replaces it changes what `getId()` reads; the model treats an instance as the value its constructor captured.
- Exceptions are `Err` values carrying the offending input. The message wording is not modelled.
- Module wiring is not modelled: `import`/`export`, `module.exports` and `'use strict'`.
- The `UUID` instances of src/UUID.js are values. The private `_digits` array behind the `digits()` closure cannot be reached, so `SrcUUID.Digits` models only the copy handed out.
- SrcUUID.GetId: stated for digit lists of byte values. For 16 bytes it states the canonical form; for other lengths the hex is returned unformatted.

## Findings

| source | as written | input that shows it | evidently intended | confidence | as-written member | corrected member |
|---|---|---|---|---|---|---|
| src/UUID.js:64 | `toJSON()` returns `{"uuid":"` + id + `}"`, with the closing quote and brace swapped | every instance; the all-zero id gives `{"uuid":"00000000-0000-0000-0000-000000000000}"`, a JSON object that is never closed (the string value swallows the `}`) | `{"uuid":"` + id + `"}`, as src/index.js:19 writes it | high; not executed | `SrcUUID.ToJSONUnreadable` (about `SrcUUID.ToJSON`) | `SrcUUID.IntendedToJSON` |
