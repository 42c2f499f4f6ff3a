/**
 * How the three copies of the library differ: the strict `isUUID` of
 * src/UUID.js against the hyphen-blind one of src/index.js, and the
 * `padLeft` defaults.
 */
module Variants {
  import opened Results
  import opened Hex
  import opened Shape
  import SrcUUID
  import SrcIndex
  import SrcUUIDUtil
  import LibUUIDUtil

  /** Every id src/UUID.js accepts is accepted by src/index.js. */
  lemma StrictAcceptsLess(s: string)
    ensures SrcUUID.IsUUID(s) ==> SrcIndex.IsUUID(s)
  {
  }

  /** A leading hyphen before 32 hex digits passes src/index.js and fails src/UUID.js. */
  lemma StrayHyphen()
    ensures SrcIndex.IsUUID("-" + Zeros(32))
    ensures !SrcUUID.IsUUID("-" + Zeros(32))
  {
    RemoveHyphensHex(Zeros(32));
    assert RemoveHyphens("-" + Zeros(32)) == RemoveHyphens(Zeros(32));
  }

  /** Unhyphenated hex passes src/index.js and fails src/UUID.js. */
  lemma UnhyphenatedHex(s: string)
    requires IsHex32(s)
    ensures SrcIndex.IsUUID(s) && !SrcUUID.IsUUID(s)
  {
  }

  /** The two `padLeft` defaults agree on every count except an explicit 0. */
  lemma PadWidths(count: Option<int>)
    ensures SrcUUIDUtil.Width(count) == LibUUIDUtil.Width(count) <==> count != Some(0)
    ensures LibUUIDUtil.Width(count) == SrcIndex.Width(count)
  {
  }

  /** With a count of 0, src/UUIDUtil.js pads to two characters and lib/UUIDUtil.js returns the text as is. */
  lemma PadZeroCount(hex: string)
    ensures ZeroPad(hex, SrcUUIDUtil.Width(Some(0))) == ZeroPad(hex, 2)
    ensures ZeroPad(hex, LibUUIDUtil.Width(Some(0))) == hex
  {
  }
}
