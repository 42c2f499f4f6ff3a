/**
 * The JSON text `toJSON` is meant to produce: an object with the single member
 * `uuid` whose string value is the id, written without whitespace.
 */
module UuidJson {
  import opened Results
  import opened Hex

  const Opening: string := "{\"uuid\":\""
  const Closing: string := "\"}"

  /** A string value that needs no escape sequence: no quote, no backslash, no control character. */
  predicate IsPlainText(v: string) {
    forall i :: 0 <= i < |v| ==> ' ' <= v[i] && v[i] != '"' && v[i] != '\\'
  }

  /**
   * Reads `{"uuid":"<v>"}` back: the member's value when the text is exactly such
   * an object and the value needs no escaping, nothing otherwise.
   */
  function ReadUuidMember(s: string): (r: Option<string>)
    ensures r.Some? ==> s == Opening + r.value + Closing && IsPlainText(r.value)
  {
    if |s| >= |Opening| + |Closing| && s[..|Opening|] == Opening && s[|s| - |Closing|..] == Closing
       && IsPlainText(s[|Opening|..|s| - |Closing|])
    then
      assert s == s[..|Opening|] + s[|Opening|..|s| - |Closing|] + s[|s| - |Closing|..];
      Some(s[|Opening|..|s| - |Closing|])
    else None
  }

  /** Writing a plain value into the object and reading it back gives the value. */
  lemma ReadWritten(v: string)
    requires IsPlainText(v)
    ensures ReadUuidMember(Opening + v + Closing) == Some(v)
  {
    var s := Opening + v + Closing;
    assert s[..|Opening|] == Opening;
    assert s[|s| - |Closing|..] == Closing;
    assert s[|Opening|..|s| - |Closing|] == v;
  }

  /** Hex digits and hyphens need no escaping. */
  lemma HexAndHyphensArePlain(v: string)
    requires forall i :: 0 <= i < |v| ==> IsHexChar(v[i]) || v[i] == '-'
    ensures IsPlainText(v)
  {
  }

  /** Lower-case hex text needs no escaping. */
  lemma LowerHexIsPlain(v: string)
    requires IsLowerHexString(v)
    ensures IsPlainText(v)
  {
    HexAndHyphensArePlain(v);
  }
}
