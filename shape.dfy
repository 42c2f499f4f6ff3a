/**
 * The two textual shapes of an id: 32 hex characters, and the 8-4-4-4-12
 * hyphenated form of section 3 of RFC 4122 (shape only: no version or
 * variant bits are looked at).
 */
module Shape {
  import opened Hex

  /** `^[a-f0-9]{32}$` with the `i` flag (the five groups of the format pattern, back to back). */
  predicate IsHex32(s: string) {
    |s| == 32 && IsHexString(s)
  }

  /** `^[a-f0-9]{8}-([a-f0-9]{4}-){3}[a-f0-9]{12}$` with the `i` flag. */
  predicate IsCanonical36(s: string) {
    && |s| == 36
    && IsHexString(s[..8]) && s[8] == '-'
    && IsHexString(s[9..13]) && s[13] == '-'
    && IsHexString(s[14..18]) && s[18] == '-'
    && IsHexString(s[19..23]) && s[23] == '-'
    && IsHexString(s[24..])
  }

  /** The replacement `'$1-$2-$3-$4-$5'` over the groups 8, 4, 4, 4 and 12 of a 32-character string. */
  function Hyphenate(h: string): (s: string)
    requires |h| == 32
    ensures |s| == 36
  {
    h[..8] + "-" + h[8..12] + "-" + h[12..16] + "-" + h[16..20] + "-" + h[20..]
  }

  /** `s.replace(/-/g, '')`. */
  function RemoveHyphens(s: string): (r: string)
    ensures |r| <= |s|
    ensures forall i :: 0 <= i < |r| ==> r[i] != '-'
  {
    if s == [] then [] else (if s[0] == '-' then [] else [s[0]]) + RemoveHyphens(s[1..])
  }

  lemma {:induction false} RemoveHyphensAppend(a: string, b: string)
    ensures RemoveHyphens(a + b) == RemoveHyphens(a) + RemoveHyphens(b)
  {
    if a == [] {
      assert a + b == b;
    } else {
      var head := if a[0] == '-' then [] else [a[0]];
      assert (a + b)[0] == a[0];
      assert (a + b)[1..] == a[1..] + b;
      assert RemoveHyphens(a + b) == head + RemoveHyphens(a[1..] + b);
      RemoveHyphensAppend(a[1..], b);
      assert RemoveHyphens(a) == head + RemoveHyphens(a[1..]);
    }
  }

  /**
   * Every character other than '-' survives, and nothing else appears: together
   * with `RemoveHyphensAppend` this pins down the result, in order.
   */
  lemma {:induction false} RemoveHyphensKeeps(s: string)
    ensures forall i :: 0 <= i < |s| && s[i] != '-' ==> s[i] in RemoveHyphens(s)
    ensures forall j :: 0 <= j < |RemoveHyphens(s)| ==> RemoveHyphens(s)[j] in s
  {
    if s != [] {
      RemoveHyphensKeeps(s[1..]);
      var head := if s[0] == '-' then [] else [s[0]];
      var r := RemoveHyphens(s);
      assert r == head + RemoveHyphens(s[1..]);
      forall i | 0 <= i < |s| && s[i] != '-'
        ensures s[i] in r
      {
        if i == 0 {
          assert r[0] == s[0];
        } else {
          assert s[i] == s[1..][i - 1];
        }
      }
      forall j | 0 <= j < |r|
        ensures r[j] in s
      {
        if j >= |head| {
          assert r[j] == RemoveHyphens(s[1..])[j - |head|];
        }
      }
    }
  }

  /** Text without a hyphen is its own hyphen-free form. */
  lemma {:induction false} RemoveHyphensNone(s: string)
    requires forall i :: 0 <= i < |s| ==> s[i] != '-'
    ensures RemoveHyphens(s) == s
  {
    if s != [] {
      RemoveHyphensNone(s[1..]);
      assert s == [s[0]] + s[1..];
    }
  }

  /** The hyphen-free form is hex exactly when every character is a hex digit or a hyphen. */
  lemma HexOrHyphens(s: string)
    ensures IsHexString(RemoveHyphens(s)) <==> forall i :: 0 <= i < |s| ==> IsHexChar(s[i]) || s[i] == '-'
  {
    RemoveHyphensKeeps(s);
    var r := RemoveHyphens(s);
    if IsHexString(r) {
      forall i | 0 <= i < |s| && s[i] != '-'
        ensures IsHexChar(s[i])
      {
        assert s[i] in r;
      }
    }
  }

  /** Hex text has no hyphen to remove. */
  lemma {:induction false} RemoveHyphensHex(x: string)
    requires IsHexString(x)
    ensures RemoveHyphens(x) == x
  {
    if x != [] {
      assert x[0] != '-';
      RemoveHyphensHex(x[1..]);
      assert x == [x[0]] + x[1..];
    }
  }

  /** 32 hex characters are their own hyphen-free form. */
  lemma Hex32HasNoHyphens(s: string)
    ensures IsHex32(s) ==> RemoveHyphens(s) == s
  {
    if IsHex32(s) {
      RemoveHyphensHex(s);
    }
  }

  /** Removing the hyphens around one separator joins the two sides. */
  lemma RemoveSeparator(x: string, y: string)
    requires IsHexString(y)
    ensures RemoveHyphens(x + "-" + y) == RemoveHyphens(x) + y
  {
    RemoveHyphensAppend(x + "-", y);
    RemoveHyphensAppend(x, "-");
    RemoveHyphensHex(y);
  }

  /** Removing the hyphens of a hyphenated 8-4-4-4-12 text joins its five groups. */
  lemma RemoveHyphensOfGroups(a: string, b: string, c: string, d: string, e: string)
    requires IsHexString(a) && IsHexString(b) && IsHexString(c) && IsHexString(d) && IsHexString(e)
    ensures RemoveHyphens(a + "-" + b + "-" + c + "-" + d + "-" + e) == a + b + c + d + e
  {
    RemoveHyphensHex(a);
    RemoveSeparator(a, b);
    RemoveSeparator(a + "-" + b, c);
    RemoveSeparator(a + "-" + b + "-" + c, d);
    RemoveSeparator(a + "-" + b + "-" + c + "-" + d, e);
  }

  /** Hyphenating 32 hex characters gives the canonical shape, and removing the hyphens undoes it. */
  lemma HyphenateCanonical(h: string)
    requires IsHex32(h)
    ensures IsCanonical36(Hyphenate(h))
    ensures RemoveHyphens(Hyphenate(h)) == h
  {
    var s := Hyphenate(h);
    var a, b, c, d, e := h[..8], h[8..12], h[12..16], h[16..20], h[20..];
    assert s[..8] == a && s[9..13] == b && s[14..18] == c && s[19..23] == d && s[24..] == e;
    RemoveHyphensOfGroups(a, b, c, d, e);
    assert a + b + c + d + e == h;
  }

  /** Every canonical string is the hyphenation of the 32 hex characters left once its hyphens go. */
  lemma CanonicalHyphenated(s: string)
    requires IsCanonical36(s)
    ensures IsHex32(RemoveHyphens(s))
    ensures Hyphenate(RemoveHyphens(s)) == s
  {
    var a, b, c, d, e := s[..8], s[9..13], s[14..18], s[19..23], s[24..];
    assert s == a + "-" + b + "-" + c + "-" + d + "-" + e;
    RemoveHyphensOfGroups(a, b, c, d, e);
    var h := RemoveHyphens(s);
    assert h == a + b + c + d + e;
    assert h[..8] == a && h[8..12] == b && h[12..16] == c && h[16..20] == d && h[20..] == e;
  }

  /** The canonical strings are exactly the hyphenations of 32 hex characters. */
  lemma CanonicalIffHyphenated(s: string)
    ensures IsCanonical36(s) <==> IsHex32(RemoveHyphens(s)) && Hyphenate(RemoveHyphens(s)) == s
  {
    if IsCanonical36(s) {
      CanonicalHyphenated(s);
    } else if IsHex32(RemoveHyphens(s)) {
      HyphenateCanonical(RemoveHyphens(s));
    }
  }

  /** A canonical string is fixed by the hex characters it holds. */
  lemma CanonicalDetermined(s: string, h: string)
    requires IsCanonical36(s) && RemoveHyphens(s) == h
    ensures |h| == 32 && s == Hyphenate(h)
  {
    CanonicalHyphenated(s);
  }

  /** Every character of a canonical string is a hex digit or a hyphen. */
  lemma CanonicalChars(s: string)
    requires IsCanonical36(s)
    ensures forall i :: 0 <= i < |s| ==> IsHexChar(s[i]) || s[i] == '-'
  {
    forall i | 0 <= i < |s|
      ensures IsHexChar(s[i]) || s[i] == '-'
    {
      if i < 8 { assert s[i] == s[..8][i]; }
      else if 8 < i < 13 { assert s[i] == s[9..13][i - 9]; }
      else if 13 < i < 18 { assert s[i] == s[14..18][i - 14]; }
      else if 18 < i < 23 { assert s[i] == s[19..23][i - 19]; }
      else if 23 < i { assert s[i] == s[24..][i - 24]; }
    }
  }

  /** Lower-casing commutes with hyphenation. */
  lemma LowerHyphenate(h: string)
    requires |h| == 32
    ensures LowerString(Hyphenate(h)) == Hyphenate(LowerString(h))
  {
    var l := LowerString(h);
    assert l[..8] == LowerString(h[..8]) && l[8..12] == LowerString(h[8..12]);
    assert l[12..16] == LowerString(h[12..16]) && l[16..20] == LowerString(h[16..20]);
    assert l[20..] == LowerString(h[20..]);
  }
}
