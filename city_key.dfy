/** normalizeCity: a free-text location becomes the key of the per-city catalog
    (lower-cased, every run of white space replaced by one hyphen). */
module CityKey {
  import opened Wrappers
  import opened Text

  /** The suffix of `s` that starts at its first non-space character. */
  function DropSpaces(s: string): (r: string)
    decreases |s|
    ensures |r| <= |s| && r == s[|s| - |r|..]
    ensures r == [] || !IsSpace(r[0])
  {
    if s != [] && IsSpace(s[0]) then DropSpaces(s[1..]) else s
  }

  /** The global replacement of /\s+/ by "-": each maximal run of white space becomes one '-'. */
  function CollapseSpaces(s: string): (r: string)
    decreases |s|
    ensures NoSpace(r)
    ensures forall i :: 0 <= i < |r| ==> r[i] == '-' || (r[i] in s && !IsSpace(r[i]))
  {
    if s == [] then []
    else if IsSpace(s[0]) then
      var rest := DropSpaces(s[1..]);
      ['-'] + CollapseSpaces(rest)
    else [s[0]] + CollapseSpaces(s[1..])
  }

  /** A string without white space is left alone by the replacement. */
  lemma {:induction false} CollapseWithoutSpaces(s: string)
    requires NoSpace(s)
    ensures CollapseSpaces(s) == s
  {
    if s != [] {
      assert !IsSpace(s[0]);
      CollapseWithoutSpaces(s[1..]);
    }
  }

  /** `(loc || "").toLowerCase().replace(/\s+/g, "-")`; `None` stands for null/undefined. */
  function NormalizeCity(loc: Option<string>): (key: string)
    ensures NoSpace(key) && NoUpper(key)
    ensures loc.None? ==> key == ""
    ensures |key| <= |loc.GetOr("")|
  {
    var s := Lower(loc.GetOr(""));
    LowerHasNoUpper(loc.GetOr(""));
    CollapseLength(s);
    CollapseSpaces(s)
  }

  lemma {:induction false} CollapseLength(s: string)
    ensures |CollapseSpaces(s)| <= |s|
    decreases |s|
  {
    if s != [] {
      if IsSpace(s[0]) {
        CollapseLength(DropSpaces(s[1..]));
      } else {
        CollapseLength(s[1..]);
      }
    }
  }

  /** Normalizing a key again gives the same key. */
  lemma NormalizeCityIdempotent(loc: Option<string>)
    ensures NormalizeCity(Some(NormalizeCity(loc))) == NormalizeCity(loc)
  {
    var key := NormalizeCity(loc);
    LowerOfLowerCase(key);
    CollapseWithoutSpaces(key);
  }

  /** Without white space in the input, normalization is plain lower-casing. */
  lemma NormalizeCityWithoutSpaces(s: string)
    requires NoSpace(s)
    ensures NormalizeCity(Some(s)) == Lower(s)
  {
    assert NoSpace(Lower(s)) by {
      forall i | 0 <= i < |s| ensures !IsSpace(Lower(s)[i]) {
        assert !IsSpace(s[i]);
      }
    }
    CollapseWithoutSpaces(Lower(s));
  }
}
