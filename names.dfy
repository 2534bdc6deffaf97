/**
 * County names as the geocoder and the region table spell them.
 * The geocoder's long name of a county carries the word " County"
 * ("Travis County"); the pipeline removes it to get the county identifier
 * used by the neighbour map, and appends it again to query the table.
 */
module CountyNames {

  const COUNTY_SUFFIX: string := " County"

  /** `pat` occurs somewhere in `s`. */
  predicate Occurs(s: string, pat: string)
    decreases |s|
  {
    pat <= s || (s != [] && Occurs(s[1..], pat))
  }

  /**
   * `s` with every occurrence of `pat` removed, scanning left to right and
   * never letting two removed occurrences overlap: Rust's
   * `str::replace(pat, "")` for a non-empty pattern.
   */
  function RemoveAll(s: string, pat: string): (r: string)
    requires pat != []
    ensures |r| <= |s|
    decreases |s|
  {
    if pat <= s then RemoveAll(s[|pat|..], pat)
    else if s == [] then []
    else [s[0]] + RemoveAll(s[1..], pat)
  }

  /** The county identifier taken from a geocoder long name. */
  function StripCounty(longName: string): string
  {
    RemoveAll(longName, COUNTY_SUFFIX)
  }

  /** The name under which the region table stores a county's records. */
  function FullName(county: string): (r: string)
    ensures |r| == |county| + |COUNTY_SUFFIX|
    ensures county <= r && r[|county|..] == COUNTY_SUFFIX
  {
    county + COUNTY_SUFFIX
  }

  /** A name in which the pattern does not occur is returned unchanged. */
  lemma {:induction false} RemoveAllAbsent(s: string, pat: string)
    requires pat != [] && !Occurs(s, pat)
    ensures RemoveAll(s, pat) == s
    decreases |s|
  {
    if s != [] {
      RemoveAllAbsent(s[1..], pat);
    }
  }

  /**
   * Every " County" standing between two parts of a name is removed, and
   * removal in either part is unaffected by the other: the word cannot
   * overlap the text around it.
   */
  lemma {:induction false} StripAcrossSuffix(a: string, b: string)
    ensures StripCounty(a + COUNTY_SUFFIX + b) == StripCounty(a) + StripCounty(b)
    decreases |a|
  {
    var s := a + COUNTY_SUFFIX + b;
    if a == [] {
      assert s == COUNTY_SUFFIX + b;
      assert s[|COUNTY_SUFFIX|..] == b;
    } else if COUNTY_SUFFIX <= a {
      assert s[|COUNTY_SUFFIX|..] == a[|COUNTY_SUFFIX|..] + COUNTY_SUFFIX + b;
      StripAcrossSuffix(a[|COUNTY_SUFFIX|..], b);
    } else {
      if |a| < |COUNTY_SUFFIX| {
        // the space opening the appended word would have to match a letter of it
        assert s[|a|] == ' ' != COUNTY_SUFFIX[|a|];
      } else {
        assert s[..|COUNTY_SUFFIX|] == a[..|COUNTY_SUFFIX|];
      }
      assert !(COUNTY_SUFFIX <= s);
      assert s[1..] == a[1..] + COUNTY_SUFFIX + b;
      StripAcrossSuffix(a[1..], b);
    }
  }

  /**
   * The table is queried under the geocoder's own long name: for a long
   * name "<n> County" whose <n> does not itself contain " County", the
   * county identifier is <n> and its full name is the long name again.
   */
  lemma StoreNameRoundTrip(n: string)
    requires !Occurs(n, COUNTY_SUFFIX)
    ensures StripCounty(n + COUNTY_SUFFIX) == n
    ensures FullName(StripCounty(n + COUNTY_SUFFIX)) == n + COUNTY_SUFFIX
  {
    StripAcrossSuffix(n, []);
    assert n + COUNTY_SUFFIX + [] == n + COUNTY_SUFFIX;
    RemoveAllAbsent(n, COUNTY_SUFFIX);
  }
}
