/** State normalisation: rows whose state mentions "D.C." become "DC"; every
    other state goes through an external name-to-abbreviation lookup. */
module StateNames {
  import opened Outcomes
  import opened Records

  /** `pat` sits in `s` starting at position `i`. */
  ghost predicate MatchesAt(s: string, pat: string, i: int)
  {
    0 <= i <= |s| - |pat| && s[i..i + |pat|] == pat
  }

  /** `pat` occurs at some position of `s` (Python's `pat in s`). */
  ghost predicate OccursIn(pat: string, s: string)
  {
    exists i :: MatchesAt(s, pat, i)
  }

  /** Scanning definition of substring search. */
  predicate HasSubstring(s: string, pat: string)
    decreases |s|
  {
    if |s| < |pat| then false
    else s[..|pat|] == pat || HasSubstring(s[1..], pat)
  }

  /** The scan finds `pat` exactly when it occurs somewhere in `s`. */
  lemma {:induction false} HasSubstringIsOccurs(s: string, pat: string)
    ensures HasSubstring(s, pat) <==> OccursIn(pat, s)
    decreases |s|
  {
    if |s| >= |pat| && s[..|pat|] == pat {
      assert MatchesAt(s, pat, 0);
    } else if |s| >= |pat| {
      HasSubstringIsOccurs(s[1..], pat);
      if OccursIn(pat, s) {
        var i :| MatchesAt(s, pat, i);
        assert i > 0;
        assert s[1..][i - 1..i - 1 + |pat|] == s[i..i + |pat|];
        assert MatchesAt(s[1..], pat, i - 1);
      }
      if OccursIn(pat, s[1..]) {
        var i :| MatchesAt(s[1..], pat, i);
        assert s[i + 1..i + 1 + |pat|] == s[1..][i..i + |pat|];
        assert MatchesAt(s, pat, i + 1);
      }
    }
  }

  const DistrictMarker: string := "D.C."

  /** The abbreviation of one raw state string. `lookup` stands for the
      external state table; `None` is a name it does not know. */
  function NormalizeState(raw: string, lookup: string -> Option<string>): (r: Result<string>)
    ensures OccursIn(DistrictMarker, raw) ==> r == Ok("DC")
    ensures !OccursIn(DistrictMarker, raw) ==>
      (lookup(raw).Some? ==> r == Ok(lookup(raw).value)) &&
      (lookup(raw).None? ==> r == Err(UnknownState(raw)))
  {
    HasSubstringIsOccurs(raw, DistrictMarker);
    if !HasSubstring(raw, DistrictMarker) then
      match lookup(raw)
      case Some(abbr) => Ok(abbr)
      case None => Err(UnknownState(raw))
    else Ok("DC")
  }

  /** The District case never consults the lookup: any two lookups agree. */
  lemma DistrictIgnoresLookup(raw: string, lookup1: string -> Option<string>, lookup2: string -> Option<string>)
    requires OccursIn(DistrictMarker, raw)
    ensures NormalizeState(raw, lookup1) == NormalizeState(raw, lookup2) == Ok("DC")
  {
  }

  /** A state string that ends with "D.C." normalises to "DC". */
  lemma {:induction false} DistrictSuffix(prefix: string, lookup: string -> Option<string>)
    ensures NormalizeState(prefix + DistrictMarker, lookup) == Ok("DC")
  {
    var s := prefix + DistrictMarker;
    assert s[|prefix|..|prefix| + |DistrictMarker|] == DistrictMarker;
    assert MatchesAt(s, DistrictMarker, |prefix|);
  }

  /** Replace every row's state by its abbreviation, row by row; the first
      row that cannot be normalised stops the pass. */
  function NormalizeStates(rows: seq<Stadium>, lookup: string -> Option<string>): (r: Result<seq<Stadium>>)
    ensures r.Ok? <==> forall i :: 0 <= i < |rows| ==> NormalizeState(rows[i].state, lookup).Ok?
    ensures r.Ok? ==> |r.value| == |rows|
    ensures r.Ok? ==> forall i :: 0 <= i < |rows| ==>
      r.value[i] == rows[i].(state := NormalizeState(rows[i].state, lookup).value)
    ensures r.Err? ==> exists i :: 0 <= i < |rows| && NormalizeState(rows[i].state, lookup) == Err(r.error)
  {
    if |rows| == 0 then Ok([])
    else
      match NormalizeState(rows[0].state, lookup)
      case Err(e) => Err(e)
      case Ok(abbr) =>
        match NormalizeStates(rows[1..], lookup)
        case Err(e) => Err(e)
        case Ok(rest) => Ok([rows[0].(state := abbr)] + rest)
  }
}
