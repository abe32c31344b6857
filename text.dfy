/** The few string operations of Python's `str` that the program relies on. */
module Text {

  /** `s.startswith(prefix)` */
  predicate StartsWith(s: string, prefix: string)
  {
    |prefix| <= |s| && s[..|prefix|] == prefix
  }

  /** `pat in s`: some suffix of `s` starts with `pat`. */
  predicate Contains(s: string, pat: string)
    decreases |s|
  {
    StartsWith(s, pat) || (|s| > 0 && Contains(s[1..], pat))
  }

  /** `s.replace(pat, "")`: scanning left to right, every non-overlapping
      occurrence of `pat` is dropped. */
  function RemoveAll(s: string, pat: string): (r: string)
    requires pat != []
    ensures |r| <= |s|
    decreases |s|
  {
    if |s| < |pat| then s
    else if s[..|pat|] == pat then RemoveAll(s[|pat|..], pat)
    else [s[0]] + RemoveAll(s[1..], pat)
  }

  /** `sep.join(parts)` */
  function Join(parts: seq<string>, sep: string): string
  {
    if |parts| == 0 then ""
    else if |parts| == 1 then parts[0]
    else Join(parts[..|parts| - 1], sep) + sep + parts[|parts| - 1]
  }

  lemma {:induction false} ContainsIsLongEnough(s: string, pat: string)
    requires Contains(s, pat)
    ensures |pat| <= |s|
    decreases |s|
  {
    if !StartsWith(s, pat) {
      ContainsIsLongEnough(s[1..], pat);
    }
  }

  /** Removing `pat` leaves `s` as it is exactly when `pat` does not occur in `s`;
      otherwise the result is strictly shorter. */
  lemma {:induction false} RemoveAllUnchangedIff(s: string, pat: string)
    requires pat != []
    ensures RemoveAll(s, pat) == s <==> !Contains(s, pat)
    ensures Contains(s, pat) ==> |RemoveAll(s, pat)| < |s|
    decreases |s|
  {
    if Contains(s, pat) {
      ContainsIsLongEnough(s, pat);
      if s[..|pat|] != pat {
        assert !StartsWith(s, pat);
        RemoveAllUnchangedIff(s[1..], pat);
      }
    } else if |s| >= |pat| {
      assert s[..|pat|] != pat;
      assert |s| > 0;
      RemoveAllUnchangedIff(s[1..], pat);
      assert [s[0]] + s[1..] == s;
    }
  }

  /** A leading occurrence is removed and the scan goes on after it. */
  lemma RemoveAllLeading(pat: string, rest: string)
    requires pat != []
    ensures RemoveAll(pat + rest, pat) == RemoveAll(rest, pat)
  {
    assert (pat + rest)[..|pat|] == pat;
    assert (pat + rest)[|pat|..] == rest;
  }

  /** Joining one more part adds the separator and the part at the end. */
  lemma JoinSnoc(parts: seq<string>, sep: string, p: string)
    requires parts != []
    ensures Join(parts + [p], sep) == Join(parts, sep) + sep + p
  {
    assert (parts + [p])[..|parts|] == parts;
  }

  /** Joining splits at any inner boundary into two joins and one separator. */
  lemma {:induction false} JoinSplit(parts: seq<string>, sep: string, k: nat)
    requires 0 < k < |parts|
    ensures Join(parts, sep) == Join(parts[..k], sep) + sep + Join(parts[k..], sep)
    decreases |parts|
  {
    var n := |parts|;
    var init := parts[..n - 1];
    assert init + [parts[n - 1]] == parts;
    JoinSnoc(init, sep, parts[n - 1]);
    if k == n - 1 {
      assert init == parts[..k];
      assert parts[k..] == [parts[n - 1]];
    } else {
      JoinSplit(init, sep, k);
      assert init[..k] == parts[..k];
      var rest := init[k..];
      assert rest + [parts[n - 1]] == parts[k..];
      JoinSnoc(rest, sep, parts[n - 1]);
    }
  }
}
