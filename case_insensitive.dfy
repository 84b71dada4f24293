/**
 * FindSubstrCaseInsensitive(str, sub): does str contain sub, ignoring letter case?
 * Its own source is not part of this model; this definition folds the ASCII letters,
 * which is what the unit tests exercise.
 */
module CaseInsensitive {

  function ToLower(c: char): char
  {
    if 'A' <= c <= 'Z' then (c as int + 32) as char else c
  }

  function LowerAll(s: string): (r: string)
    ensures |r| == |s|
    ensures forall i :: 0 <= i < |s| ==> r[i] == ToLower(s[i])
  {
    if |s| == 0 then [] else [ToLower(s[0])] + LowerAll(s[1..])
  }

  /** sub occurs in str at position k when letter case is ignored. */
  predicate MatchesAt(str: string, sub: string, k: nat)
    requires k + |sub| <= |str|
  {
    forall j :: 0 <= j < |sub| ==> ToLower(str[k + j]) == ToLower(sub[j])
  }

  /** Searches for sub at positions i, i + 1, ... of str. */
  function FindFrom(str: string, sub: string, i: nat): (found: bool)
    ensures found <==> exists k: nat :: i <= k && k + |sub| <= |str| && MatchesAt(str, sub, k)
    decreases |str| - i
  {
    if i + |sub| > |str| then false
    else if MatchesAt(str, sub, i) then true
    else FindFrom(str, sub, i + 1)
  }

  function FindSubstrCaseInsensitive(str: string, sub: string): (found: bool)
    ensures found <==> exists k: nat :: k + |sub| <= |str| && MatchesAt(str, sub, k)
  {
    FindFrom(str, sub, 0)
  }

  /** The empty pattern is found in every string. */
  lemma EmptyPatternIsFound(str: string)
    ensures FindSubstrCaseInsensitive(str, "")
  {
    assert MatchesAt(str, "", 0);
  }

  /** Patterns that differ only in letter case are found in the same strings. */
  lemma PatternCaseIsIgnored(str: string, a: string, b: string)
    requires LowerAll(a) == LowerAll(b)
    ensures FindSubstrCaseInsensitive(str, a) == FindSubstrCaseInsensitive(str, b)
  {
    assert |a| == |LowerAll(a)| == |b|;
    forall k: nat | k + |a| <= |str|
      ensures MatchesAt(str, a, k) == MatchesAt(str, b, k)
    {
      forall j | 0 <= j < |a|
        ensures ToLower(a[j]) == ToLower(b[j])
      {
        assert LowerAll(a)[j] == LowerAll(b)[j];
      }
    }
  }

  /** Strings that differ only in letter case contain the same patterns. */
  lemma StringCaseIsIgnored(a: string, b: string, sub: string)
    requires LowerAll(a) == LowerAll(b)
    ensures FindSubstrCaseInsensitive(a, sub) == FindSubstrCaseInsensitive(b, sub)
  {
    assert |a| == |LowerAll(a)| == |b|;
    forall i | 0 <= i < |a|
      ensures ToLower(a[i]) == ToLower(b[i])
    {
      assert LowerAll(a)[i] == LowerAll(b)[i];
    }
    forall k: nat | k + |sub| <= |a|
      ensures MatchesAt(a, sub, k) == MatchesAt(b, sub, k)
    {
    }
  }

  /** The cases of the library's unit test for this helper. */
  lemma UnitTestCases()
    ensures FindSubstrCaseInsensitive("uu name01mm", "name01")
    ensures FindSubstrCaseInsensitive("uu name01mm", "nAmE01")
    ensures FindSubstrCaseInsensitive("uu name01mm", "")
    ensures !FindSubstrCaseInsensitive("uu name01mm", "nAmE012")
  {
    assert MatchesAt("uu name01mm", "name01", 3);
    assert MatchesAt("uu name01mm", "nAmE01", 3);
    EmptyPatternIsFound("uu name01mm");
    forall k: nat | k + 7 <= 11
      ensures !MatchesAt("uu name01mm", "nAmE012", k)
    {
      assert ToLower("uu name01mm"[k + 6]) != ToLower("nAmE012"[6]);
    }
  }
}
