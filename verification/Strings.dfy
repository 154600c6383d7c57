/** Searching in text: where a pattern occurs, its first and last occurrence, and suffixes. */
module Strings {
  import opened Seqs

  predicate At(s: string, pat: string, i: nat) {
    i + |pat| <= |s| && s[i..i + |pat|] == pat
  }

  ghost predicate Has(s: string, pat: string) {
    exists i: nat :: At(s, pat, i)
  }

  lemma AtChar(s: string, pat: string, i: nat, k: nat)
    requires k < |pat|
    ensures At(s, pat, i) ==> i + k < |s| && s[i + k] == pat[k]
  {
    if At(s, pat, i) {
      assert s[i..i + |pat|][k] == pat[k];
    }
  }

  /** The first occurrence at or after `from`. */
  function FindFrom(s: string, pat: string, from: nat): (r: Option<nat>)
    ensures r.Some? ==> from <= r.value && At(s, pat, r.value)
    ensures forall j: nat :: from <= j && At(s, pat, j) ==> r.Some? && r.value <= j
    decreases |s| - from
  {
    if from > |s| then None
    else if At(s, pat, from) then Some(from)
    else FindFrom(s, pat, from + 1)
  }

  function Find(s: string, pat: string): Option<nat> {
    FindFrom(s, pat, 0)
  }

  /** The last occurrence before `until`. */
  function RFindBelow(s: string, pat: string, until: nat): (r: Option<nat>)
    ensures r.Some? ==> r.value < until && At(s, pat, r.value)
    ensures forall j: nat :: j < until && At(s, pat, j) ==> r.Some? && j <= r.value
  {
    if until == 0 then None
    else if At(s, pat, until - 1) then Some(until - 1)
    else RFindBelow(s, pat, until - 1)
  }

  function RFind(s: string, pat: string): Option<nat> {
    RFindBelow(s, pat, |s| + 1)
  }

  function StripSuffix(s: string, pat: string): (r: Option<string>)
    ensures r.Some? ==> s == r.value + pat
  {
    if |pat| <= |s| && s[|s| - |pat|..] == pat then Some(s[..|s| - |pat|]) else None
  }

  lemma StripSuffixMeans(s: string, pat: string, t: string)
    ensures StripSuffix(s, pat) == Some(t) <==> s == t + pat
  {
    if s == t + pat {
      assert s[|s| - |pat|..] == pat && s[..|s| - |pat|] == t;
    }
  }
}
