/** Substring search on strings, as `std::string::find` and `strstr` do it. */
module Text {
  import opened Samples

  /** `p` occurs in `s` starting at index `i`. */
  predicate OccursAt(s: string, p: string, i: nat) {
    i + |p| <= |s| && s[i..i + |p|] == p
  }

  /** `p` is a substring of `s`. */
  ghost predicate Contains(s: string, p: string) {
    exists i: nat :: OccursAt(s, p, i)
  }

  /** The first index at or after `from` where `p` occurs (`find` returning `npos` is `None`). */
  function Find(s: string, p: string, from: nat): (r: Option<nat>)
    ensures r.Some? ==> from <= r.value && OccursAt(s, p, r.value)
    ensures r.Some? ==> forall j: nat :: from <= j < r.value ==> !OccursAt(s, p, j)
    ensures r.None? ==> forall j: nat :: from <= j ==> !OccursAt(s, p, j)
    decreases |s| - from
  {
    if from + |p| > |s| then None
    else if s[from..from + |p|] == p then Some(from)
    else Find(s, p, from + 1)
  }

  /** Searching from the start decides containment. */
  lemma FindDecidesContains(s: string, p: string)
    ensures Find(s, p, 0).Some? <==> Contains(s, p)
  {
    if Find(s, p, 0).Some? {
      assert OccursAt(s, p, Find(s, p, 0).value);
    }
  }
}
