/** Searching a text for a part of it, as Go's strings.Contains does. */
module Texts {
  /** `part` occurs somewhere in `s`. */
  predicate Contains(s: string, part: string) {
    exists k | 0 <= k <= |s| :: part <= s[k..]
  }

  lemma ContainsIff(s: string, part: string)
    ensures Contains(s, part) <==> exists a, b :: s == a + part + b
  {
    if k :| 0 <= k <= |s| && part <= s[k..] {
      var b := s[k..][|part|..];
      assert s[k..] == part + b;
      assert s == s[..k] + part + b;
    }
    if a, b :| s == a + part + b {
      assert s[|a|..] == part + b;
    }
  }
}
