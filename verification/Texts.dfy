/** Substring search, for JavaScript's indexOf and Python's `in`, and slices. */
module Texts {

  predicate Occurs(piece: string, text: string) {
    exists i | 0 <= i <= |text| :: piece <= text[i..]
  }

  /** Slicing a slice. */
  lemma SliceOfSlice(s: string, lo: nat, hi: nat, k: nat)
    requires lo + k <= hi <= |s|
    ensures s[lo..hi][k..] == s[lo + k..hi]
  {
  }

  lemma FirstThenRest(s: string, i: nat)
    requires i < |s|
    ensures s[i..] == [s[i]] + s[i + 1..]
  {
  }
}
