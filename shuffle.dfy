/**
 * `random.shuffle`, the library's in-place Fisher–Yates shuffle: for i from the last index down
 * to 1 it swaps item i with an item j drawn uniformly from 0..i. The draws are a parameter
 * `pick`; draw i is taken modulo i + 1, so any draw function stands for some run of the
 * generator.
 */
module Shuffling {
  import opened Cards

  /** Exchanges the items at `i` and `j`. */
  function Swap(s: seq<Card>, i: nat, j: nat): (r: seq<Card>)
    requires i < |s| && j < |s|
    ensures |r| == |s| && r[i] == s[j] && r[j] == s[i]
  {
    s[i := s[j]][j := s[i]]
  }

  lemma SwapPermutes(s: seq<Card>, i: nat, j: nat)
    requires i < |s| && j < |s|
    ensures multiset(Swap(s, i, j)) == multiset(s)
  {
  }

  /**
   * `random.shuffle(s)` with the draws `pick`: the pass for the last index i swaps item i with
   * item `pick(i) % (i + 1)` and fixes it; the passes for the lower indices then shuffle the
   * items before it.
   */
  function Shuffled(s: seq<Card>, pick: nat -> nat): (r: seq<Card>)
    ensures |r| == |s|
    decreases |s|
  {
    if |s| <= 1 then s
    else
      var t := Swap(s, |s| - 1, pick(|s| - 1) % |s|);
      Shuffled(t[..|s| - 1], pick) + [t[|s| - 1]]
  }

  /** Whatever the draws, the shuffled list is a permutation of the original. */
  lemma {:induction false} ShuffledPermutes(s: seq<Card>, pick: nat -> nat)
    ensures multiset(Shuffled(s, pick)) == multiset(s)
    decreases |s|
  {
    if |s| > 1 {
      var t := Swap(s, |s| - 1, pick(|s| - 1) % |s|);
      SwapPermutes(s, |s| - 1, pick(|s| - 1) % |s|);
      ShuffledPermutes(t[..|s| - 1], pick);
      assert t == t[..|s| - 1] + [t[|s| - 1]];
    }
  }

  /** Draws that always take the top of the range swap every item with itself and leave the list as it was. */
  lemma {:induction false} ShuffledIdentity(s: seq<Card>, pick: nat -> nat)
    requires forall i :: pick(i) == i
    ensures Shuffled(s, pick) == s
    decreases |s|
  {
    if |s| > 1 {
      assert pick(|s| - 1) % |s| == |s| - 1;
      assert Swap(s, |s| - 1, |s| - 1) == s;
      ShuffledIdentity(s[..|s| - 1], pick);
      assert s == s[..|s| - 1] + [s[|s| - 1]];
    }
  }
}
