/** Searching a sequence from a position, shared by the scanner and the token rendering. */
module Sequences {

  /** The first index at or after `i` whose element satisfies `stop`, or `|s|` when there is none. */
  function FirstFrom<T>(s: seq<T>, i: nat, stop: T -> bool): (j: nat)
    requires i <= |s|
    ensures i <= j <= |s|
    ensures forall k :: i <= k < j ==> !stop(s[k])
    ensures j < |s| ==> stop(s[j])
    decreases |s| - i
  {
    if i == |s| || stop(s[i]) then i else FirstFrom(s, i + 1, stop)
  }

  /** An index with nothing satisfying `stop` before it, and `stop` at it or at the end, is the first one. */
  lemma FirstFromIs<T>(s: seq<T>, i: nat, stop: T -> bool, j: nat)
    requires i <= j <= |s|
    requires forall k :: i <= k < j ==> !stop(s[k])
    requires j < |s| ==> stop(s[j])
    ensures FirstFrom(s, i, stop) == j
  {
  }
}
