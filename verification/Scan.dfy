/**
 * Trying a match at every start, left to right, as `re.search` does: the
 * first start at which the match at that start succeeds wins.
 */
module Scan {
  import opened Wrappers

  /** The first start in `from` up to (not including) `end` at which `at` succeeds, with what it gave there. */
  function FirstFrom<T>(at: nat -> Option<T>, from: nat, end: nat): Option<(nat, T)>
    decreases end - from
  {
    if from >= end then None
    else match at(from)
      case Some(t) => Some((from, t))
      case None => FirstFrom(at, from + 1, end)
  }

  /** The start found is the least one that succeeds, and there is none when nothing is found. */
  lemma {:induction false} FirstFromSpec<T>(at: nat -> Option<T>, from: nat, end: nat)
    ensures FirstFrom(at, from, end).Some? ==>
      var (i, t) := FirstFrom(at, from, end).value;
      from <= i < end && at(i) == Some(t) && forall i': nat :: from <= i' < i ==> at(i').None?
    ensures FirstFrom(at, from, end).None? ==> forall i': nat :: from <= i' < end ==> at(i').None?
    decreases end - from
  {
    if from < end && at(from).None? {
      FirstFromSpec(at, from + 1, end);
    }
  }
}
