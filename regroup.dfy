/** Sequence bookkeeping shared by the run lemmas of the pool and of the
    file operation: items pass through two stages, each of which takes some
    in at one end and hands some on at the other. */
module Regrouping {

  /** Two stages, regrouped: what came in over both stages, after the
      start, equals what left over both stages, before what remains. */
  lemma Regroup<T>(start: seq<T>, joined: seq<T>, left: seq<T>, mid: seq<T>,
                   joinedLater: seq<T>, leftLater: seq<T>, rest: seq<T>)
    requires start + joined == left + mid
    requires mid + joinedLater == leftLater + rest
    ensures start + (joined + joinedLater) == (left + leftLater) + rest
  {
    calc {
      start + (joined + joinedLater);
      (start + joined) + joinedLater;
      (left + mid) + joinedLater;
      left + (mid + joinedLater);
      left + (leftLater + rest);
    }
  }
}
