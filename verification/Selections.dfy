/** In-order selections from a sequence, by the positions they keep. */
module Selections {

  /** `picked` is what `s` has at the positions `at`, which increase. */
  predicate Picks<T(==)>(s: seq<T>, at: seq<nat>, picked: seq<T>) {
    && |at| == |picked|
    && (forall i :: 0 <= i < |at| ==> at[i] < |s| && s[at[i]] == picked[i])
    && (forall i, j :: 0 <= i < j < |at| ==> at[i] < at[j])
  }

  /** Decide on one more element at the end. */
  lemma Snoc<T>(s: seq<T>, at: seq<nat>, picked: seq<T>, x: T, keep: bool)
    requires Picks(s, at, picked)
    ensures Picks(s + [x], if keep then at + [|s|] else at, if keep then picked + [x] else picked)
  {}

  function Shift(at: seq<nat>): (r: seq<nat>)
    ensures |r| == |at| && forall i :: 0 <= i < |at| ==> r[i] == at[i] + 1
  {
    seq(|at|, i requires 0 <= i < |at| => at[i] + 1)
  }

  lemma ShiftMembers(at: seq<nat>, k: nat)
    ensures k in Shift(at) <==> k > 0 && k - 1 in at
  {
    if k > 0 && k - 1 in at {
      var i :| 0 <= i < |at| && at[i] == k - 1;
      assert Shift(at)[i] == k;
    }
  }

  /** Decide on one more element at the front. */
  lemma Cons<T>(s: seq<T>, at: seq<nat>, picked: seq<T>, x: T, keep: bool)
    requires Picks(s, at, picked)
    ensures Picks([x] + s, if keep then [0] + Shift(at) else Shift(at), if keep then [x] + picked else picked)
  {}
}
