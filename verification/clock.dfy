/** Clock samples in the order their locked regions ran; each was taken before its lock, so they may step back. */
module Clock {
  ghost predicate NeverStepsBack(ns: seq<real>) {
    forall i | 0 < i < |ns| :: ns[i - 1] <= ns[i]
  }

  ghost predicate NeverStepsForward(ns: seq<real>) {
    forall i | 0 < i < |ns| :: ns[i] <= ns[i - 1]
  }

  /** Sample j lies above both an earlier and a later one. */
  ghost predicate Peak(ns: seq<real>, p: nat, j: nat, q: nat) {
    p < j < q < |ns| && ns[p] < ns[j] && ns[q] < ns[j]
  }

  /** The samples fall, if at all, only before they rise. */
  ghost predicate NoPeak(ns: seq<real>) {
    forall p: nat, j: nat, q: nat :: !Peak(ns, p, j, q)
  }

  lemma {:induction false} AscendsThroughout(ns: seq<real>, i: nat, j: nat)
    requires NeverStepsBack(ns) && i <= j < |ns|
    ensures ns[i] <= ns[j]
    decreases j
  {
    if i < j {
      AscendsThroughout(ns, i, j - 1);
    }
  }

  /** Samples that never step back have no peak; the converse fails for samples that only fall. */
  lemma AscendingHasNoPeak(ns: seq<real>)
    requires NeverStepsBack(ns)
    ensures NoPeak(ns)
  {
    forall p: nat, j: nat, q: nat ensures !Peak(ns, p, j, q) {
      if p < j < q < |ns| {
        AscendsThroughout(ns, j, q);
      }
    }
  }
}
