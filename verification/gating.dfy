/**
 * Two ways a chain of stage toggles can decide what a pipeline returns:
 * the length of the leading run of enabled toggles (the reference
 * pipeline's nested short-circuit), and the first enabled candidate of a
 * precedence list (the optimized pipeline's overwritten `lastResult`).
 */
module Gating {

  /** Number of leading `true`s: how far a short-circuiting chain gets. */
  function LeadingTrue(bs: seq<bool>): (n: nat)
    ensures n <= |bs|
    ensures forall i :: 0 <= i < n ==> bs[i]
    ensures n < |bs| ==> !bs[n]
  {
    if |bs| == 0 || !bs[0] then 0 else 1 + LeadingTrue(bs[1..])
  }

  /** The run of leading `true`s ends at the first `false`, whatever follows it. */
  lemma LeadingTrueStopsAtFalse(bs: seq<bool>, cs: seq<bool>, k: nat)
    requires k < |bs| && k < |cs|
    requires !bs[k] && bs[..k + 1] == cs[..k + 1]
    ensures LeadingTrue(bs) == LeadingTrue(cs) <= k
  {
    assert forall i :: 0 <= i <= k ==> bs[i] == cs[i] by {
      forall i | 0 <= i <= k
        ensures bs[i] == cs[i]
      {
        assert bs[..k + 1][i] == cs[..k + 1][i];
      }
    }
  }

  /** `i` is the first candidate whose flag is set. */
  ghost predicate FirstEnabledAt<T>(cands: seq<(bool, T)>, i: int) {
    && 0 <= i < |cands|
    && cands[i].0
    && forall j :: 0 <= j < i ==> !cands[j].0
  }

  /**
   * The value of the first enabled candidate, or `default` when none is
   * enabled: a list ordered by precedence, highest first.
   */
  function FirstEnabled<T>(cands: seq<(bool, T)>, default: T): (r: T)
    ensures (forall i :: 0 <= i < |cands| ==> !cands[i].0) ==> r == default
    ensures forall i :: FirstEnabledAt(cands, i) ==> r == cands[i].1
  {
    if |cands| == 0 then default
    else if cands[0].0 then cands[0].1
    else FirstEnabled(cands[1..], default)
  }
}
