/** Counting the true entries of a boolean sequence (`sum` over a list of 0/1 ints). */
module Counting {

  function CountTrue(bs: seq<bool>): (n: nat)
    ensures n <= |bs|
  {
    if |bs| == 0 then 0
    else CountTrue(bs[..|bs| - 1]) + (if bs[|bs| - 1] then 1 else 0)
  }

  /** A sequence with more true entries, position by position, counts at least as many. */
  lemma {:induction false} CountTrueMonotone(a: seq<bool>, b: seq<bool>)
    requires |a| == |b|
    requires forall i :: 0 <= i < |a| && a[i] ==> b[i]
    ensures CountTrue(a) <= CountTrue(b)
  {
    if |a| > 0 {
      CountTrueMonotone(a[..|a| - 1], b[..|b| - 1]);
    }
  }

  /** The count is the length exactly when every entry is true. */
  lemma {:induction false} CountTrueAll(bs: seq<bool>)
    ensures CountTrue(bs) == |bs| <==> forall i :: 0 <= i < |bs| ==> bs[i]
  {
    if |bs| > 0 {
      var init := bs[..|bs| - 1];
      CountTrueAll(init);
      if forall i :: 0 <= i < |bs| ==> bs[i] {
        assert forall i :: 0 <= i < |init| ==> init[i];
      } else if forall i :: 0 <= i < |init| ==> init[i] {
        assert !bs[|bs| - 1];
      }
    }
  }
}
