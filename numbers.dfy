/** Aggregates over sequences of reals: the `sum`, `min` and `max` builtins the deployment code applies
    to request rates, request availabilities and node availabilities. */
module Numbers {

  /** The sum of the elements (Python's `sum`); a sum of non-negative reals is non-negative. */
  function Sum(s: seq<real>): (total: real)
    ensures (forall k :: 0 <= k < |s| ==> s[k] >= 0.0) ==> total >= 0.0
  {
    if s == [] then 0.0 else s[0] + Sum(s[1..])
  }

  /** The least element of a non-empty sequence (Python's `min`). */
  function Min(s: seq<real>): (m: real)
    requires |s| > 0
    ensures m in s
    ensures forall x :: x in s ==> m <= x
  {
    if |s| == 1 then s[0]
    else
      var rest := Min(s[1..]);
      assert forall x :: x in s ==> x == s[0] || x in s[1..];
      if s[0] <= rest then s[0] else rest
  }

  /** The greatest element of a non-empty sequence (Python's `max`). */
  function Max(s: seq<real>): (m: real)
    requires |s| > 0
    ensures m in s
    ensures forall x :: x in s ==> x <= m
  {
    if |s| == 1 then s[0]
    else
      var rest := Max(s[1..]);
      assert forall x :: x in s ==> x == s[0] || x in s[1..];
      if s[0] >= rest then s[0] else rest
  }

  /** Every element of a sequence of non-negative reals is at most its sum. */
  lemma {:induction false} ElementAtMostSum(s: seq<real>, k: nat)
    requires forall j :: 0 <= j < |s| ==> s[j] >= 0.0
    requires k < |s|
    ensures s[k] <= Sum(s)
  {
    if k > 0 {
      ElementAtMostSum(s[1..], k - 1);
    }
  }
}
