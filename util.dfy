/** The helpers of src/util.js. Its `zip` and `product` are the same code as those of
    src/listUtil.js and are modelled once, by `ListUtil.Zip` and `ListUtil.Product`. */
module Util {

  /** `range(start, end)`: a for loop pushing start, start+1, ..., end-1. */
  method Range(start: int, end: int) returns (r: seq<int>)
    ensures |r| == if start < end then end - start else 0
    ensures forall k :: 0 <= k < |r| ==> r[k] == start + k
  {
    r := [];
    var i := start;
    while i < end
      invariant start < end ==> start <= i <= end
      invariant start >= end ==> i == start
      invariant |r| == i - start
      invariant forall k :: 0 <= k < |r| ==> r[k] == start + k
    {
      r := r + [i];
      i := i + 1;
    }
  }

  /** The error that `assert` throws. */
  datatype AssertError = FailedAssertion

  datatype Outcome = Pass | Fail(error: AssertError)

  /** `assert(condition)` throws an AssertError exactly when the condition is falsy. */
  function Assert(condition: bool): (r: Outcome)
    ensures r.Fail? <==> !condition
  {
    if !condition then Fail(FailedAssertion) else Pass
  }
}
