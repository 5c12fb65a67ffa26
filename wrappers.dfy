/** Small datatypes and sequence searches shared by the whole model. */
module Wrappers {

  /** Rust's `Option<T>`. */
  datatype Option<+T> = None | Some(value: T)

  /**
   * `iter().find(p)` on a vector, as the index of the element it returns:
   * the first element satisfying `p`, or `None` when there is none.
   */
  function Find<T>(s: seq<T>, p: T -> bool): (r: Option<nat>)
    ensures r.Some? <==> exists i :: 0 <= i < |s| && p(s[i])
    ensures r.Some? ==>
      && r.value < |s|
      && p(s[r.value])
      && forall k :: 0 <= k < r.value ==> !p(s[k])
  {
    if s == [] then None
    else if p(s[0]) then Some(0)
    else
      var r := Find(s[1..], p);
      assert forall i :: 1 <= i < |s| ==> s[i] == s[1..][i - 1];
      if r.Some? then Some(r.value + 1) else None
  }
}
