/** The `findIndex` fallback of common.js: a linear search with early exit. */
module ArrayFindIndex {

  /**
   * The callback receives the element, its index and the array, as in
   * `f(value, i, this)`.  The result is the first index whose element the
   * callback accepts, and -1 when it accepts none.
   */
  method FindIndex<T>(a: seq<T>, f: (T, nat, seq<T>) -> bool) returns (r: int)
    ensures -1 <= r < |a|
    ensures r == -1 <==> forall i :: 0 <= i < |a| ==> !f(a[i], i, a)
    ensures 0 <= r ==> f(a[r], r, a)
    ensures 0 <= r ==> forall i :: 0 <= i < r ==> !f(a[i], i, a)
  {
    var i := 0;
    while i < |a|
      invariant 0 <= i <= |a|
      invariant forall j :: 0 <= j < i ==> !f(a[j], j, a)
    {
      var value := a[i];
      if f(value, i, a) {
        return i;
      }
      i := i + 1;
    }
    return -1;
  }
}
