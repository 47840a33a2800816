/** "Some element satisfies": the one shape behind the model's "is listed
    somewhere in" predicates, with the step that peels off the last
    element. */
module Seqs {

  /** Some element of `s` satisfies `q`. */
  predicate Any<T>(s: seq<T>, q: T -> bool) {
    exists i :: 0 <= i < |s| && q(s[i])
  }

  /** `Any` over a list is `Any` over all but its last element, or the last one. */
  lemma AnyStep<T>(s: seq<T>, q: T -> bool)
    requires s != []
    ensures Any(s, q) <==> Any(s[..|s| - 1], q) || q(s[|s| - 1])
  {
    var n := |s| - 1;
    if Any(s[..n], q) {
      var i :| 0 <= i < n && q(s[..n][i]);
      assert s[i] == s[..n][i];
    }
    if Any(s, q) {
      var i :| 0 <= i < |s| && q(s[i]);
      if i < n {
        assert s[..n][i] == s[i];
      }
    }
  }
}
