/** What many modules need. */
module Common {
  datatype Option<T> = None | Some(value: T)

  ghost predicate Distinct<T(!new)>(s: seq<T>) {
    forall i, j :: 0 <= i < j < |s| ==> s[i] != s[j]
  }

  /** There are no more different numbers below n than n. */
  lemma {:induction false} Pigeonhole(p: seq<nat>, n: nat)
    requires Distinct(p) && forall i :: 0 <= i < |p| ==> p[i] < n
    ensures |p| <= n
    decreases n
  {
    if p != [] {
      assert p[0] < n;
      if n - 1 in p {
        var k :| 0 <= k < |p| && p[k] == n - 1;
        Pigeonhole(p[..k] + p[k + 1..], n - 1);
      } else {
        Pigeonhole(p, n - 1);
      }
    }
  }
}
