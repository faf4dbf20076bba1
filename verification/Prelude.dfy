/** What several modules share: optional values, division as in C, and the pigeonhole principle. */
module Prelude {
  datatype Option<+T> = None | Some(value: T)

  /** C division truncates toward zero. */
  function TruncDiv(a: int, b: int): int
    requires b > 0
  {
    if a >= 0 then a / b else -((-a) / b)
  }

  /** Distinct indices below `n` are at most `n` many. */
  lemma {:induction false} DistinctFit(s: seq<int>, n: nat)
    requires forall i :: 0 <= i < |s| ==> 0 <= s[i] < n
    requires forall i, j :: 0 <= i < j < |s| ==> s[i] != s[j]
    ensures |s| <= n
  {
    assert s == [] || 0 <= s[0] < n;
    if n > 0 {
      if n - 1 in s {
        var k :| 0 <= k < |s| && s[k] == n - 1;
        DistinctFit(s[..k] + s[k + 1..], n - 1);
      } else {
        DistinctFit(s, n - 1);
      }
    }
  }
}
