/** Sequences without repetition; more entries than values below `n` make two entries equal. */
module Pigeonhole {
  predicate Distinct<T(==)>(s: seq<T>) { forall i, j :: 0 <= i < j < |s| ==> s[i] != s[j] }

  /** Distinct entries below `n` number at most `n`. */
  lemma {:induction false} DistinctAreFew(s: seq<nat>, n: nat)
    requires Distinct(s) && forall i :: 0 <= i < |s| ==> s[i] < n
    ensures |s| <= n
    decreases n
  {
    if n - 1 in s {
      var k :| 0 <= k < |s| && s[k] == n - 1;
      var rest := s[..k] + s[k + 1..];
      assert forall i :: 0 <= i < |rest| ==> rest[i] == if i < k then s[i] else s[i + 1];
      DistinctAreFew(rest, n - 1);
    } else if s != [] {
      assert s[0] < n;
      forall i | 0 <= i < |s| ensures s[i] < n - 1 { assert s[i] in s; }
      DistinctAreFew(s, n - 1);
    }
  }

  lemma Repeats(s: seq<nat>, n: nat) returns (i: nat, j: nat)
    requires |s| > n && forall k :: 0 <= k < |s| ==> s[k] < n
    ensures i < j < |s| && s[i] == s[j]
  {
    if Distinct(s) { DistinctAreFew(s, n); }
    i, j :| 0 <= i < j < |s| && s[i] == s[j];
  }
}
