/** Sequence facts shared by the client-side models. */
module Seqs {

  /** `s` with its elements in the opposite order (JavaScript's `Array.prototype.reverse`). */
  function Reverse<T>(s: seq<T>): (r: seq<T>)
    ensures |r| == |s|
  {
    if s == [] then [] else Reverse(s[1..]) + [s[0]]
  }

  /** No element occurs twice. */
  predicate Distinct<T(==)>(s: seq<T>) {
    forall i, j :: 0 <= i < j < |s| ==> s[i] != s[j]
  }

  /** `sub` is obtained from `s` by deleting elements, keeping the order of the rest. */
  predicate IsSubsequence<T(==)>(sub: seq<T>, s: seq<T>)
    decreases |s|
  {
    if sub == [] then true
    else if s == [] then false
    else if sub[0] == s[0] then IsSubsequence(sub[1..], s[1..])
    else IsSubsequence(sub, s[1..])
  }

  /**
   * Pigeonhole: a duplicate-free sequence whose elements all occur in `t`
   * is no longer than `t`.
   */
  lemma {:induction false} DistinctNoLonger<T>(s: seq<T>, t: seq<T>)
    requires Distinct(s)
    requires forall i :: 0 <= i < |s| ==> s[i] in t
    ensures |s| <= |t|
  {
    if s != [] {
      var x := s[0];
      var k :| 0 <= k < |t| && t[k] == x;
      var t' := t[..k] + t[k + 1..];
      forall i | 0 <= i < |s[1..]|
        ensures s[1..][i] in t'
      {
        var y := s[1..][i];
        assert y == s[i + 1] && y != x;
        var m :| 0 <= m < |t| && t[m] == y;
        if m < k {
          assert t'[m] == y;
        } else {
          assert m > k;
          assert t'[m - 1] == y;
        }
      }
      assert Distinct(s[1..]) by {
        forall i, j | 0 <= i < j < |s[1..]| ensures s[1..][i] != s[1..][j] {
          assert s[1..][i] == s[i + 1] && s[1..][j] == s[j + 1];
        }
      }
      DistinctNoLonger(s[1..], t');
    }
  }
}
