/** Small value types shared by every module. */
module Prelude {

  datatype Option<+T> = None | Some(value: T)

  /** Reading a counter map the way Go does: a missing key reads as zero. */
  function Get(m: map<string, int>, k: string): int {
    if k in m then m[k] else 0
  }

  /** The elements of `s` are pairwise different. */
  ghost predicate Distinct<T>(s: seq<T>) {
    forall i, j :: 0 <= i < j < |s| ==> s[i] != s[j]
  }

  /** A sum of disjoint finite sets has the sum of their sizes. */
  lemma DisjointUnionSize<T>(whole: set<T>, a: set<T>, b: set<T>)
    requires a !! b && whole == a + b
    ensures |whole| == |a| + |b|
  {
  }

  /** A subset is no larger than its superset. */
  lemma SubsetSize<T>(a: set<T>, b: set<T>)
    requires a <= b
    ensures |a| <= |b|
  {
    assert b == a + (b - a);
    DisjointUnionSize(b, a, b - a);
  }
}
