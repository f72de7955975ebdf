/** Sizes of finite sets. */
module Finite {
  lemma SubsetSize<T>(a: set<T>, b: set<T>)
    requires a <= b
    ensures |a| <= |b| && (|a| == |b| ==> a == b)
  {
    assert |b - a| == |b| - |a|;
    if |a| == |b| {
      assert b - a == {};
      assert b == a + (b - a);
    }
  }

  lemma RemoveOne<T>(s: set<T>, x: T)
    requires x in s
    ensures |s - {x}| == |s| - 1
  {
  }

  lemma AddSize<T>(a: set<T>, b: set<T>, x: T)
    requires a == b + {x}
    ensures |a| <= |b| + 1 && (x !in b ==> |a| == |b| + 1)
  {
  }
}
