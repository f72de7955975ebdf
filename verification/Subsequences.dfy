/** Subsequences: what is left of a sequence when some elements are dropped and none is moved. */
module Subsequences {

  ghost predicate Sub<T>(a: seq<T>, b: seq<T>)
    decreases |b|
  {
    a == [] || (b != [] &&
      ((a[|a| - 1] == b[|b| - 1] && Sub(a[..|a| - 1], b[..|b| - 1])) || Sub(a, b[..|b| - 1])))
  }

  lemma SubSkip<T>(a: seq<T>, b: seq<T>, x: T)
    requires Sub(a, b)
    ensures Sub(a, b + [x])
  {
    assert (b + [x])[..|b|] == b;
  }

  lemma SubKeep<T>(a: seq<T>, b: seq<T>, x: T)
    requires Sub(a, b)
    ensures Sub(a + [x], b + [x])
  {
    assert (b + [x])[..|b|] == b && (a + [x])[..|a|] == a;
  }

  lemma {:induction false} SubRefl<T>(a: seq<T>)
    ensures Sub(a, a)
  {
    if a != [] {
      SubRefl(a[..|a| - 1]);
    }
  }

  lemma {:induction false} SubTrans<T>(a: seq<T>, b: seq<T>, c: seq<T>)
    requires Sub(a, b) && Sub(b, c)
    ensures Sub(a, c)
    decreases |b| + |c|
  {
    if a != [] {
      var c' := c[..|c| - 1];
      if Sub(b, c') {
        SubTrans(a, b, c');
      } else {
        var b' := b[..|b| - 1];
        if Sub(a, b') {
          SubTrans(a, b', c');
        } else {
          SubTrans(a[..|a| - 1], b', c');
        }
      }
    }
  }

  lemma {:induction false} SubMember<T>(a: seq<T>, b: seq<T>, x: T)
    requires Sub(a, b) && x in a
    ensures x in b
    decreases |b|
  {
    var b' := b[..|b| - 1];
    if Sub(a, b') {
      SubMember(a, b', x);
    } else if x != b[|b| - 1] {
      SubMember(a[..|a| - 1], b', x);
    }
  }

  lemma {:induction false} SubLength<T>(a: seq<T>, b: seq<T>)
    requires Sub(a, b)
    ensures |a| <= |b| && (|a| == |b| ==> a == b)
    decreases |b|
  {
    if a != [] {
      var b' := b[..|b| - 1];
      if Sub(a, b') {
        SubLength(a, b');
      } else {
        SubLength(a[..|a| - 1], b');
      }
    }
  }

  /** The first element may go. */
  lemma {:induction false} SubTail<T>(a: seq<T>)
    requires a != []
    ensures Sub(a[1..], a)
    decreases |a|
  {
    if |a| > 1 {
      var a' := a[..|a| - 1];
      SubTail(a');
      assert a[1..] == a'[1..] + [a[|a| - 1]] && a == a' + [a[|a| - 1]];
      SubKeep(a'[1..], a', a[|a| - 1]);
    }
  }
}
