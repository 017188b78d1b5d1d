/** Sequences without repetition. */
module Sequences {

  ghost predicate Distinct<T>(s: seq<T>) {
    forall i, j :: 0 <= i < j < |s| ==> s[i] != s[j]
  }

  lemma NoneDistinct<T>()
    ensures Distinct<T>([])
  {
  }

  lemma OneDistinct<T>(x: T)
    ensures Distinct([x])
  {
  }

  lemma DistinctJoin<T>(a: seq<T>, b: seq<T>)
    requires Distinct(a) && Distinct(b) && forall x :: x in a ==> x !in b
    ensures Distinct(a + b)
  {
    assert forall i :: 0 <= i < |a + b| ==> (a + b)[i] == if i < |a| then a[i] else b[i - |a|];
    assert forall i :: 0 <= i < |a| ==> a[i] in a;
    assert forall i :: 0 <= i < |b| ==> b[i] in b;
  }

  /** Different elements that all occur in a sequence of the same length are all that it holds, once each. */
  lemma {:induction false} Pigeonhole<T>(a: seq<T>, b: seq<T>)
    requires |a| == |b| && Distinct(a) && forall x :: x in a ==> x in b
    ensures Distinct(b) && forall x :: x in b ==> x in a
    decreases |a|
  {
    if a != [] {
      var x, rest := a[0], a[1..];
      assert x in b;
      var k :| 0 <= k < |b| && b[k] == x;
      var others := b[..k] + b[k + 1..];
      forall y | y in rest ensures y in others {
        assert y in a && y != x;
        var m :| 0 <= m < |b| && b[m] == y;
        assert others[if m < k then m else m - 1] == y;
      }
      Pigeonhole(rest, others);
      assert b == b[..k] + [x] + b[k + 1..];
      assert x !in others;
      assert forall m :: 0 <= m < |b| && m != k ==> b[m] == others[if m < k then m else m - 1];
      forall y | y in b ensures y in a {
        if y != x {
          assert y in others && y in rest;
        }
      }
    }
  }
}
