/** Constants, notions and facts about sizes and products that several modules use. */
module Basics {
  /** A second in nanoseconds. */
  const SECOND := 1_000_000_000

  /** The sequence lists exactly the members of the set, each once. */
  ghost predicate Lists<T(!new)>(s: seq<T>, members: set<T>) {
    (forall x :: x in s <==> x in members) && (forall i, j :: 0 <= i < j < |s| ==> s[i] != s[j])
  }

  lemma SetSize<T>(a: set<T>, b: set<T>)
    requires a <= b
    ensures |a| <= |b|
  {
    assert b == a + (b - a);
  }

  lemma UnionBound<T>(a: set<T>, b: set<T>)
    ensures |a + b| <= |a| + |b|
  {
    assert a + b == a + (b - a);
    SetSize(b - a, b);
  }

  lemma Distribute(k: int, r: int)
    ensures (k + 1) * r == k * r + r && r * (k + 1) == r * k + r
  {
  }

  lemma MulOrder(a: int, b: int, r: int)
    requires r >= 0
    ensures a <= b ==> a * r <= b * r && r * a <= r * b
  {
  }
}
