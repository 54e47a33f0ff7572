/** Facts about finite sets of numbers. */
module Sets {
  lemma SmallerSet<T>(a: set<T>, b: set<T>)
    requires a <= b
    ensures |a| <= |b|
  {
    assert b == a + (b - a);
  }

  /** The first `i` numbers. */
  function Below(i: nat): (r: set<nat>)
    ensures |r| == i && forall p: nat :: p in r <==> p < i
  {
    if i == 0 then {} else Below(i - 1) + {i - 1}
  }
}
