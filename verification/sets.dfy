/** Facts about finite sets that several modules use. */
module Sets {

  lemma SubsetSize<T>(a: set<T>, b: set<T>)
    requires a <= b
    ensures |a| <= |b|
  {
    assert b == a + (b - a);
    assert |b| == |a| + |b - a|;
  }

  /** Some element has the greatest key. */
  lemma {:induction false} GreatestExists<T>(pool: set<T>, key: T -> int)
    requires pool != {}
    ensures exists a :: a in pool && forall b :: b in pool ==> key(b) <= key(a)
    decreases |pool|
  {
    var x :| x in pool;
    if pool == {x} {
      assert forall b :: b in pool ==> key(b) <= key(x);
    } else {
      GreatestExists(pool - {x}, key);
      var a :| a in pool - {x} && forall b :: b in pool - {x} ==> key(b) <= key(a);
      var best := if key(a) < key(x) then x else a;
      assert forall b :: b in pool ==> key(b) <= key(best);
    }
  }
}
