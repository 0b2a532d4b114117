/** Facts about finite sets. */
module Sets {
  lemma SubsetSize<T>(a: set<T>, b: set<T>)
    requires a <= b
    ensures |a| <= |b|
  {
    var c := b - a;
    assert b == a + c;
  }

  ghost function SomeOf(s: set<int>): (x: int)
    requires s != {}
    ensures x in s
  {
    assert exists x :: x in s by { assert (forall x :: x !in s) ==> s == {}; }
    var x :| x in s; x
  }
}
