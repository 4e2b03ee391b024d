/** Two facts about finite sets. */
module Sets {
  lemma SomeElement<E>(elements: set<E>) returns (x: E)
    requires elements != {}
    ensures x in elements
  {
    x :| x in elements;
  }

  lemma SubsetIsSmaller<E>(a: set<E>, b: set<E>)
    requires a <= b
    ensures |a| <= |b|
  {
    assert b == a + (b - a);
  }
}
