/** What several modules share. */
module Wrappers {
  /** The optional value used throughout the model: `null` or `undefined` in the source. */
  datatype Option<+T> = None | Some(value: T)

  lemma HasElement(s: set<int>)
    requires s != {}
    ensures exists x :: x in s
  {
    if forall x :: x !in s {
      assert false;
    }
  }

  lemma SubsetSize(a: set<int>, b: set<int>)
    requires a <= b
    ensures |a| <= |b|
  {
    assert b == a + (b - a);
  }
}
