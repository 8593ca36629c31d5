/** Visiting the keys of a dictionary one by one. */
module CameraSets {

  lemma NonEmpty(s: set<int>)
    requires s != {}
    ensures exists c :: c in s
  {
    if forall c :: c !in s {
      assert false;
    }
  }

  lemma NonEmptyIds(s: set<nat>)
    requires s != {}
    ensures exists id :: id in s
  {
    if forall id :: id !in s {
      assert false;
    }
  }
}
