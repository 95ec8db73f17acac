/** Facts about collections that several parts need. */
module Collections {

  lemma NonEmpty(ids: set<int>)
    requires ids != {}
    ensures exists id :: id in ids
  {
    assert (forall id :: id !in ids) ==> ids == {};
  }
}
