/** Facts about finite sets that the loops over map keys rely on. */
module Sets {

  /** A non-empty set has an element, so a `:|` choice from it succeeds. */
  lemma Element<T>(s: set<T>) returns (x: T)
    requires s != {}
    ensures x in s
  {
    if forall y :: y !in s {
      assert false;
    }
    x :| x in s;
  }
}
