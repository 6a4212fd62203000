/** Picking from a set: like a Python set, it yields its members in no particular order. */
module Sets {
  method AnyOf<T(==)>(s: set<T>) returns (x: T)
    requires s != {}
    ensures x in s
  {
    EmptyOrMember(s);
    x :| x in s;
  }

  lemma EmptyOrMember<T>(s: set<T>)
    ensures s == {} || exists x :: x in s
  {
    if forall x :: x !in s {
      assert s == {};
    }
  }
}
