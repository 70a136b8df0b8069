/** What every other module uses: absent rows, thrown errors, identifiers, instants, unordered queries. */
module Wrappers {
  datatype Option<+T> = None | Some(value: T)

  datatype Result<+T, +E> = Ok(value: T) | Err(error: E)

  // Row identifiers. The source uses cuid strings and only compares them for
  // equality, or orders them with a collation; the integer stands for the
  // position of the identifier in that order.
  type Id = int

  // Milliseconds since the epoch.
  type Time = int

  predicate IsLeast(ids: set<Id>, x: Id) {
    x in ids && forall y :: y in ids ==> x <= y
  }

  // Queries without an order return some matching row; the least id stands for it.
  function First(ids: set<Id>): (r: Option<Id>)
    ensures r.None? <==> ids == {}
    ensures r.Some? ==> r.value in ids
  {
    if exists x :: x in ids then
      LeastExists(ids);
      var x :| IsLeast(ids, x);
      Some(x)
    else
      None
  }

  lemma {:induction false} LeastExists(ids: set<Id>)
    requires exists x :: x in ids
    ensures exists x :: IsLeast(ids, x)
  {
    var x :| x in ids;
    if w :| w in ids - {x} {
      LeastExists(ids - {x});
      var y :| IsLeast(ids - {x}, y);
      var least := if x <= y then x else y;
      forall z | z in ids
        ensures least <= z
      {
        assert z == x || z in ids - {x};
      }
      assert IsLeast(ids, least);
    } else {
      forall z | z in ids
        ensures z == x
      {
        assert z == x || z in ids - {x};
      }
      assert IsLeast(ids, x);
    }
  }
}
