/** Acyclicity of a parent map, and what adding one edge does to it. */
module ParentGraph {
  import opened Wrappers
  import opened Hierarchy

  type ParentsMap = map<Id, Option<Id>>

  ghost predicate Acyclic(parents: ParentsMap) {
    forall x, n: nat :: n >= 1 ==> UpN(parents, x, n) != Some(x)
  }

  // u is x itself or one of its ancestors.
  ghost predicate AtOrAbove(parents: ParentsMap, u: Id, x: Id) {
    exists n: nat :: UpN(parents, x, n) == Some(u)
  }

  ghost predicate StrictlyAbove(parents: ParentsMap, u: Id, x: Id) {
    exists n: nat :: n >= 1 && UpN(parents, x, n) == Some(u)
  }

  lemma {:induction false} UpNAdds(parents: ParentsMap, x: Id, m: nat, n: nat)
    requires UpN(parents, x, m).Some?
    ensures UpN(parents, x, m + n) == UpN(parents, UpN(parents, x, m).value, n)
    decreases m
  {
    if m > 0 {
      UpNAdds(parents, ParentOf(parents, x).value, m - 1, n);
    }
  }

  lemma AboveTransitive(parents: ParentsMap, a: Id, b: Id, c: Id)
    requires AtOrAbove(parents, a, b) && AtOrAbove(parents, b, c)
    ensures AtOrAbove(parents, a, c)
    ensures StrictlyAbove(parents, a, b) || StrictlyAbove(parents, b, c) ==> StrictlyAbove(parents, a, c)
  {
    var m: nat :| UpN(parents, b, m) == Some(a);
    var n: nat :| UpN(parents, c, n) == Some(b);
    UpNAdds(parents, c, n, m);
    if StrictlyAbove(parents, a, b) {
      var k: nat :| k >= 1 && UpN(parents, b, k) == Some(a);
      UpNAdds(parents, c, n, k);
    }
    if StrictlyAbove(parents, b, c) {
      var k: nat :| k >= 1 && UpN(parents, c, k) == Some(b);
      UpNAdds(parents, c, k, m);
    }
  }

  // Edges are only added: everything above x stays above x.
  ghost predicate Extends(parents: ParentsMap, wider: ParentsMap) {
    forall x :: ParentOf(parents, x).Some? ==> ParentOf(wider, x) == ParentOf(parents, x)
  }

  lemma {:induction false} ExtendsKeepsUpN(parents: ParentsMap, wider: ParentsMap, x: Id, n: nat)
    requires Extends(parents, wider) && UpN(parents, x, n).Some?
    ensures UpN(wider, x, n) == UpN(parents, x, n)
    decreases n
  {
    if n > 0 {
      ExtendsKeepsUpN(parents, wider, ParentOf(parents, x).value, n - 1);
    }
  }

  lemma ExtendsKeepsAbove(parents: ParentsMap, wider: ParentsMap, u: Id, x: Id)
    requires Extends(parents, wider)
    ensures AtOrAbove(parents, u, x) ==> AtOrAbove(wider, u, x)
    ensures StrictlyAbove(parents, u, x) ==> StrictlyAbove(wider, u, x)
  {
    if n: nat :| UpN(parents, x, n) == Some(u) {
      ExtendsKeepsUpN(parents, wider, x, n);
    }
    if n: nat :| n >= 1 && UpN(parents, x, n) == Some(u) {
      ExtendsKeepsUpN(parents, wider, x, n);
    }
  }

  // Until the climb meets g, the new edge out of g makes no difference.
  lemma {:induction false} ClimbAvoids(parents: ParentsMap, wider: ParentsMap, g: Id, x: Id, n: nat)
    requires forall y :: y != g ==> ParentOf(wider, y) == ParentOf(parents, y)
    requires forall i: nat :: i < n ==> UpN(parents, x, i) != Some(g)
    ensures UpN(wider, x, n) == UpN(parents, x, n)
    decreases n
  {
    if n > 0 {
      assert UpN(parents, x, 0) != Some(g);
      var p := ParentOf(parents, x);
      if p.Some? {
        forall i: nat | i < n - 1
          ensures UpN(parents, p.value, i) != Some(g)
        {
          assert UpN(parents, x, i + 1) == UpN(parents, p.value, i);
        }
        ClimbAvoids(parents, wider, g, p.value, n - 1);
      }
    }
  }

  // Hanging the root g below p keeps the graph acyclic, provided p is not already
  // at or below g. This is the check the cycle guard performs.
  lemma AddEdgeKeepsAcyclic(parents: ParentsMap, wider: ParentsMap, g: Id, p: Id)
    requires Acyclic(parents) && ParentOf(parents, g).None?
    requires wider == parents[g := Some(p)]
    requires !AtOrAbove(parents, g, p)
    ensures Acyclic(wider)
  {
    forall n: nat
      ensures UpN(wider, p, n) != Some(g)
    {
      ClimbAvoids(parents, wider, g, p, n);
    }
    forall x, n: nat | n >= 1
      ensures UpN(wider, x, n) != Some(x)
    {
      if i: nat :| i < n && UpN(parents, x, i) == Some(g) {
        NoCycleThrough(parents, wider, g, p, x, n, i);
      } else {
        ClimbAvoids(parents, wider, g, x, n);
      }
    }
  }

  lemma NoCycleThrough(parents: ParentsMap, wider: ParentsMap, g: Id, p: Id, x: Id, n: nat, i: nat)
    requires ParentOf(parents, g).None? && wider == parents[g := Some(p)]
    requires forall k: nat :: UpN(wider, p, k) != Some(g)
    requires i < n && UpN(parents, x, i) == Some(g)
    ensures UpN(wider, x, n) != Some(x)
  {
    assert Extends(parents, wider);
    ExtendsKeepsUpN(parents, wider, x, i);
    UpNAdds(wider, x, i, n - i);
    assert UpN(wider, g, n - i) == UpN(wider, p, n - i - 1);
    if UpN(wider, x, n) == Some(x) {
      UpNAdds(wider, p, n - i - 1, i);
    }
  }
}
