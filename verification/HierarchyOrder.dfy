/** `buildHierarchyOrder` (lib/hierarchy.ts): the root-first table order, which never drops a row. */
module HierarchyOrder {
  import opened Wrappers
  import opened Hierarchy
  import opened ParentGraph
  import opened Walk

  function RowIds(agents: seq<AgentNode>): seq<Id> {
    seq(|agents|, i requires 0 <= i < |agents| => agents[i].id)
  }

  // `agents.filter(a => a.parentAgentId === null)`, ids only.
  function RootIds(agents: seq<AgentNode>): seq<Id> {
    if agents == [] then []
    else
      var last := agents[|agents| - 1];
      RootIds(agents[..|agents| - 1]) + (if last.parentAgentId.None? then [last.id] else [])
  }

  ghost function Order(agents: seq<AgentNode>): seq<Entry> {
    VisitAll(ChildMapOf(agents), AllIds(agents), RootIds(agents) + RowIds(agents), 0)
  }

  lemma {:induction false} RootsAreRows(agents: seq<AgentNode>)
    ensures forall x :: x in RootIds(agents) <==> AgentNode(x, None) in agents
    ensures forall x :: x in RootIds(agents) ==> x in AllIds(agents)
  {
    if agents != [] {
      assert agents == agents[..|agents| - 1] + [agents[|agents| - 1]];
      RootsAreRows(agents[..|agents| - 1]);
    }
  }

  lemma ChildMapInside(agents: seq<AgentNode>)
    ensures forall p, x :: x in Lookup(ChildMapOf(agents), p) <==> Edge(agents, p, x)
    ensures forall p, x :: x in Lookup(ChildMapOf(agents), p) ==> x in AllIds(agents)
  {
    forall p, x
      ensures x in Lookup(ChildMapOf(agents), p) <==> Edge(agents, p, x)
    {
      GroupedIsChildIds(agents, p);
      ChildIdsAreEdges(agents, p);
    }
  }

  lemma RowIdsInside(agents: seq<AgentNode>)
    ensures forall x :: x in RowIds(agents) <==> x in AllIds(agents)
  {
    forall x | x in AllIds(agents)
      ensures x in RowIds(agents)
    {
      var i :| 0 <= i < |agents| && agents[i].id == x;
      assert RowIds(agents)[i] == x;
    }
  }

  lemma {:induction false} VisitAllConcat(ch: ChildMap, todo: set<Id>, xs: seq<Id>, ys: seq<Id>, depth: nat)
    ensures VisitAll(ch, todo, xs + ys, depth)
         == VisitAll(ch, todo, xs, depth) + VisitAll(ch, todo - EntryIds(VisitAll(ch, todo, xs, depth)), ys, depth)
    decreases |xs|
  {
    if xs == [] {
      assert xs + ys == ys;
      assert todo - EntryIds([]) == todo;
    } else {
      var block := VisitOne(ch, todo, xs[0], depth);
      var todo' := todo - EntryIds(block);
      assert (xs + ys)[1..] == xs[1..] + ys;
      VisitAllConcat(ch, todo', xs[1..], ys, depth);
      IdsOfConcat(block, VisitAll(ch, todo', xs[1..], depth));
      assert todo' - EntryIds(VisitAll(ch, todo', xs[1..], depth)) == todo - EntryIds(VisitAll(ch, todo, xs, depth));
    }
  }

  method RootsOf(agents: seq<AgentNode>) returns (roots: seq<Id>)
    ensures roots == RootIds(agents)
  {
    roots := [];
    for i := 0 to |agents|
      invariant roots == RootIds(agents[..i])
    {
      assert agents[..i + 1][..i] == agents[..i];
      if agents[i].parentAgentId.None? {
        roots := roots + [agents[i].id];
      }
    }
    assert agents[..|agents|] == agents;
  }

  method BuildHierarchyOrder(agents: seq<AgentNode>) returns (result: seq<Entry>)
    ensures result == Order(agents)
  {
    var children := ChildrenByParent(agents);
    RootsAreRows(agents);
    RowIdsInside(agents);
    ChildMapInside(agents);
    var walker := new Walker(children, AllIds(agents));
    var roots := RootsOf(agents);
    VisitAllConcat(children, AllIds(agents), roots, RowIds(agents), 0);
    assert AllIds(agents) - {} == AllIds(agents);
    walker.VisitEach(roots, 0);
    ghost var first := VisitAll(children, AllIds(agents), roots, 0);
    assert walker.result == first;
    assert AllIds(agents) - walker.visited == AllIds(agents) - EntryIds(first);
    walker.VisitEach(RowIds(agents), 0);
    result := walker.result;
  }

  // On any rows at all: every agent is listed exactly once, and every row is
  // either at depth 0 or below its parent's row, one level deeper.
  lemma OrderListsEveryAgentOnce(agents: seq<AgentNode>)
    ensures DistinctIds(Order(agents)) && EntryIds(Order(agents)) == AllIds(agents)
    ensures Nested(ChildMapOf(agents), Order(agents), 0, RootIds(agents) + RowIds(agents))
  {
    var ch, xs := ChildMapOf(agents), RootIds(agents) + RowIds(agents);
    VisitAllDistinct(ch, AllIds(agents), xs, 0);
    VisitAllCloses(ch, AllIds(agents), xs, 0);
    VisitAllNested(ch, AllIds(agents), xs, 0);
    RowIdsInside(agents);
    forall x | x in AllIds(agents)
      ensures x in EntryIds(Order(agents))
    {
      assert x in RowIds(agents) && x in xs;
    }
  }

  // ---------- the acyclic case ----------

  ghost predicate ParentsPresent(agents: seq<AgentNode>) {
    forall p, x :: Edge(agents, p, x) ==> p in AllIds(agents)
  }

  lemma {:induction false} ClimbStaysInside(agents: seq<AgentNode>, x: Id, n: nat)
    requires UniqueIds(agents) && ParentsPresent(agents) && x in AllIds(agents)
    requires UpN(ParentMap(agents), x, n).Some?
    ensures UpN(ParentMap(agents), x, n).value in AllIds(agents)
    decreases n
  {
    if n > 0 {
      ParentMapIsEdges(agents);
      var p := ParentOf(ParentMap(agents), x).value;
      assert Edge(agents, p, x);
      ClimbStaysInside(agents, p, n - 1);
    }
  }

  // Climbing from any row of an acyclic table ends at a root row.
  lemma ClimbEndsAtRoot(agents: seq<AgentNode>, x: Id) returns (n: nat, root: Id)
    requires UniqueIds(agents) && ParentsPresent(agents) && Acyclic(ParentMap(agents)) && x in AllIds(agents)
    ensures UpN(ParentMap(agents), x, n) == Some(root) && AgentNode(root, None) in agents
  {
    var parents := ParentMap(agents);
    var chain := [x] + Upline(parents, x);
    UplineIsMaximalChain(parents, x);
    n, root := |chain| - 1, chain[|chain| - 1];
    ChainIsUpN(parents, chain, n);
    ClimbStaysInside(agents, x, n);
    ParentMapIsEdges(agents);
    var row :| row in agents && row.id == root;
    if row.parentAgentId.Some? {
      assert Edge(agents, row.parentAgentId.value, root);
      LoopAtTheTop(parents, chain);
    }
  }

  lemma EdgeBackIsCycle(parents: map<Id, Option<Id>>, chain: seq<Id>, i: nat)
    requires IsChain(parents, chain) && i < |chain| && ParentOf(parents, chain[|chain| - 1]) == Some(chain[i])
    ensures UpN(parents, chain[|chain| - 1], |chain| - i) == Some(chain[|chain| - 1])
  {
    assert IsChain(parents, chain[i..]);
    ChainIsUpN(parents, chain[i..], |chain| - 1 - i);
  }

  lemma LoopAtTheTop(parents: map<Id, Option<Id>>, chain: seq<Id>)
    requires IsChain(parents, chain) && Maximal(parents, chain) && Acyclic(parents)
    ensures ParentOf(parents, chain[|chain| - 1]).None?
  {
    var next := ParentOf(parents, chain[|chain| - 1]);
    if next.Some? {
      var i :| 0 <= i < |chain| && chain[i] == next.value;
      EdgeBackIsCycle(parents, chain, i);
    }
  }

  lemma {:induction false} EmittedBelowRoot(agents: seq<AgentNode>, ids: set<Id>, x: Id, n: nat, root: Id)
    requires UniqueIds(agents) && ParentsPresent(agents) && x in AllIds(agents)
    requires UpN(ParentMap(agents), x, n) == Some(root) && root in ids
    requires ClosedIn(ChildMapOf(agents), AllIds(agents), ids)
    ensures x in ids
    decreases n
  {
    if n > 0 {
      ParentMapIsEdges(agents);
      ChildMapInside(agents);
      var p := ParentOf(ParentMap(agents), x).value;
      assert Edge(agents, p, x);
      EmittedBelowRoot(agents, ids, p, n - 1, root);
    }
  }

  lemma {:induction false} ChildIdsDistinct(agents: seq<AgentNode>, p: Id)
    requires UniqueIds(agents)
    ensures Distinct(ChildIds(agents, p))
  {
    if agents != [] {
      var init, last := agents[..|agents| - 1], agents[|agents| - 1];
      ChildIdsDistinct(init, p);
      ChildIdsAreEdges(init, p);
      assert last.id !in AllIds(init);
    }
  }

  lemma {:induction false} RootIdsDistinct(agents: seq<AgentNode>)
    requires UniqueIds(agents)
    ensures Distinct(RootIds(agents))
  {
    if agents != [] {
      var init, last := agents[..|agents| - 1], agents[|agents| - 1];
      RootIdsDistinct(init);
      RootsAreRows(init);
      assert last.id !in AllIds(init);
    }
  }

  lemma RootsPending(agents: seq<AgentNode>)
    requires UniqueIds(agents)
    ensures SingleParent(ChildMapOf(agents))
    ensures Pending(ChildMapOf(agents), AllIds(agents), RootIds(agents))
  {
    var ch := ChildMapOf(agents);
    ChildMapInside(agents);
    ParentMapIsEdges(agents);
    RootsAreRows(agents);
    RootIdsDistinct(agents);
    forall p
      ensures Distinct(Lookup(ch, p))
    {
      GroupedIsChildIds(agents, p);
      ChildIdsDistinct(agents, p);
    }
    forall x, p | x in RootIds(agents)
      ensures x !in Lookup(ch, p)
    {
    }
    forall p, q, x | x in Lookup(ch, p) && x in Lookup(ch, q)
      ensures p == q
    {
      assert Edge(agents, p, x) && Edge(agents, q, x);
      assert ParentOf(ParentMap(agents), x) == Some(p);
    }
  }

  // On an acyclic table whose parents are all rows, the order is the pre-order
  // of the forest: the second pass over the rows adds nothing.
  lemma OrderIsPreorder(agents: seq<AgentNode>)
    requires UniqueIds(agents) && ParentsPresent(agents) && Acyclic(ParentMap(agents))
    ensures Order(agents) == Preorder(ChildMapOf(agents), RootIds(agents), 0, |AllIds(agents)|)
  {
    var ch, all, roots := ChildMapOf(agents), AllIds(agents), RootIds(agents);
    var first := VisitAll(ch, all, roots, 0);
    RootsPending(agents);
    TreeWalkIsPreorder(ch, all, roots, 0, |all|);
    VisitAllCloses(ch, all, roots, 0);
    RootsAreRows(agents);
    forall x | x in all
      ensures x in EntryIds(first)
    {
      var n, root := ClimbEndsAtRoot(agents, x);
      assert root in roots && root in all;
      EmittedBelowRoot(agents, EntryIds(first), x, n, root);
    }
    VisitAllConcat(ch, all, roots, RowIds(agents), 0);
    assert all - EntryIds(first) == {};
    NothingLeft(ch, RowIds(agents), 0);
  }

  lemma {:induction false} NothingLeft(ch: ChildMap, xs: seq<Id>, depth: nat)
    ensures VisitAll(ch, {}, xs, depth) == []
    decreases |xs|
  {
    if xs != [] {
      NothingLeft(ch, xs[1..], depth);
      assert {} - EntryIds(VisitOne(ch, {}, xs[0], depth)) == {};
    }
  }
}
