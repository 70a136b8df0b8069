/**
 The depth-first listing shared by `buildHierarchyOrder` (lib/hierarchy.ts) and
 by the roster's `visit` closure (lib/agency-tree.ts): emit a node once, then its
 children one level deeper, skipping whatever was already emitted.
 */
module Walk {
  import opened Wrappers
  import opened Hierarchy

  datatype Entry = Entry(id: Id, depth: nat)

  type ChildMap = map<Id, seq<Id>>

  function EntryIds(entries: seq<Entry>): set<Id> {
    set e | e in entries :: e.id
  }

  // ---------- reference listing ----------

  // `todo` is every id not visited yet.
  ghost function VisitOne(ch: ChildMap, todo: set<Id>, x: Id, depth: nat): seq<Entry>
    decreases todo, 0
  {
    if x !in todo then [] else [Entry(x, depth)] + VisitAll(ch, todo - {x}, Lookup(ch, x), depth + 1)
  }

  ghost function VisitAll(ch: ChildMap, todo: set<Id>, xs: seq<Id>, depth: nat): seq<Entry>
    decreases todo, |xs|
  {
    if xs == [] then []
    else
      var block := VisitOne(ch, todo, xs[0], depth);
      block + VisitAll(ch, todo - EntryIds(block), xs[1..], depth)
  }

  lemma IdsOfConcat(a: seq<Entry>, b: seq<Entry>)
    ensures EntryIds(a + b) == EntryIds(a) + EntryIds(b)
  {
  }

  ghost predicate DistinctIds(entries: seq<Entry>) {
    forall i, j :: 0 <= i < j < |entries| ==> entries[i].id != entries[j].id
  }

  lemma DistinctConcat(a: seq<Entry>, b: seq<Entry>)
    requires DistinctIds(a) && DistinctIds(b) && EntryIds(a) !! EntryIds(b)
    ensures DistinctIds(a + b)
  {
    forall i, j | 0 <= i < |a| <= j < |a + b|
      ensures (a + b)[i].id != (a + b)[j].id
    {
      assert a[i] in a && b[j - |a|] in b;
      assert a[i].id in EntryIds(a) && b[j - |a|].id in EntryIds(b);
    }
  }

  // ---------- each node once ----------

  lemma {:induction false} VisitOneDistinct(ch: ChildMap, todo: set<Id>, x: Id, depth: nat)
    ensures DistinctIds(VisitOne(ch, todo, x, depth)) && EntryIds(VisitOne(ch, todo, x, depth)) <= todo
    decreases todo, 0
  {
    if x in todo {
      var inner := VisitAll(ch, todo - {x}, Lookup(ch, x), depth + 1);
      VisitAllDistinct(ch, todo - {x}, Lookup(ch, x), depth + 1);
      IdsOfConcat([Entry(x, depth)], inner);
      DistinctConcat([Entry(x, depth)], inner);
    }
  }

  lemma {:induction false} VisitAllDistinct(ch: ChildMap, todo: set<Id>, xs: seq<Id>, depth: nat)
    ensures DistinctIds(VisitAll(ch, todo, xs, depth)) && EntryIds(VisitAll(ch, todo, xs, depth)) <= todo
    decreases todo, |xs|
  {
    if xs != [] {
      var block := VisitOne(ch, todo, xs[0], depth);
      var rest := VisitAll(ch, todo - EntryIds(block), xs[1..], depth);
      VisitOneDistinct(ch, todo, xs[0], depth);
      VisitAllDistinct(ch, todo - EntryIds(block), xs[1..], depth);
      IdsOfConcat(block, rest);
      DistinctConcat(block, rest);
    }
  }

  // ---------- nothing reachable is missed ----------

  // Children of an emitted node are emitted too, unless they were visited before.
  ghost predicate ClosedIn(ch: ChildMap, todo: set<Id>, ids: set<Id>) {
    forall y, z :: y in ids && z in Lookup(ch, y) && z in todo ==> z in ids
  }

  lemma {:induction false} VisitOneCloses(ch: ChildMap, todo: set<Id>, x: Id, depth: nat)
    ensures ClosedIn(ch, todo, EntryIds(VisitOne(ch, todo, x, depth)))
    ensures x in todo ==> x in EntryIds(VisitOne(ch, todo, x, depth))
    decreases todo, 0
  {
    if x in todo {
      var inner := VisitAll(ch, todo - {x}, Lookup(ch, x), depth + 1);
      VisitAllCloses(ch, todo - {x}, Lookup(ch, x), depth + 1);
      IdsOfConcat([Entry(x, depth)], inner);
      assert EntryIds([Entry(x, depth)]) == {x};
    }
  }

  lemma {:induction false} VisitAllCloses(ch: ChildMap, todo: set<Id>, xs: seq<Id>, depth: nat)
    ensures ClosedIn(ch, todo, EntryIds(VisitAll(ch, todo, xs, depth)))
    ensures forall x :: x in xs && x in todo ==> x in EntryIds(VisitAll(ch, todo, xs, depth))
    decreases todo, |xs|
  {
    if xs != [] {
      var block := VisitOne(ch, todo, xs[0], depth);
      var rest := VisitAll(ch, todo - EntryIds(block), xs[1..], depth);
      VisitOneCloses(ch, todo, xs[0], depth);
      VisitAllCloses(ch, todo - EntryIds(block), xs[1..], depth);
      IdsOfConcat(block, rest);
      assert xs == [xs[0]] + xs[1..];
    }
  }

  // ---------- indentation ----------

  // Entry j is the parent row of entry k: one level up, joined by a child edge,
  // with only deeper rows in between.
  ghost predicate ParentRow(ch: ChildMap, entries: seq<Entry>, j: int, k: int)
    requires 0 <= j < k < |entries|
  {
    && entries[j].depth + 1 == entries[k].depth
    && entries[k].id in Lookup(ch, entries[j].id)
    && forall m :: j < m < k ==> entries[j].depth < entries[m].depth
  }

  // A row is at the top depth, coming from the given list, or below its parent row.
  ghost predicate RowNested(ch: ChildMap, entries: seq<Entry>, top: nat, xs: seq<Id>, k: int)
    requires 0 <= k < |entries|
  {
    && top <= entries[k].depth
    && (entries[k].depth == top ==> entries[k].id in xs)
    && (entries[k].depth > top ==> exists j :: 0 <= j < k && ParentRow(ch, entries, j, k))
  }

  ghost predicate Nested(ch: ChildMap, entries: seq<Entry>, top: nat, xs: seq<Id>) {
    forall k :: 0 <= k < |entries| ==> RowNested(ch, entries, top, xs, k)
  }

  lemma NestedConcat(ch: ChildMap, a: seq<Entry>, b: seq<Entry>, top: nat, xs: seq<Id>, ys: seq<Id>, zs: seq<Id>)
    requires Nested(ch, a, top, xs) && Nested(ch, b, top, ys)
    requires forall x :: x in xs || x in ys ==> x in zs
    ensures Nested(ch, a + b, top, zs)
  {
    var c := a + b;
    forall k | 0 <= k < |c|
      ensures RowNested(ch, c, top, zs, k)
    {
      if k < |a| {
        assert RowNested(ch, a, top, xs, k);
        if c[k].depth > top {
          var j :| 0 <= j < k && ParentRow(ch, a, j, k);
          assert ParentRow(ch, c, j, k);
        }
      } else {
        assert RowNested(ch, b, top, ys, k - |a|);
        if c[k].depth > top {
          var j :| 0 <= j < k - |a| && ParentRow(ch, b, j, k - |a|);
          ParentRowShift(ch, a, b, j, k - |a|);
        }
      }
    }
  }

  lemma ParentRowShift(ch: ChildMap, a: seq<Entry>, b: seq<Entry>, j: int, k: int)
    requires 0 <= j < k < |b| && ParentRow(ch, b, j, k)
    ensures ParentRow(ch, a + b, |a| + j, |a| + k)
  {
  }

  lemma NestedUnder(ch: ChildMap, x: Id, inner: seq<Entry>, depth: nat)
    requires Nested(ch, inner, depth + 1, Lookup(ch, x))
    ensures Nested(ch, [Entry(x, depth)] + inner, depth, [x])
  {
    var c := [Entry(x, depth)] + inner;
    forall k | 1 <= k < |c|
      ensures RowNested(ch, c, depth, [x], k)
    {
      assert RowNested(ch, inner, depth + 1, Lookup(ch, x), k - 1);
      if c[k].depth == depth + 1 {
        forall m | 0 < m < k
          ensures depth < c[m].depth
        {
          assert RowNested(ch, inner, depth + 1, Lookup(ch, x), m - 1);
        }
        assert ParentRow(ch, c, 0, k);
      } else {
        var j :| 0 <= j < k - 1 && ParentRow(ch, inner, j, k - 1);
        ParentRowShift(ch, [Entry(x, depth)], inner, j, k - 1);
      }
    }
    assert RowNested(ch, c, depth, [x], 0);
  }

  lemma {:induction false} VisitOneNested(ch: ChildMap, todo: set<Id>, x: Id, depth: nat)
    ensures Nested(ch, VisitOne(ch, todo, x, depth), depth, [x])
    decreases todo, 0
  {
    if x in todo {
      VisitAllNested(ch, todo - {x}, Lookup(ch, x), depth + 1);
      NestedUnder(ch, x, VisitAll(ch, todo - {x}, Lookup(ch, x), depth + 1), depth);
    }
  }

  lemma {:induction false} VisitAllNested(ch: ChildMap, todo: set<Id>, xs: seq<Id>, depth: nat)
    ensures Nested(ch, VisitAll(ch, todo, xs, depth), depth, xs)
    decreases todo, |xs|
  {
    if xs != [] {
      var block := VisitOne(ch, todo, xs[0], depth);
      VisitOneNested(ch, todo, xs[0], depth);
      VisitAllNested(ch, todo - EntryIds(block), xs[1..], depth);
      assert forall x :: x in [xs[0]] || x in xs[1..] ==> x in xs;
      NestedConcat(ch, block, VisitAll(ch, todo - EntryIds(block), xs[1..], depth), depth, [xs[0]], xs[1..], xs);
    }
  }

  // ---------- descendants are contiguous ----------

  // Each node is listed under one parent only.
  ghost predicate SingleParent(ch: ChildMap) {
    && (forall p, q, x :: x in Lookup(ch, p) && x in Lookup(ch, q) ==> p == q)
    && (forall p :: Distinct(Lookup(ch, p)))
  }

  // A path of child edges from a down to b, of any length.
  ghost predicate Below(ch: ChildMap, a: Id, b: Id, n: nat)
    decreases n
  {
    if n == 0 then a == b else exists p :: Below(ch, a, p, n - 1) && b in Lookup(ch, p)
  }

  // The rows after i down to the next row that is not deeper.
  ghost predicate InBlock(entries: seq<Entry>, i: int, k: int)
    requires 0 <= i <= k < |entries|
  {
    forall m :: i < m <= k ==> entries[i].depth < entries[m].depth
  }

  lemma {:induction false} BlockIsBelow(ch: ChildMap, entries: seq<Entry>, top: nat, xs: seq<Id>, i: int, k: int)
    requires Nested(ch, entries, top, xs) && 0 <= i <= k < |entries| && InBlock(entries, i, k)
    ensures Below(ch, entries[i].id, entries[k].id, entries[k].depth - entries[i].depth)
    decreases k
  {
    if k > i {
      assert RowNested(ch, entries, top, xs, k) && RowNested(ch, entries, top, xs, i);
      var j :| 0 <= j < k && ParentRow(ch, entries, j, k);
      assert i <= j;
      BlockIsBelow(ch, entries, top, xs, i, j);
    }
  }

  lemma {:induction false} BelowIsInBlock(ch: ChildMap, entries: seq<Entry>, top: nat, xs: seq<Id>, i: int, k: int,
                                          n: nat)
    requires SingleParent(ch) && DistinctIds(entries) && Nested(ch, entries, top, xs)
    requires forall x, p :: x in xs ==> x !in Lookup(ch, p)
    requires 0 <= i < |entries| && 0 <= k < |entries| && Below(ch, entries[i].id, entries[k].id, n)
    ensures i <= k && InBlock(entries, i, k)
    decreases n
  {
    if n > 0 {
      var p :| Below(ch, entries[i].id, p, n - 1) && entries[k].id in Lookup(ch, p);
      assert RowNested(ch, entries, top, xs, k);
      var j :| 0 <= j < k && ParentRow(ch, entries, j, k);
      assert entries[j].id == p;
      BelowIsInBlock(ch, entries, top, xs, i, j, n - 1);
    }
  }

  // ---------- in a tree nothing is ever skipped ----------

  // The plain pre-order, with no visited set; fuel bounds the height.
  function Preorder(ch: ChildMap, xs: seq<Id>, depth: nat, fuel: nat): seq<Entry>
    decreases fuel, |xs|
  {
    if xs == [] || fuel == 0 then []
    else
      [Entry(xs[0], depth)] + Preorder(ch, Lookup(ch, xs[0]), depth + 1, fuel - 1)
      + Preorder(ch, xs[1..], depth, fuel)
  }

  // The unvisited nodes are closed under children, and the pending list is
  // unvisited with every parent already emitted.
  ghost predicate Pending(ch: ChildMap, todo: set<Id>, xs: seq<Id>) {
    && (forall y, z :: y in todo && z in Lookup(ch, y) ==> z in todo)
    && (forall x :: x in xs ==> x in todo)
    && (forall x, p :: x in xs && p in todo ==> x !in Lookup(ch, p))
    && Distinct(xs)
  }

  lemma PendingChildren(ch: ChildMap, todo: set<Id>, xs: seq<Id>)
    requires SingleParent(ch) && Pending(ch, todo, xs) && xs != []
    ensures Pending(ch, todo - {xs[0]}, Lookup(ch, xs[0]))
  {
    var x := xs[0];
    assert x in xs;
    forall y, z | y in todo - {x} && z in Lookup(ch, y)
      ensures z in todo - {x}
    {
    }
    forall z, p | z in Lookup(ch, x) && p in todo - {x}
      ensures z in todo - {x} && z !in Lookup(ch, p)
    {
    }
    forall z | z in Lookup(ch, x)
      ensures z in todo - {x}
    {
    }
  }

  // Every emitted node but the first has its parent among the emitted nodes.
  lemma EmittedUnderEmitted(ch: ChildMap, todo: set<Id>, x: Id, depth: nat, z: Id)
    requires z in EntryIds(VisitOne(ch, todo, x, depth)) && z != x
    ensures exists p :: p in EntryIds(VisitOne(ch, todo, x, depth)) && z in Lookup(ch, p)
  {
    var block := VisitOne(ch, todo, x, depth);
    VisitOneNested(ch, todo, x, depth);
    var e :| e in block && e.id == z;
    var k :| 0 <= k < |block| && block[k] == e;
    assert RowNested(ch, block, depth, [x], k);
    var j :| 0 <= j < k && ParentRow(ch, block, j, k);
    assert block[j] in block;
    assert block[j].id in EntryIds(block) && z in Lookup(ch, block[j].id);
  }

  lemma PendingRest(ch: ChildMap, todo: set<Id>, xs: seq<Id>, depth: nat)
    requires SingleParent(ch) && Pending(ch, todo, xs) && xs != []
    ensures Pending(ch, todo - EntryIds(VisitOne(ch, todo, xs[0], depth)), xs[1..])
  {
    var x, ids := xs[0], EntryIds(VisitOne(ch, todo, xs[0], depth));
    VisitOneDistinct(ch, todo, x, depth);
    assert x in xs;
    forall y, z | y in todo - ids && z in Lookup(ch, y)
      ensures z in todo - ids
    {
      if z in ids && z != x {
        EmittedUnderEmitted(ch, todo, x, depth, z);
      }
    }
    forall z | z in xs[1..]
      ensures z in xs && z in todo - ids
    {
      var i :| 0 <= i < |xs| - 1 && xs[1..][i] == z;
      assert xs[i + 1] == z;
      if z in ids {
        EmittedUnderEmitted(ch, todo, x, depth, z);
      }
    }
  }

  lemma SubsetSize<T>(a: set<T>, b: set<T>)
    requires a <= b
    ensures |a| <= |b|
  {
    assert b == a + (b - a);
  }

  // The pending list splits into the first node's children and the remaining list.
  lemma PendingSplits(ch: ChildMap, todo: set<Id>, xs: seq<Id>, depth: nat) returns (inner: set<Id>, rest: set<Id>)
    requires SingleParent(ch) && Pending(ch, todo, xs) && xs != []
    ensures Pending(ch, inner, Lookup(ch, xs[0])) && Pending(ch, rest, xs[1..])
    ensures inner < todo && |inner| < |todo| && rest <= todo && |rest| <= |todo|
    ensures VisitAll(ch, todo, xs, depth)
         == [Entry(xs[0], depth)] + VisitAll(ch, inner, Lookup(ch, xs[0]), depth + 1)
           + VisitAll(ch, rest, xs[1..], depth)
  {
    assert xs[0] in xs;
    inner, rest := todo - {xs[0]}, todo - EntryIds(VisitOne(ch, todo, xs[0], depth));
    PendingChildren(ch, todo, xs);
    PendingRest(ch, todo, xs, depth);
    SubsetSize(rest, todo);
  }

  // A split walk is a pre-order when its two parts are.
  lemma PreorderStep(ch: ChildMap, walk: seq<Entry>, inner: seq<Entry>, rest: seq<Entry>, xs: seq<Id>, depth: nat,
                     fuel: nat)
    requires xs != [] && fuel > 0 && walk == [Entry(xs[0], depth)] + inner + rest
    requires inner == Preorder(ch, Lookup(ch, xs[0]), depth + 1, fuel - 1) && rest == Preorder(ch, xs[1..], depth, fuel)
    ensures walk == Preorder(ch, xs, depth, fuel)
  {
  }

  lemma {:induction false} TreeWalkIsPreorder(ch: ChildMap, todo: set<Id>, xs: seq<Id>, depth: nat, fuel: nat)
    requires SingleParent(ch) && Pending(ch, todo, xs) && fuel >= |todo|
    ensures VisitAll(ch, todo, xs, depth) == Preorder(ch, xs, depth, fuel)
    decreases todo, |xs|
  {
    if xs != [] {
      var inner, rest := PendingSplits(ch, todo, xs, depth);
      var children := Lookup(ch, xs[0]);
      TreeWalkIsPreorder(ch, inner, children, depth + 1, fuel - 1);
      TreeWalkIsPreorder(ch, rest, xs[1..], depth, fuel);
      PreorderStep(ch, VisitAll(ch, todo, xs, depth), VisitAll(ch, inner, children, depth + 1),
        VisitAll(ch, rest, xs[1..], depth), xs, depth, fuel);
    }
  }

  // ---------- the recursive closure itself ----------

  // After i rounds of the closure's loop `out` is the listing of the first i nodes.
  ghost predicate VisitedSoFar(ch: ChildMap, todo: set<Id>, out: seq<Entry>, ids: seq<Id>, i: nat, depth: nat)
    requires i <= |ids|
  {
    out + VisitAll(ch, todo - EntryIds(out), ids[i..], depth) == VisitAll(ch, todo, ids, depth)
  }

  lemma NothingVisited(ch: ChildMap, todo: set<Id>, ids: seq<Id>, depth: nat)
    ensures EntryIds([]) == {} && VisitedSoFar(ch, todo, [], ids, 0, depth)
  {
    assert ids[0..] == ids && todo - EntryIds([]) == todo;
  }

  lemma VisitStep(ch: ChildMap, todo: set<Id>, out: seq<Entry>, ids: seq<Id>, i: nat, depth: nat)
    requires i < |ids| && VisitedSoFar(ch, todo, out, ids, i, depth)
    ensures
      var block := VisitOne(ch, todo - EntryIds(out), ids[i], depth);
      EntryIds(out + block) == EntryIds(out) + EntryIds(block) && VisitedSoFar(ch, todo, out + block, ids, i + 1, depth)
  {
    var block := VisitOne(ch, todo - EntryIds(out), ids[i], depth);
    IdsOfConcat(out, block);
    assert ids[i..][1..] == ids[i + 1..];
    assert todo - EntryIds(out + block) == todo - EntryIds(out) - EntryIds(block);
  }

  lemma AllVisited(ch: ChildMap, todo: set<Id>, out: seq<Entry>, ids: seq<Id>, depth: nat)
    requires VisitedSoFar(ch, todo, out, ids, |ids|, depth)
    ensures out == VisitAll(ch, todo, ids, depth)
  {
  }

  // `visited` and `result` are the variables the source's `visit` closes over.
  class Walker {
    const children: ChildMap
    ghost const universe: set<Id>
    var visited: set<Id>
    var result: seq<Entry>

    ghost predicate Valid()
      reads this
    {
      forall p, x :: x in Lookup(children, p) ==> x in universe
    }

    constructor (children: ChildMap, ghost universe: set<Id>)
      requires forall p, x :: x in Lookup(children, p) ==> x in universe
      ensures Valid() && this.children == children && this.universe == universe
      ensures visited == {} && result == []
    {
      this.children := children;
      this.universe := universe;
      visited := {};
      result := [];
    }

    method Visit(id: Id, depth: nat)
      requires Valid() && id in universe
      modifies this
      ensures Valid()
      ensures result == old(result) + VisitOne(children, universe - old(visited), id, depth)
      ensures visited == old(visited) + EntryIds(VisitOne(children, universe - old(visited), id, depth))
      decreases universe - visited, 0
    {
      if id in visited { return; }
      ghost var todo := universe - visited;
      visited := visited + {id};
      result := result + [Entry(id, depth)];
      IdsOfConcat([Entry(id, depth)], VisitAll(children, todo - {id}, Lookup(children, id), depth + 1));
      assert universe - visited == todo - {id};
      VisitEach(Lookup(children, id), depth + 1);
    }

    method VisitEach(ids: seq<Id>, depth: nat)
      requires Valid() && forall x :: x in ids ==> x in universe
      modifies this
      ensures Valid()
      ensures result == old(result) + VisitAll(children, universe - old(visited), ids, depth)
      ensures visited == old(visited) + EntryIds(VisitAll(children, universe - old(visited), ids, depth))
      decreases universe - visited, 1 + |ids|
    {
      ghost var out: seq<Entry> := [];
      ghost var was, todo := visited, universe - visited;
      NothingVisited(children, todo, ids, depth);
      for i := 0 to |ids|
        invariant Valid() && result == old(result) + out && visited == was + EntryIds(out)
        invariant VisitedSoFar(children, todo, out, ids, i, depth)
      {
        assert ids[i] in ids && universe - visited == todo - EntryIds(out);
        VisitStep(children, todo, out, ids, i, depth);
        ghost var block := VisitOne(children, todo - EntryIds(out), ids[i], depth);
        Visit(ids[i], depth);
        out := out + block;
      }
      AllVisited(children, todo, out, ids, depth);
    }
  }
}
