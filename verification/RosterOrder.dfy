/** In which order the roster lists people who hang under the same parent. */
module RosterOrder {
  import opened Wrappers
  import opened Hierarchy
  import opened ParentGraph
  import opened Tables
  import opened Walk
  import opened AgencyAdmission
  import opened AgencyRoster
  import opened AgencyTree
  import opened RosterRules

  // ---------- rows of one level ----------

  ghost predicate Precedes(list: seq<Id>, x: Id, y: Id) {
    exists a, b :: 0 <= a < b < |list| && list[a] == x && list[b] == y
  }

  // Rows i and k of one depth with nothing higher between them.
  ghost predicate SameLevel(entries: seq<Entry>, i: int, k: int) {
    && 0 <= i < k < |entries| && entries[i].depth == entries[k].depth
    && forall m :: i < m < k ==> entries[m].depth >= entries[i].depth
  }

  ghost predicate SiblingOrder(ch: ChildMap, x: Id, y: Id) {
    exists p :: Precedes(Lookup(ch, p), x, y)
  }

  // Row f is listed after row e of the same level in the list both come from.
  ghost predicate InListOrder(ch: ChildMap, xs: seq<Id>, top: nat, e: Entry, f: Entry) {
    if e.depth == top then Precedes(xs, e.id, f.id) else SiblingOrder(ch, e.id, f.id)
  }

  ghost predicate Ordered(ch: ChildMap, xs: seq<Id>, top: nat, entries: seq<Entry>) {
    forall i, k :: SameLevel(entries, i, k) ==> InListOrder(ch, xs, top, entries[i], entries[k])
  }

  // A listing starts at its depth, never goes above it, and the rows at it come from
  // the given list.
  ghost predicate StartsAt(xs: seq<Id>, top: nat, entries: seq<Entry>) {
    && (entries != [] ==> entries[0].depth == top)
    && forall m :: 0 <= m < |entries| ==>
         entries[m].depth >= top && (entries[m].depth == top ==> entries[m].id in xs)
  }

  lemma {:induction false} PreorderStartsAt(ch: ChildMap, xs: seq<Id>, depth: nat, fuel: nat)
    ensures StartsAt(xs, depth, Preorder(ch, xs, depth, fuel))
    decreases fuel, |xs|
  {
    if xs != [] && fuel > 0 {
      PreorderStartsAt(ch, Lookup(ch, xs[0]), depth + 1, fuel - 1);
      PreorderStartsAt(ch, xs[1..], depth, fuel);
      assert forall x :: x in xs[1..] ==> x in xs;
    }
  }

  lemma SameLevelInPart(a: seq<Entry>, part: seq<Entry>, b: seq<Entry>, i: int, k: int)
    requires SameLevel(a + part + b, i, k) && |a| <= i && k < |a| + |part|
    ensures SameLevel(part, i - |a|, k - |a|)
    ensures (a + part + b)[i] == part[i - |a|] && (a + part + b)[k] == part[k - |a|]
  {
    var all := a + part + b;
    assert forall m :: 0 <= m < |part| ==> part[m] == all[|a| + m];
  }

  lemma PrecedesLater(xs: seq<Id>, x: Id, y: Id)
    requires xs != [] && Precedes(xs[1..], x, y)
    ensures Precedes(xs, x, y)
  {
    var a, b :| 0 <= a < b < |xs[1..]| && xs[1..][a] == x && xs[1..][b] == y;
    assert xs[a + 1] == x && xs[b + 1] == y;
  }

  lemma FirstPrecedes(xs: seq<Id>, y: Id)
    requires xs != [] && y in xs[1..]
    ensures Precedes(xs, xs[0], y)
  {
    var b :| 0 <= b < |xs[1..]| && xs[1..][b] == y;
    assert xs[b + 1] == y;
  }

  // The first row is above all of `inner`, and `rest` starts above them as well.
  lemma LevelsApart(xs: seq<Id>, top: nat, inner: seq<Entry>, rest: seq<Entry>, i: int, k: int)
    requires xs != [] && 0 <= i < k <= |inner| + |rest|
    requires (forall e :: e in inner ==> e.depth > top) && (rest != [] ==> rest[0].depth == top)
    requires if i == 0 then k <= |inner| else i <= |inner| < k
    ensures !SameLevel([Entry(xs[0], top)] + inner + rest, i, k)
  {
    var entries := [Entry(xs[0], top)] + inner + rest;
    if i == 0 {
      assert entries[k] == inner[k - 1];
    } else {
      assert entries[i] == inner[i - 1] && entries[|inner| + 1] == rest[0];
    }
  }

  lemma StepOrder(ch: ChildMap, xs: seq<Id>, top: nat, inner: seq<Entry>, rest: seq<Entry>, i: int, k: int)
    requires xs != [] && StartsAt(Lookup(ch, xs[0]), top + 1, inner) && StartsAt(xs[1..], top, rest)
    requires Ordered(ch, Lookup(ch, xs[0]), top + 1, inner) && Ordered(ch, xs[1..], top, rest)
    requires SameLevel([Entry(xs[0], top)] + inner + rest, i, k)
    ensures
      var entries := [Entry(xs[0], top)] + inner + rest;
      InListOrder(ch, xs, top, entries[i], entries[k])
  {
    var head := [Entry(xs[0], top)];
    var entries, n := head + inner + rest, |inner| + 1;
    if i >= n {
      assert head + inner + rest == (head + inner) + rest + [];
      SameLevelInPart(head + inner, rest, [], i, k);
      if entries[i].depth == top {
        PrecedesLater(xs, entries[i].id, entries[k].id);
      }
    } else if i > 0 && k < n {
      SameLevelInPart(head, inner, rest, i, k);
    } else if i == 0 && k >= n {
      FirstPrecedes(xs, entries[k].id);
    } else {
      LevelsApart(xs, top, inner, rest, i, k);
    }
  }

  lemma {:induction false} PreorderIsOrdered(ch: ChildMap, xs: seq<Id>, depth: nat, fuel: nat)
    ensures Ordered(ch, xs, depth, Preorder(ch, xs, depth, fuel))
    decreases fuel, |xs|
  {
    if xs != [] && fuel > 0 {
      var inner, rest := Preorder(ch, Lookup(ch, xs[0]), depth + 1, fuel - 1), Preorder(ch, xs[1..], depth, fuel);
      PreorderStartsAt(ch, Lookup(ch, xs[0]), depth + 1, fuel - 1);
      PreorderStartsAt(ch, xs[1..], depth, fuel);
      PreorderIsOrdered(ch, Lookup(ch, xs[0]), depth + 1, fuel - 1);
      PreorderIsOrdered(ch, xs[1..], depth, fuel);
      forall i, k | SameLevel(Preorder(ch, xs, depth, fuel), i, k)
        ensures InListOrder(ch, xs, depth, Preorder(ch, xs, depth, fuel)[i], Preorder(ch, xs, depth, fuel)[k])
      {
        StepOrder(ch, xs, depth, inner, rest, i, k);
      }
    }
  }

  // ---------- siblings ----------

  // Two people under one parent: their rows are of one level.
  lemma SiblingRows(up: ParentsMap, all: set<Id>, root: Id, entries: seq<Entry>, i: int, k: int, p: Id)
    requires IsTreeListing(up, all, root, entries) && 0 <= i < k < |entries|
    requires ParentOf(up, entries[i].id) == Some(p) && ParentOf(up, entries[k].id) == Some(p)
    requires ParentOf(up, root).None?
    ensures SameLevel(entries, i, k)
  {
    assert FollowsParent(up, entries, i) && FollowsParent(up, entries, k);
    var j :| 0 <= j < i && ParentOf(up, entries[i].id) == Some(entries[j].id)
      && entries[j].depth + 1 == entries[i].depth;
    var j' :| 0 <= j' < k && ParentOf(up, entries[k].id) == Some(entries[j'].id)
      && entries[j'].depth + 1 == entries[k].depth;
    assert j == j';
    assert UpN(up, entries[k].id, 1) == Some(p);
    assert BlockIsSubtree(up, entries, j, k);
  }

  // Children of q in sibling order: the earlier listed node joined no later.
  lemma ChildPrecedes(nodes: seq<Node>, q: Id, x: Node, y: Node)
    requires DistinctNodes(nodes) && x in nodes && y in nodes
    requires Precedes(NodeIds(SortNodes(ChildNodes(nodes, q))), x.agentId, y.agentId)
    ensures x.sortAt < y.sortAt || (x.sortAt == y.sortAt && x.sortId <= y.sortId)
  {
    var list := SortNodes(ChildNodes(nodes, q));
    SortNodesSorts(ChildNodes(nodes, q));
    ChildNodesAre(nodes, q);
    var a, b :| 0 <= a < b < |NodeIds(list)| && NodeIds(list)[a] == x.agentId && NodeIds(list)[b] == y.agentId;
    assert list[a] in multiset(list) && list[b] in multiset(list);
    assert list[a] == x && list[b] == y;
  }

  // When that person joined, and by which membership: as member i, or as owner k.
  predicate MemberJoined(shape: Shape, i: int, x: Id, at: Time, membershipId: Id) {
    && 0 <= i < |shape.members| && shape.members[i].agentId == x
    && shape.members[i].joinedAt == at && shape.members[i].membershipId == membershipId
  }

  predicate OwnerJoined(shape: Shape, k: int, x: Id, at: Time, membershipId: Id) {
    && 1 <= k < |shape.agencies| && shape.agencies[k].owner.agentId == x
    && shape.agencies[k].owner.joinedAt == at && shape.agencies[k].owner.membershipId == membershipId
  }

  ghost predicate Joined(shape: Shape, x: Id, at: Time, m: Id) {
    (exists i :: MemberJoined(shape, i, x, at, m)) || (exists k :: OwnerJoined(shape, k, x, at, m))
  }

  lemma MemberNodeJoined(shape: Shape, now: Time, i: int, x: Id, at: Time, m: Id) returns (n: Node)
    requires OneRowEach(shape.agencies, shape.members) && MemberJoined(shape, i, x, at, m)
    ensures n in MemberNodes(shape, shape.members, now) && n.agentId == x && n.sortAt == at && n.sortId == m
  {
    MemberNodesExact(shape, |shape.members|, now);
    assert shape.members[..|shape.members|] == shape.members;
    n := MemberNodes(shape, shape.members, now)[i];
  }

  lemma OwnerNodeJoined(rows: seq<AgencyRow>, root: ActiveAgency, now: Time, shape: Shape, k: int, x: Id, at: Time,
                        m: Id)
    returns (n: Node)
    requires RosterShape(rows, root, now, shape) && OwnerJoined(shape, k, x, at, m)
    ensures n in AgencyNodes(shape, shape.agencies, root.agencyId) && n.agentId == x && n.sortAt == at && n.sortId == m
  {
    AllAgencyNodes(rows, root, now, shape);
    n := AgencyNodes(shape, shape.agencies, root.agencyId)[k - 1];
  }

  lemma JoinedHasNode(rows: seq<AgencyRow>, root: ActiveAgency, now: Time, shape: Shape, x: Id, at: Time, m: Id)
    returns (n: Node)
    requires RosterShape(rows, root, now, shape) && Joined(shape, x, at, m)
    ensures n in Hanging(shape, root.agencyId, now) && n.agentId == x && n.sortAt == at && n.sortId == m
  {
    if i :| MemberJoined(shape, i, x, at, m) {
      n := MemberNodeJoined(shape, now, i, x, at, m);
    } else {
      var k :| OwnerJoined(shape, k, x, at, m);
      n := OwnerNodeJoined(rows, root, now, shape, k, x, at, m);
    }
  }

  lemma RowsInListOrder(root: ActiveAgency, now: Time, shape: Shape, result: seq<Row>, i: int, k: int)
    returns (q: Id)
    requires IsRoster(root, now, shape, result) && SameLevel(Entries(result), i, k)
    ensures
      Precedes(NodeIds(SortNodes(ChildNodes(Hanging(shape, root.agencyId, now), q))), result[i].agentId,
        result[k].agentId)
  {
    var nodes := Hanging(shape, root.agencyId, now);
    var ch :|
      IsChildMap(nodes, ch) && Entries(result) == Preorder(ch, [root.owner.agentId], 0, |People(shape)|);
    PreorderIsOrdered(ch, [root.owner.agentId], 0, |People(shape)|);
    assert InListOrder(ch, [root.owner.agentId], 0, Entries(result)[i], Entries(result)[k]);
    q :| Precedes(Lookup(ch, q), result[i].agentId, result[k].agentId);
  }

  // In the result, people under one parent come in the order in which they joined, by
  // membership id if at the same time, however many rows of others stand between them.
  lemma SiblingsByJoinTime(rows: seq<AgencyRow>, root: ActiveAgency, now: Time, shape: Shape, result: seq<Row>,
                           i: int, k: int, at: Time, m: Id, at': Time, m': Id)
    requires RosterShape(rows, root, now, shape) && IsRoster(root, now, shape, result) && 0 <= i < k < |result|
    requires result[i].parentAgentId.Some? && result[i].parentAgentId == result[k].parentAgentId
    requires Joined(shape, result[i].agentId, at, m) && Joined(shape, result[k].agentId, at', m')
    ensures at < at' || (at == at' && m <= m')
  {
    var nodes := Hanging(shape, root.agencyId, now);
    var x := JoinedHasNode(rows, root, now, shape, result[i].agentId, at, m);
    var y := JoinedHasNode(rows, root, now, shape, result[k].agentId, at', m');
    RowParent(rows, root, now, shape, result, i, x);
    RowParent(rows, root, now, shape, result, k, y);
    SiblingRows(Up(nodes), People(shape), root.owner.agentId, Entries(result), i, k, result[i].parentAgentId.value);
    var q := RowsInListOrder(root, now, shape, result, i, k);
    HangingDistinct(rows, root, now, shape);
    ChildPrecedes(nodes, q, x, y);
  }

  lemma HangingDistinct(rows: seq<AgencyRow>, root: ActiveAgency, now: Time, shape: Shape)
    requires RosterShape(rows, root, now, shape)
    ensures DistinctNodes(Hanging(shape, root.agencyId, now))
    ensures ParentOf(Up(Hanging(shape, root.agencyId, now)), root.owner.agentId).None?
  {
    var owners, people := AgencyNodes(shape, shape.agencies, root.agencyId), MemberNodes(shape, shape.members, now);
    HangingIs(rows, root, now, shape);
    NodesDistinct(shape, owners, people);
    UpKeys(owners + people);
  }

  // The parent shown in a row is the parent in the roster's parent map.
  lemma RowParent(rows: seq<AgencyRow>, root: ActiveAgency, now: Time, shape: Shape, result: seq<Row>, i: int, n: Node)
    requires RosterShape(rows, root, now, shape) && IsRoster(root, now, shape, result) && 0 <= i < |result|
    requires n in Hanging(shape, root.agencyId, now) && result[i].agentId == n.agentId
    ensures result[i].parentAgentId == ParentOf(Up(Hanging(shape, root.agencyId, now)), n.agentId)
    ensures ParentOf(Up(Hanging(shape, root.agencyId, now)), root.owner.agentId).None?
  {
    HangingDistinct(rows, root, now, shape);
    AllNodesDistinct(rows, root, now, shape);
    RowOfNode(AllNodes(root, now, shape), result, i, n);
    NodeAbove(Hanging(shape, root.agencyId, now), n);
  }
}
