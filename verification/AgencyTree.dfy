/**
 The roster listing (`getAgencyTreeForAgent`, lib/agency-tree.ts): nodes of the
 admitted agencies and their members, grouped under their normalized parents,
 siblings sorted, listed depth-first from the requesting owner.
 */
module AgencyTree {
  import opened Wrappers
  import opened Hierarchy
  import opened ParentGraph
  import opened Tables
  import opened Walk
  import opened AgencyAdmission
  import opened AgencyRoster

  datatype Kind = IsSelf | IsAgent | IsAgency

  datatype Node = Node(
    agentId: Id, name: string, parentAgentId: Option<Id>, kind: Kind, agencyId: Id, agencyName: string,
    subscriptionStatus: Shown, recruitmentStage: Option<Stage>, sortAt: Time, sortId: Id)

  // ---------- nodes ----------

  function RootNode(root: ActiveAgency): Node {
    var o := root.owner;
    Node(o.agentId, o.name, None, IsSelf, root.agencyId, root.agencyName, o.subscriptionStatus, o.stage, o.joinedAt,
      o.membershipId)
  }

  // A sub-agency hangs below whoever invited it in the immediate parent agency,
  // or below that agency's owner.
  function AgencyParent(shape: Shape, a: ActiveAgency): Option<Id> {
    if a.parentAgencyId.None? || Find(shape.agencies, a.parentAgencyId.value).None? then None
    else
      var requested := Or(a.owner.parentAgentId, a.owner.invitedByAgentId);
      if requested.Some? && BelongsTo(shape.affiliation, requested.value, a.parentAgencyId.value) then requested
      else Some(OwnerOf(shape.agencies, a.parentAgencyId.value))
  }

  function AgencyNode(shape: Shape, a: ActiveAgency): Node {
    var o := a.owner;
    Node(o.agentId, o.name, AgencyParent(shape, a), IsAgency, a.agencyId, a.agencyName, o.subscriptionStatus, o.stage,
      o.joinedAt, o.membershipId)
  }

  function MemberNode(shape: Shape, agency: ActiveAgency, m: MemberRow, now: Time): Node {
    Node(m.agentId, m.name, Or(ParentOf(shape.normalized, m.agentId), Some(agency.owner.agentId)), IsAgent,
         agency.agencyId, agency.agencyName, LatestStatus(m.subscription, now),
         if m.invitation.Some? then Some(m.invitation.value.stage) else None, m.joinedAt, m.membershipId)
  }

  // The nodes handed to `addChild`: every agency but the root, then every member.
  function AgencyNodes(shape: Shape, agencies: seq<ActiveAgency>, rootId: Id): seq<Node> {
    if agencies == [] then []
    else
      var nodes, a := AgencyNodes(shape, agencies[..|agencies| - 1], rootId), agencies[|agencies| - 1];
      if a.agencyId == rootId || AgencyParent(shape, a).None? then nodes else nodes + [AgencyNode(shape, a)]
  }

  function MemberNodes(shape: Shape, members: seq<MemberRow>, now: Time): seq<Node> {
    if members == [] then []
    else
      var nodes, m := MemberNodes(shape, members[..|members| - 1], now), members[|members| - 1];
      match Find(shape.agencies, m.agencyId)
      case None => nodes
      case Some(agency) => nodes + [MemberNode(shape, agency, m, now)]
  }

  function Hanging(shape: Shape, rootId: Id, now: Time): seq<Node> {
    AgencyNodes(shape, shape.agencies, rootId) + MemberNodes(shape, shape.members, now)
  }

  // ---------- grouping and sorting ----------

  function Siblings(children: map<Id, seq<Node>>, p: Id): seq<Node> {
    if p in children then children[p] else []
  }

  function Grouped(nodes: seq<Node>): map<Id, seq<Node>> {
    if nodes == [] then map[]
    else
      var grouped, last := Grouped(nodes[..|nodes| - 1]), nodes[|nodes| - 1];
      if last.parentAgentId.None? then grouped
      else grouped[last.parentAgentId.value := Siblings(grouped, last.parentAgentId.value) + [last]]
  }

  method AddChild(children: map<Id, seq<Node>>, child: Node, ghost nodes: seq<Node>) returns (next: map<Id, seq<Node>>)
    requires children == Grouped(nodes)
    ensures next == Grouped(nodes + [child])
  {
    assert (nodes + [child])[..|nodes|] == nodes;
    next := children;
    if child.parentAgentId.Some? {
      next := children[child.parentAgentId.value := Siblings(children, child.parentAgentId.value) + [child]];
    }
  }

  lemma AppendAgency(shape: Shape, k: int, rootId: Id)
    requires 0 <= k < |shape.agencies|
    ensures
      var a, before := shape.agencies[k], AgencyNodes(shape, shape.agencies[..k], rootId);
      AgencyNodes(shape, shape.agencies[..k + 1], rootId) ==
        if a.agencyId == rootId || AgencyParent(shape, a).None? then before else before + [AgencyNode(shape, a)]
  {
    assert shape.agencies[..k + 1][..k] == shape.agencies[..k];
  }

  method GroupAgencies(shape: Shape, rootId: Id) returns (children: map<Id, seq<Node>>)
    ensures children == Grouped(AgencyNodes(shape, shape.agencies, rootId))
  {
    children := map[];
    ghost var nodes: seq<Node> := [];
    for k := 0 to |shape.agencies|
      invariant children == Grouped(nodes) && nodes == AgencyNodes(shape, shape.agencies[..k], rootId)
    {
      var a := shape.agencies[k];
      AppendAgency(shape, k, rootId);
      var parent := AgencyParent(shape, a);
      if a.agencyId != rootId && parent.Some? {
        var child := AgencyNode(shape, a);
        children := AddChild(children, child, nodes);
        nodes := nodes + [child];
      }
    }
    assert shape.agencies[..|shape.agencies|] == shape.agencies;
  }

  lemma AppendMember(shape: Shape, owners: seq<Node>, i: int, now: Time)
    requires 0 <= i < |shape.members|
    ensures
      var m, before := shape.members[i], owners + MemberNodes(shape, shape.members[..i], now);
      owners + MemberNodes(shape, shape.members[..i + 1], now) ==
        match Find(shape.agencies, m.agencyId)
        case None => before
        case Some(agency) => before + [MemberNode(shape, agency, m, now)]
  {
    assert shape.members[..i + 1][..i] == shape.members[..i];
  }

  method GroupChildren(shape: Shape, rootId: Id, now: Time) returns (children: map<Id, seq<Node>>)
    ensures children == Grouped(Hanging(shape, rootId, now))
  {
    children := GroupAgencies(shape, rootId);
    ghost var owners := AgencyNodes(shape, shape.agencies, rootId);
    ghost var nodes := owners;
    assert owners + MemberNodes(shape, [], now) == owners;
    for i := 0 to |shape.members|
      invariant children == Grouped(nodes) && nodes == owners + MemberNodes(shape, shape.members[..i], now)
    {
      var m := shape.members[i];
      AppendMember(shape, owners, i, now);
      var agency := Find(shape.agencies, m.agencyId);
      if agency.Some? {
        var child := MemberNode(shape, agency.value, m, now);
        children := AddChild(children, child, nodes);
        nodes := nodes + [child];
      }
    }
    assert shape.members[..|shape.members|] == shape.members;
  }

  function Compare(left: Node, right: Node): int {
    if left.sortAt != right.sortAt then left.sortAt - right.sortAt else left.sortId - right.sortId
  }

  // `children.sort(compareOrderedNodes)`: a stable sort.
  function InsertNode(sorted: seq<Node>, n: Node): (r: seq<Node>)
    ensures multiset(r) == multiset(sorted) + multiset{n}
  {
    if sorted == [] then [n]
    else
      var init, last := sorted[..|sorted| - 1], sorted[|sorted| - 1];
      assert sorted == init + [last];
      if Compare(last, n) <= 0 then sorted + [n] else InsertNode(init, n) + [last]
  }

  function SortNodes(nodes: seq<Node>): (r: seq<Node>)
    ensures multiset(r) == multiset(nodes)
  {
    if nodes == [] then []
    else
      assert nodes == nodes[..|nodes| - 1] + [nodes[|nodes| - 1]];
      InsertNode(SortNodes(nodes[..|nodes| - 1]), nodes[|nodes| - 1])
  }

  // Earlier first, the smaller id at the same time.
  ghost predicate InSiblingOrder(nodes: seq<Node>) {
    forall i, j :: 0 <= i < j < |nodes| ==>
      nodes[i].sortAt < nodes[j].sortAt
        || (nodes[i].sortAt == nodes[j].sortAt && nodes[i].sortId <= nodes[j].sortId)
  }

  lemma {:induction false} InsertKeepsOrder(sorted: seq<Node>, n: Node)
    requires InSiblingOrder(sorted)
    ensures InSiblingOrder(InsertNode(sorted, n))
  {
    if sorted != [] && Compare(sorted[|sorted| - 1], n) > 0 {
      var init, last := sorted[..|sorted| - 1], sorted[|sorted| - 1];
      InsertKeepsOrder(init, n);
      var r := InsertNode(init, n);
      forall i | 0 <= i < |r|
        ensures r[i].sortAt < last.sortAt || (r[i].sortAt == last.sortAt && r[i].sortId <= last.sortId)
      {
        assert r[i] in multiset(r);
        assert r[i] == n || r[i] in init;
      }
    }
  }

  lemma {:induction false} SortNodesSorts(nodes: seq<Node>)
    ensures InSiblingOrder(SortNodes(nodes))
  {
    if nodes != [] {
      SortNodesSorts(nodes[..|nodes| - 1]);
      InsertKeepsOrder(SortNodes(nodes[..|nodes| - 1]), nodes[|nodes| - 1]);
    }
  }

  ghost predicate AreSorted(children: map<Id, seq<Node>>, sorted: map<Id, seq<Node>>) {
    && sorted.Keys == children.Keys
    && forall p :: p in children ==> sorted[p] == SortNodes(children[p])
  }

  method SortChildren(children: map<Id, seq<Node>>) returns (sorted: map<Id, seq<Node>>)
    ensures AreSorted(children, sorted)
  {
    sorted := children;
    var rest := children.Keys;
    while rest != {}
      invariant rest <= children.Keys && sorted.Keys == children.Keys
      invariant forall p :: p in children ==> sorted[p] == if p in rest then children[p] else SortNodes(children[p])
      decreases rest
    {
      var next := First(rest);
      var p := next.value;
      sorted, rest := sorted[p := SortNodes(sorted[p])], rest - {p};
    }
  }

  function NodeIds(nodes: seq<Node>): seq<Id> {
    seq(|nodes|, i requires 0 <= i < |nodes| => nodes[i].agentId)
  }

  function ChildIdMap(children: map<Id, seq<Node>>): ChildMap {
    map p | p in children :: NodeIds(children[p])
  }

  // ---------- the nodes form a tree ----------

  ghost predicate DistinctNodes(nodes: seq<Node>) {
    forall i, j :: 0 <= i < j < |nodes| ==> nodes[i].agentId != nodes[j].agentId
  }

  function NodeSet(nodes: seq<Node>): set<Id> {
    set n | n in nodes :: n.agentId
  }

  lemma DistinctNodesConcat(a: seq<Node>, b: seq<Node>)
    requires DistinctNodes(a) && DistinctNodes(b) && NodeSet(a) !! NodeSet(b)
    ensures DistinctNodes(a + b) && NodeSet(a + b) == NodeSet(a) + NodeSet(b)
  {
    assert forall n :: n in a + b <==> n in a || n in b;
    forall i, j | 0 <= i < |a| <= j < |a + b|
      ensures (a + b)[i].agentId != (a + b)[j].agentId
    {
      assert a[i] in a && b[j - |a|] in b;
      assert a[i].agentId in NodeSet(a) && b[j - |a|].agentId in NodeSet(b);
    }
  }

  // `parentAgentId` of every node.
  function Up(nodes: seq<Node>): ParentsMap {
    if nodes == [] then map[]
    else Up(nodes[..|nodes| - 1])[nodes[|nodes| - 1].agentId := nodes[|nodes| - 1].parentAgentId]
  }

  lemma {:induction false} UpIsParent(nodes: seq<Node>, i: int)
    requires DistinctNodes(nodes) && 0 <= i < |nodes|
    ensures ParentOf(Up(nodes), nodes[i].agentId) == nodes[i].parentAgentId
  {
    if i < |nodes| - 1 {
      UpIsParent(nodes[..|nodes| - 1], i);
    }
  }

  lemma {:induction false} UpKeys(nodes: seq<Node>)
    ensures Up(nodes).Keys == NodeSet(nodes)
  {
    if nodes != [] {
      UpKeys(nodes[..|nodes| - 1]);
      assert nodes == nodes[..|nodes| - 1] + [nodes[|nodes| - 1]];
    }
  }

  // ---------- child lists ----------

  function ChildNodes(nodes: seq<Node>, p: Id): seq<Node> {
    if nodes == [] then []
    else
      var last := nodes[|nodes| - 1];
      ChildNodes(nodes[..|nodes| - 1], p) + (if last.parentAgentId == Some(p) then [last] else [])
  }

  lemma {:induction false} GroupedIsChildNodes(nodes: seq<Node>, p: Id)
    ensures Siblings(Grouped(nodes), p) == ChildNodes(nodes, p)
  {
    if nodes != [] {
      GroupedIsChildNodes(nodes[..|nodes| - 1], p);
    }
  }

  lemma {:induction false} ChildNodesAre(nodes: seq<Node>, p: Id)
    ensures forall n :: n in ChildNodes(nodes, p) <==> n in nodes && n.parentAgentId == Some(p)
    ensures DistinctNodes(nodes) ==> DistinctNodes(ChildNodes(nodes, p))
  {
    if nodes != [] {
      var init, last := nodes[..|nodes| - 1], nodes[|nodes| - 1];
      assert nodes == init + [last];
      ChildNodesAre(init, p);
      var before := ChildNodes(init, p);
      assert forall i :: 0 <= i < |before| ==> before[i] in before;
    }
  }

  lemma {:induction false} InsertKeepsDistinct(sorted: seq<Node>, n: Node)
    requires DistinctNodes(sorted) && forall i :: 0 <= i < |sorted| ==> sorted[i].agentId != n.agentId
    ensures DistinctNodes(InsertNode(sorted, n))
  {
    if sorted != [] && Compare(sorted[|sorted| - 1], n) > 0 {
      var init, last := sorted[..|sorted| - 1], sorted[|sorted| - 1];
      InsertKeepsDistinct(init, n);
      var r := InsertNode(init, n);
      forall i | 0 <= i < |r|
        ensures r[i].agentId != last.agentId
      {
        assert r[i] in multiset(r);
        assert r[i] == n || r[i] in init;
      }
    }
  }

  lemma {:induction false} SortKeepsDistinct(nodes: seq<Node>)
    requires DistinctNodes(nodes)
    ensures DistinctNodes(SortNodes(nodes))
  {
    if nodes != [] {
      var init, last := nodes[..|nodes| - 1], nodes[|nodes| - 1];
      SortKeepsDistinct(init);
      var sorted := SortNodes(init);
      forall i | 0 <= i < |sorted|
        ensures sorted[i].agentId != last.agentId
      {
        assert sorted[i] in multiset(sorted);
        assert sorted[i] in init;
      }
      InsertKeepsDistinct(sorted, last);
    }
  }

  // The children of p, in sibling order.
  lemma ChildListIs(nodes: seq<Node>, sorted: map<Id, seq<Node>>, p: Id)
    requires DistinctNodes(nodes) && AreSorted(Grouped(nodes), sorted)
    ensures Lookup(ChildIdMap(sorted), p) == NodeIds(SortNodes(ChildNodes(nodes, p)))
    ensures InSiblingOrder(SortNodes(ChildNodes(nodes, p)))
  {
    GroupedIsChildNodes(nodes, p);
    SortNodesSorts(ChildNodes(nodes, p));
  }

  lemma NodeAbove(nodes: seq<Node>, n: Node)
    requires DistinctNodes(nodes) && n in nodes
    ensures ParentOf(Up(nodes), n.agentId) == n.parentAgentId
  {
  }

  lemma ChildListEdge(nodes: seq<Node>, list: seq<Node>, p: Id, x: Id)
    requires DistinctNodes(nodes) && multiset(list) == multiset(ChildNodes(nodes, p))
    ensures x in NodeIds(list) <==> ParentOf(Up(nodes), x) == Some(p)
  {
    ChildNodesAre(nodes, p);
    UpKeys(nodes);
    if x in NodeIds(list) {
      var i :| 0 <= i < |list| && NodeIds(list)[i] == x;
      assert list[i] in multiset(list);
      NodeAbove(nodes, list[i]);
    }
    if ParentOf(Up(nodes), x) == Some(p) {
      var n :| n in nodes && n.agentId == x;
      NodeAbove(nodes, n);
      assert n in multiset(list);
      var i :| 0 <= i < |list| && list[i] == n;
      assert NodeIds(list)[i] == x;
    }
  }

  lemma ChildListEdges(nodes: seq<Node>, sorted: map<Id, seq<Node>>, p: Id)
    requires DistinctNodes(nodes) && AreSorted(Grouped(nodes), sorted)
    ensures forall x :: x in Lookup(ChildIdMap(sorted), p) <==> ParentOf(Up(nodes), x) == Some(p)
    ensures Distinct(Lookup(ChildIdMap(sorted), p))
  {
    var list := SortNodes(ChildNodes(nodes, p));
    ChildListIs(nodes, sorted, p);
    ChildNodesAre(nodes, p);
    SortKeepsDistinct(ChildNodes(nodes, p));
    forall x
      ensures x in NodeIds(list) <==> ParentOf(Up(nodes), x) == Some(p)
    {
      ChildListEdge(nodes, list, p, x);
    }
  }

  // ---------- walking a tree ----------

  // The listing of a tree: everybody once, each below their parent's row, each
  // subtree in one block.
  ghost predicate IsTreeListing(up: ParentsMap, all: set<Id>, root: Id, entries: seq<Entry>) {
    && DistinctIds(entries) && EntryIds(entries) == all && entries != [] && entries[0] == Entry(root, 0)
    && (forall k :: 1 <= k < |entries| ==> FollowsParent(up, entries, k))
    && (forall i, k :: 0 <= i < |entries| && 0 <= k < |entries| ==> BlockIsSubtree(up, entries, i, k))
  }

  // Row k lies in the block under row i exactly when its agent is at or below i's.
  ghost predicate BlockIsSubtree(up: ParentsMap, entries: seq<Entry>, i: int, k: int)
    requires 0 <= i < |entries| && 0 <= k < |entries|
  {
    i <= k && InBlock(entries, i, k) <==> AtOrAbove(up, entries[i].id, entries[k].id)
  }

  ghost predicate FollowsParent(up: ParentsMap, entries: seq<Entry>, k: int)
    requires 0 <= k < |entries|
  {
    exists j ::
      0 <= j < k && ParentOf(up, entries[k].id) == Some(entries[j].id) && entries[j].depth + 1 == entries[k].depth
  }

  ghost predicate SameEdges(ch: ChildMap, up: ParentsMap) {
    forall p, x :: x in Lookup(ch, p) <==> ParentOf(up, x) == Some(p)
  }

  lemma {:induction false} BelowIsClimb(ch: ChildMap, up: ParentsMap, a: Id, b: Id, n: nat)
    requires SameEdges(ch, up)
    ensures Below(ch, a, b, n) <==> UpN(up, b, n) == Some(a)
    decreases n
  {
    if n > 0 {
      if ParentOf(up, b).Some? {
        BelowIsClimb(ch, up, a, ParentOf(up, b).value, n - 1);
        assert b in Lookup(ch, ParentOf(up, b).value);
      }
      if Below(ch, a, b, n) {
        var p :| Below(ch, a, p, n - 1) && b in Lookup(ch, p);
        assert ParentOf(up, b) == Some(p);
      }
    }
  }

  lemma {:induction false} ReachedIsListed(ch: ChildMap, up: ParentsMap, all: set<Id>, ids: set<Id>, root: Id, x: Id,
                                           n: nat)
    requires SameEdges(ch, up) && ClosedIn(ch, all, ids) && root in ids && up.Keys <= all
    requires UpN(up, x, n) == Some(root)
    ensures x in ids
    decreases n
  {
    if n > 0 {
      var p := ParentOf(up, x).value;
      ReachedIsListed(ch, up, all, ids, root, p, n - 1);
      assert x in Lookup(ch, p) && x in up.Keys;
    }
  }

  ghost predicate RootedTree(ch: ChildMap, up: ParentsMap, all: set<Id>, root: Id) {
    && SameEdges(ch, up) && (forall p :: Distinct(Lookup(ch, p)))
    && up.Keys <= all && root in all && ParentOf(up, root).None?
    && (forall x :: x in all ==> AtOrAbove(up, root, x))
  }

  lemma ListingCovers(ch: ChildMap, up: ParentsMap, all: set<Id>, root: Id)
    requires RootedTree(ch, up, all, root)
    ensures
      var entries := VisitOne(ch, all, root, 0);
      DistinctIds(entries) && EntryIds(entries) == all && entries != [] && entries[0] == Entry(root, 0)
  {
    var entries := VisitOne(ch, all, root, 0);
    VisitOneDistinct(ch, all, root, 0);
    VisitOneCloses(ch, all, root, 0);
    forall x | x in all
      ensures x in EntryIds(entries)
    {
      var n: nat :| UpN(up, x, n) == Some(root);
      ReachedIsListed(ch, up, all, EntryIds(entries), root, x, n);
    }
  }

  lemma ListingNests(ch: ChildMap, up: ParentsMap, all: set<Id>, root: Id, k: int)
    requires RootedTree(ch, up, all, root) && 1 <= k < |VisitOne(ch, all, root, 0)|
    ensures FollowsParent(up, VisitOne(ch, all, root, 0), k)
  {
    var entries := VisitOne(ch, all, root, 0);
    ListingCovers(ch, up, all, root);
    VisitOneNested(ch, all, root, 0);
    assert RowNested(ch, entries, 0, [root], k);
    assert entries[k].id != entries[0].id;
    var j :| 0 <= j < k && ParentRow(ch, entries, j, k);
  }

  lemma TreeHasSingleParents(ch: ChildMap, up: ParentsMap, all: set<Id>, root: Id)
    requires RootedTree(ch, up, all, root)
    ensures SingleParent(ch) && Walk.Pending(ch, all, [root])
    ensures forall p :: root !in Lookup(ch, p)
  {
    forall p, q, x | x in Lookup(ch, p) && x in Lookup(ch, q)
      ensures p == q
    {
      assert ParentOf(up, x) == Some(p) && ParentOf(up, x) == Some(q);
    }
    forall y, z | z in Lookup(ch, y)
      ensures z in all && z != root
    {
      assert ParentOf(up, z) == Some(y);
      assert z in up.Keys;
    }
  }

  lemma ListingBlocks(ch: ChildMap, up: ParentsMap, root: Id, entries: seq<Entry>, i: int, k: int)
    requires SameEdges(ch, up) && SingleParent(ch) && (forall p :: root !in Lookup(ch, p))
    requires DistinctIds(entries) && Nested(ch, entries, 0, [root])
    requires 0 <= i < |entries| && 0 <= k < |entries|
    ensures BlockIsSubtree(up, entries, i, k)
  {
    if i <= k && InBlock(entries, i, k) {
      BlockIsBelow(ch, entries, 0, [root], i, k);
      assert RowNested(ch, entries, 0, [root], k) && RowNested(ch, entries, 0, [root], i);
      BelowIsClimb(ch, up, entries[i].id, entries[k].id, entries[k].depth - entries[i].depth);
    }
    if n: nat :| UpN(up, entries[k].id, n) == Some(entries[i].id) {
      BelowIsClimb(ch, up, entries[i].id, entries[k].id, n);
      BelowIsInBlock(ch, entries, 0, [root], i, k, n);
    }
  }

  lemma WalkListsTree(ch: ChildMap, up: ParentsMap, all: set<Id>, root: Id)
    requires RootedTree(ch, up, all, root)
    ensures IsTreeListing(up, all, root, VisitOne(ch, all, root, 0))
  {
    var entries := VisitOne(ch, all, root, 0);
    ListingCovers(ch, up, all, root);
    forall k | 1 <= k < |entries|
      ensures FollowsParent(up, entries, k)
    {
      ListingNests(ch, up, all, root, k);
    }
    TreeHasSingleParents(ch, up, all, root);
    VisitOneNested(ch, all, root, 0);
    forall i, k | 0 <= i < |entries| && 0 <= k < |entries|
      ensures BlockIsSubtree(up, entries, i, k)
    {
      ListingBlocks(ch, up, root, entries, i, k);
    }
  }

  // The walk never needs its visited set here: it is the plain pre-order.
  lemma WalkIsPreorder(ch: ChildMap, up: ParentsMap, all: set<Id>, root: Id)
    requires RootedTree(ch, up, all, root)
    ensures VisitOne(ch, all, root, 0) == Preorder(ch, [root], 0, |all|)
  {
    TreeHasSingleParents(ch, up, all, root);
    var block := VisitOne(ch, all, root, 0);
    assert VisitAll(ch, all, [root], 0) == block + VisitAll(ch, all - EntryIds(block), [], 0);
    TreeWalkIsPreorder(ch, all, [root], 0, |all|);
  }

  // ---------- the roster's parents ----------

  ghost predicate RosterShape(rows: seq<AgencyRow>, root: ActiveAgency, now: Time, shape: Shape) {
    IsAdmission(rows, root, now, shape.agencies) && WellShaped(shape)
  }

  // The parent of a shown sub-agency was shown before it; the owner's row hangs
  // below someone of exactly that agency.
  lemma AgencyParentIs(rows: seq<AgencyRow>, root: ActiveAgency, now: Time, shape: Shape, k: int) returns (j: int)
    requires RosterShape(rows, root, now, shape) && 1 <= k < |shape.agencies|
    ensures 0 <= j < k && shape.agencies[k].parentAgencyId == Some(shape.agencies[j].agencyId)
    ensures AgencyParent(shape, shape.agencies[k]).Some?
    ensures BelongsTo(shape.affiliation, AgencyParent(shape, shape.agencies[k]).value, shape.agencies[j].agencyId)
  {
    assert Sourced(rows, now, shape.agencies, k);
    var i, r :| AdmittedFrom(rows, now, shape.agencies, k, i, r);
    j := i;
  }

  predicate IsMemberNode(shape: Shape, m: MemberRow, n: Node) {
    n.agentId == m.agentId && n.agencyId == m.agencyId && n.kind == IsAgent
      && (ParentOf(shape.normalized, m.agentId).Some? ==> n.parentAgentId == ParentOf(shape.normalized, m.agentId))
  }

  // One node for each agency but the root, in admission order.
  ghost predicate AreAgencyNodes(shape: Shape, nodes: seq<Node>, n: int)
    requires 1 <= n <= |shape.agencies|
  {
    |nodes| == n - 1 && forall j :: 0 <= j < n - 1 ==> nodes[j] == AgencyNode(shape, shape.agencies[j + 1])
  }

  // One node for each member, in row order.
  ghost predicate AreMemberNodes(shape: Shape, nodes: seq<Node>, n: int)
    requires 0 <= n <= |shape.members|
  {
    |nodes| == n && forall i :: 0 <= i < n ==> IsMemberNode(shape, shape.members[i], nodes[i])
  }

  // Every agency but the first hangs somewhere.
  ghost predicate AllHang(shape: Shape, rootId: Id) {
    && shape.agencies != [] && shape.agencies[0].agencyId == rootId
    && forall k :: 1 <= k < |shape.agencies| ==>
      shape.agencies[k].agencyId != rootId && AgencyParent(shape, shape.agencies[k]).Some?
  }

  lemma ShapeHangs(rows: seq<AgencyRow>, root: ActiveAgency, now: Time, shape: Shape)
    requires RosterShape(rows, root, now, shape)
    ensures AllHang(shape, root.agencyId)
  {
    forall k | 1 <= k < |shape.agencies|
      ensures AgencyParent(shape, shape.agencies[k]).Some?
    {
      var j := AgencyParentIs(rows, root, now, shape, k);
    }
  }

  lemma {:induction false} AgencyNodesAre(shape: Shape, rootId: Id, n: int)
    requires AllHang(shape, rootId) && 1 <= n <= |shape.agencies|
    ensures AreAgencyNodes(shape, AgencyNodes(shape, shape.agencies[..n], rootId), n)
  {
    AppendAgency(shape, n - 1, rootId);
    if n > 1 {
      AgencyNodesAre(shape, rootId, n - 1);
    }
  }

  lemma {:induction false} MemberNodesAre(shape: Shape, n: int, now: Time)
    requires OneRowEach(shape.agencies, shape.members) && 0 <= n <= |shape.members|
    ensures AreMemberNodes(shape, MemberNodes(shape, shape.members[..n], now), n)
  {
    if n > 0 {
      MemberNodesAre(shape, n - 1, now);
      assert shape.members[..n][..n - 1] == shape.members[..n - 1];
      assert Eligible(shape.members[n - 1], shape.agencies);
    }
  }

  lemma MembersDistinct(shape: Shape, nodes: seq<Node>)
    requires DistinctMembers(shape.members) && AreMemberNodes(shape, nodes, |shape.members|)
    ensures DistinctNodes(nodes) && NodeSet(nodes) <= AgentIds(shape.members)
  {
  }

  ghost predicate AreNodes(shape: Shape, owners: seq<Node>, people: seq<Node>) {
    && shape.agencies != [] && AreAgencyNodes(shape, owners, |shape.agencies|)
    && AreMemberNodes(shape, people, |shape.members|)
  }

  lemma AllAgencyNodes(rows: seq<AgencyRow>, root: ActiveAgency, now: Time, shape: Shape)
    requires RosterShape(rows, root, now, shape)
    ensures AreAgencyNodes(shape, AgencyNodes(shape, shape.agencies, root.agencyId), |shape.agencies|)
  {
    ShapeHangs(rows, root, now, shape);
    AgencyNodesAre(shape, root.agencyId, |shape.agencies|);
    assert shape.agencies[..|shape.agencies|] == shape.agencies;
  }

  lemma AllMemberNodes(shape: Shape, now: Time)
    requires OneRowEach(shape.agencies, shape.members)
    ensures AreMemberNodes(shape, MemberNodes(shape, shape.members, now), |shape.members|)
  {
    MemberNodesAre(shape, |shape.members|, now);
    assert shape.members[..|shape.members|] == shape.members;
  }

  lemma HangingIs(rows: seq<AgencyRow>, root: ActiveAgency, now: Time, shape: Shape)
    requires RosterShape(rows, root, now, shape)
    ensures AreNodes(shape, AgencyNodes(shape, shape.agencies, root.agencyId), MemberNodes(shape, shape.members, now))
  {
    AllAgencyNodes(rows, root, now, shape);
    AllMemberNodes(shape, now);
  }

  lemma NodesDistinct(shape: Shape, owners: seq<Node>, people: seq<Node>)
    requires OneRowEach(shape.agencies, shape.members) && AreNodes(shape, owners, people)
    ensures DistinctNodes(owners + people)
    ensures NodeSet(owners + people) <= Owners(shape.agencies)
        + AgentIds(shape.members) - {shape.agencies[0].owner.agentId}
  {
    MembersDistinct(shape, people);
    DistinctNodesConcat(owners, people);
    assert shape.agencies[0] in shape.agencies && shape.agencies[0].owner.agentId in Owners(shape.agencies);
  }

  // The parent map of the roster: normalized for members, the parent agency's
  // person for sub-agency owners, nobody for the root.
  ghost predicate IsRosterParents(shape: Shape, up: ParentsMap) {
    && (forall k :: 1 <= k < |shape.agencies| ==>
      ParentOf(up, shape.agencies[k].owner.agentId) == AgencyParent(shape, shape.agencies[k]))
    && (forall i :: 0 <= i < |shape.members| ==>
      ParentOf(up, shape.members[i].agentId) == ParentOf(shape.normalized, shape.members[i].agentId))
    && (shape.agencies != [] ==> shape.agencies[0].owner.agentId !in up)
    && up.Keys <= Owners(shape.agencies) + AgentIds(shape.members)
  }

  lemma UpIsRosterParents(shape: Shape, owners: seq<Node>, people: seq<Node>)
    requires OneRowEach(shape.agencies, shape.members) && AreNodes(shape, owners, people)
    requires forall i :: 0 <= i < |shape.members| ==> ParentOf(shape.normalized, shape.members[i].agentId).Some?
    ensures IsRosterParents(shape, Up(owners + people))
  {
    NodesDistinct(shape, owners, people);
    UpKeys(owners + people);
    forall k | 1 <= k < |shape.agencies|
      ensures ParentOf(Up(owners + people), shape.agencies[k].owner.agentId) == AgencyParent(shape, shape.agencies[k])
    {
      assert owners[k - 1] in owners + people;
      NodeAbove(owners + people, owners[k - 1]);
    }
    forall i | 0 <= i < |shape.members|
      ensures ParentOf(Up(owners + people), shape.members[i].agentId)
          == ParentOf(shape.normalized, shape.members[i].agentId)
    {
      assert people[i] in owners + people && IsMemberNode(shape, shape.members[i], people[i]);
      NodeAbove(owners + people, people[i]);
    }
  }

  lemma MembersClimbToOwner(shape: Shape, up: ParentsMap, x: Id)
    requires WellShaped(shape) && IsRosterParents(shape, up) && x in AgentIds(shape.members)
    ensures x in shape.affiliation && Find(shape.agencies, shape.affiliation[x]).Some?
    ensures AtOrAbove(up, OwnerAbove(shape, x), x)
  {
    NormalizedReachesOwner(shape, x);
    forall y | ParentOf(shape.normalized, y).Some?
      ensures ParentOf(up, y) == ParentOf(shape.normalized, y)
    {
      var i := MemberOf(shape.members, y);
    }
    ExtendsKeepsAbove(shape.normalized, up, OwnerAbove(shape, x), x);
  }

  lemma OwnerAt(shape: Shape, j: int)
    requires WellShaped(shape) && 0 <= j < |shape.agencies|
    ensures Find(shape.agencies, shape.agencies[j].agencyId) == Some(shape.agencies[j])
  {
    var k := AgencyAt(shape.agencies, shape.agencies[j].agencyId);
  }

  // Somebody who is no member and belongs to agency j owns it.
  lemma OwnerAlone(shape: Shape, x: Id, j: int)
    requires WellShaped(shape) && 0 <= j < |shape.agencies| && x !in AgentIds(shape.members)
    requires BelongsTo(shape.affiliation, x, shape.agencies[j].agencyId)
    ensures x == shape.agencies[j].owner.agentId
  {
    var a :| a in shape.agencies && a.owner.agentId == x;
    var k :| 0 <= k < |shape.agencies| && shape.agencies[k] == a;
    assert k == j;
  }

  lemma PersonClimbsToOwner(shape: Shape, up: ParentsMap, x: Id, j: int)
    requires WellShaped(shape) && IsRosterParents(shape, up) && 0 <= j < |shape.agencies|
    requires BelongsTo(shape.affiliation, x, shape.agencies[j].agencyId)
    ensures AtOrAbove(up, shape.agencies[j].owner.agentId, x)
  {
    if x in AgentIds(shape.members) {
      MembersClimbToOwner(shape, up, x);
      OwnerAt(shape, j);
    } else {
      OwnerAlone(shape, x, j);
      assert UpN(up, x, 0) == Some(x);
    }
  }

  // The owner of a sub-agency sits below the owner of its parent agency.
  lemma OwnerUnderParentOwner(rows: seq<AgencyRow>, root: ActiveAgency, now: Time, shape: Shape, up: ParentsMap, k: int)
    returns (j: int)
    requires RosterShape(rows, root, now, shape) && IsRosterParents(shape, up) && 1 <= k < |shape.agencies|
    ensures 0 <= j < k && shape.agencies[k].parentAgencyId == Some(shape.agencies[j].agencyId)
    ensures AtOrAbove(up, shape.agencies[j].owner.agentId, shape.agencies[k].owner.agentId)
  {
    j := AgencyParentIs(rows, root, now, shape, k);
    var x, p := shape.agencies[k].owner.agentId, AgencyParent(shape, shape.agencies[k]).value;
    assert UpN(up, x, 1) == Some(p);
    PersonClimbsToOwner(shape, up, p, j);
    AboveTransitive(up, shape.agencies[j].owner.agentId, p, x);
  }

  lemma {:induction false} OwnersClimbToRoot(rows: seq<AgencyRow>, root: ActiveAgency, now: Time, shape: Shape,
                                             up: ParentsMap, k: int)
    requires RosterShape(rows, root, now, shape) && IsRosterParents(shape, up) && 0 <= k < |shape.agencies|
    ensures AtOrAbove(up, root.owner.agentId, shape.agencies[k].owner.agentId)
    decreases k
  {
    var x := shape.agencies[k].owner.agentId;
    if k == 0 {
      assert UpN(up, x, 0) == Some(x);
    } else {
      var j := OwnerUnderParentOwner(rows, root, now, shape, up, k);
      OwnersClimbToRoot(rows, root, now, shape, up, j);
      AboveTransitive(up, root.owner.agentId, shape.agencies[j].owner.agentId, x);
    }
  }

  // Everybody on the roster climbs to the requesting owner.
  lemma EverybodyClimbsToRoot(rows: seq<AgencyRow>, root: ActiveAgency, now: Time, shape: Shape, up: ParentsMap, x: Id)
    requires RosterShape(rows, root, now, shape) && IsRosterParents(shape, up)
    requires x in Owners(shape.agencies) + AgentIds(shape.members)
    ensures AtOrAbove(up, root.owner.agentId, x)
  {
    if x in AgentIds(shape.members) {
      MembersClimbToOwner(shape, up, x);
      var k := AgencyAt(shape.agencies, shape.affiliation[x]);
      OwnersClimbToRoot(rows, root, now, shape, up, k);
      AboveTransitive(up, root.owner.agentId, OwnerAbove(shape, x), x);
    } else {
      var a :| a in shape.agencies && a.owner.agentId == x;
      var k :| 0 <= k < |shape.agencies| && shape.agencies[k] == a;
      OwnersClimbToRoot(rows, root, now, shape, up, k);
    }
  }

  // ---------- the result ----------

  datatype RootRow = RootRow(
    membershipId: Id, agentId: Id, name: string, parentAgentId: Option<Id>, invitedByAgentId: Option<Id>,
      joinedAt: Time,
    agencyId: Id, agencyName: string, currentPlan: Option<Status>)

  datatype Row = Row(
    agentId: Id, name: string, parentAgentId: Option<Id>, depth: nat, kind: Kind, agencyId: Id, agencyName: string,
    subscriptionStatus: Shown, recruitmentStage: Option<Stage>)

  function RootAgency(root: RootRow): ActiveAgency
    requires root.currentPlan.Some?
  {
    ActiveAgency(root.agencyId, root.agencyName, None, 0,
                 ActiveOwner(root.membershipId, root.agentId, root.name, root.parentAgentId, root.invitedByAgentId,
                   root.joinedAt,
                             WithStatus(root.currentPlan.value), None))
  }

  function RowOf(n: Node, depth: nat): Row {
    Row(n.agentId, n.name, n.parentAgentId, depth, n.kind, n.agencyId, n.agencyName, n.subscriptionStatus,
      n.recruitmentStage)
  }

  function FindNode(nodes: seq<Node>, id: Id): (r: Option<Node>)
    ensures r.Some? ==> r.value in nodes && r.value.agentId == id
    ensures r.None? ==> id !in NodeSet(nodes)
  {
    if nodes == [] then None
    else if nodes[0].agentId == id then Some(nodes[0])
    else
      assert nodes == [nodes[0]] + nodes[1..];
      FindNode(nodes[1..], id)
  }

  function Entries(rows: seq<Row>): seq<Entry> {
    seq(|rows|, i requires 0 <= i < |rows| => Entry(rows[i].agentId, rows[i].depth))
  }

  ghost predicate RowsComeFrom(nodes: seq<Node>, rows: seq<Row>) {
    forall i :: 0 <= i < |rows| ==> exists n :: n in nodes && rows[i] == RowOf(n, rows[i].depth)
  }

  method RowsFor(nodes: seq<Node>, entries: seq<Entry>) returns (rows: seq<Row>)
    requires EntryIds(entries) <= NodeSet(nodes)
    ensures Entries(rows) == entries && RowsComeFrom(nodes, rows)
  {
    rows := [];
    for i := 0 to |entries|
      invariant Entries(rows) == entries[..i] && RowsComeFrom(nodes, rows)
    {
      assert entries[i] in entries && entries[i].id in EntryIds(entries);
      var n := FindNode(nodes, entries[i].id);
      var row := RowOf(n.value, entries[i].depth);
      assert Entries(rows + [row]) == Entries(rows) + [entries[i]];
      assert entries[..i + 1] == entries[..i] + [entries[i]];
      rows := rows + [row];
    }
    assert entries[..|entries|] == entries;
  }

  // Child lists of the roster: the nodes below p, siblings sorted.
  ghost predicate IsChildMap(nodes: seq<Node>, ch: ChildMap) {
    forall p :: Lookup(ch, p) == NodeIds(SortNodes(ChildNodes(nodes, p)))
  }

  function People(shape: Shape): set<Id> {
    Owners(shape.agencies) + AgentIds(shape.members)
  }

  // The rows returned: each node once, each below its parent's row, each subtree
  // contiguous, in the pre-order that lists siblings by (joinedAt, membership id).
  ghost predicate IsRoster(root: ActiveAgency, now: Time, shape: Shape, result: seq<Row>) {
    var nodes := Hanging(shape, root.agencyId, now);
    && RowsComeFrom([RootNode(root)] + nodes, result)
    && IsRosterParents(shape, Up(nodes))
    && IsTreeListing(Up(nodes), People(shape), root.owner.agentId, Entries(result))
    && exists ch :: IsChildMap(nodes, ch) && Entries(result) == Preorder(ch, [root.owner.agentId], 0, |People(shape)|)
  }

  lemma NormalizedIsTotal(shape: Shape)
    requires WellShaped(shape)
    ensures forall i :: 0 <= i < |shape.members| ==> ParentOf(shape.normalized, shape.members[i].agentId).Some?
  {
  }

  // The grouped, sorted children form one tree under the requesting owner.
  lemma RosterIsRootedTree(rows: seq<AgencyRow>, root: ActiveAgency, now: Time, shape: Shape, sorted: map<Id,
                           seq<Node>>)
    requires RosterShape(rows, root, now, shape)
    requires AreSorted(Grouped(Hanging(shape, root.agencyId, now)), sorted)
    ensures
      var nodes := Hanging(shape, root.agencyId, now);
      && IsRosterParents(shape, Up(nodes)) && IsChildMap(nodes, ChildIdMap(sorted))
      && RootedTree(ChildIdMap(sorted), Up(nodes), People(shape), root.owner.agentId)
      && NodeSet([RootNode(root)] + nodes) >= People(shape)
  {
    var owners, people := AgencyNodes(shape, shape.agencies, root.agencyId), MemberNodes(shape, shape.members, now);
    var nodes := owners + people;
    HangingIs(rows, root, now, shape);
    NormalizedIsTotal(shape);
    NodesDistinct(shape, owners, people);
    UpIsRosterParents(shape, owners, people);
    ChildMapIsTree(rows, root, now, shape, nodes, sorted);
    EverybodyHasNode(root, shape, owners, people);
  }

  lemma EverybodyHasNode(root: ActiveAgency, shape: Shape, owners: seq<Node>, people: seq<Node>)
    requires AreNodes(shape, owners, people) && shape.agencies[0] == root
    ensures NodeSet([RootNode(root)] + (owners + people)) >= People(shape)
  {
    var all := [RootNode(root)] + (owners + people);
    forall x | x in People(shape)
      ensures x in NodeSet(all)
    {
      if x in AgentIds(shape.members) {
        var i := MemberOf(shape.members, x);
        assert IsMemberNode(shape, shape.members[i], people[i]);
        assert people[i] in all;
      } else {
        var a :| a in shape.agencies && a.owner.agentId == x;
        var k :| 0 <= k < |shape.agencies| && shape.agencies[k] == a;
        if k == 0 {
          assert RootNode(root) in all;
        } else {
          assert owners[k - 1] in all;
        }
      }
    }
  }

  lemma ChildMapIsTree(rows: seq<AgencyRow>, root: ActiveAgency, now: Time, shape: Shape, nodes: seq<Node>,
                       sorted: map<Id, seq<Node>>)
    requires RosterShape(rows, root, now, shape) && AreSorted(Grouped(nodes), sorted)
    requires DistinctNodes(nodes) && IsRosterParents(shape, Up(nodes))
    ensures IsChildMap(nodes, ChildIdMap(sorted))
    ensures RootedTree(ChildIdMap(sorted), Up(nodes), People(shape), root.owner.agentId)
  {
    forall p
      ensures Lookup(ChildIdMap(sorted), p) == NodeIds(SortNodes(ChildNodes(nodes, p)))
      ensures forall x :: x in Lookup(ChildIdMap(sorted), p) <==> ParentOf(Up(nodes), x) == Some(p)
      ensures Distinct(Lookup(ChildIdMap(sorted), p))
    {
      ChildListIs(nodes, sorted, p);
      ChildListEdges(nodes, sorted, p);
    }
    forall x | x in People(shape)
      ensures AtOrAbove(Up(nodes), root.owner.agentId, x)
    {
      EverybodyClimbsToRoot(rows, root, now, shape, Up(nodes), x);
    }
    assert shape.agencies[0] in shape.agencies;
  }

  lemma TreeStaysInside(ch: ChildMap, up: ParentsMap, all: set<Id>, root: Id)
    requires RootedTree(ch, up, all, root)
    ensures forall p, x :: x in Lookup(ch, p) ==> x in all
  {
    forall p, x | x in Lookup(ch, p)
      ensures x in all
    {
      assert ParentOf(up, x) == Some(p);
      assert x in up.Keys;
    }
  }

  lemma WalkIsTree(ch: ChildMap, up: ParentsMap, all: set<Id>, root: Id, entries: seq<Entry>)
    requires RootedTree(ch, up, all, root) && entries == VisitOne(ch, all, root, 0)
    ensures IsTreeListing(up, all, root, entries) && entries == Preorder(ch, [root], 0, |all|)
  {
    WalkListsTree(ch, up, all, root);
    WalkIsPreorder(ch, up, all, root);
  }

  method WalkTree(ch: ChildMap, ghost up: ParentsMap, ghost all: set<Id>, rootId: Id) returns (entries: seq<Entry>)
    requires RootedTree(ch, up, all, rootId)
    ensures IsTreeListing(up, all, rootId, entries) && entries == Preorder(ch, [rootId], 0, |all|)
  {
    TreeStaysInside(ch, up, all, rootId);
    var walker := new Walker(ch, all);
    assert all - {} == all;
    walker.Visit(rootId, 0);
    entries := walker.result;
    assert entries == VisitOne(ch, all, rootId, 0);
    WalkIsTree(ch, up, all, rootId, entries);
  }

  // Depth-first from the root over the sorted children.
  method ListRoster(ghost rows: seq<AgencyRow>, root: ActiveAgency, now: Time, shape: Shape) returns (result: seq<Row>)
    requires RosterShape(rows, root, now, shape)
    ensures IsRoster(root, now, shape, result)
  {
    var children := GroupChildren(shape, root.agencyId, now);
    var sorted := SortChildren(children);
    ghost var nodes := Hanging(shape, root.agencyId, now);
    RosterIsRootedTree(rows, root, now, shape, sorted);
    var entries := WalkTree(ChildIdMap(sorted), Up(nodes), People(shape), root.owner.agentId);
    result := RowsFor([RootNode(root)] + Hanging(shape, root.agencyId, now), entries);
    assert IsChildMap(nodes, ChildIdMap(sorted))
      && Entries(result) == Preorder(ChildIdMap(sorted), [root.owner.agentId], 0, |People(shape)|);
  }

  method ShapeRoster(rows: seq<AgencyRow>, members: seq<MemberRow>, root: ActiveAgency, now: Time)
    returns (shape: Shape)
    requires UniqueRows(rows) && root.depth == 0
    ensures RosterShape(rows, root, now, shape) && shape.members == ValidMembers(members, shape.agencies)
  {
    var agencies := AdmitAgencies(rows, root, now);
    var valid := KeepValidMembers(members, agencies);
    ValidHaveOneRowEach(members, agencies);
    forall i | 0 <= i < |valid|
      ensures Apart(agencies, valid, i)
    {
      OneRowEachIsApart(agencies, valid, i);
    }
    var affiliation := Affiliate(agencies, valid);
    var requested := RequestParents(agencies, valid, affiliation);
    RequestsStayInside(agencies, valid, affiliation, requested);
    var normalized := NormalizeParents(agencies, valid, affiliation, requested);
    shape := Shape(agencies, valid, affiliation, requested, normalized);
  }

  // An owner without a current agency plan sees nothing; otherwise the roster of
  // the agencies and members the rows admit, whatever the parent columns say.
  method GetAgencyTree(rootRow: Option<RootRow>, rows: seq<AgencyRow>, members: seq<MemberRow>, now: Time)
    returns (result: seq<Row>)
    requires UniqueRows(rows)
    ensures rootRow.None? || rootRow.value.currentPlan.None? || !Entitling(rootRow.value.currentPlan.value) ==>
        result == []
    ensures rootRow.Some? && rootRow.value.currentPlan.Some? && Entitling(rootRow.value.currentPlan.value) ==>
      exists shape ::
        && RosterShape(rows, RootAgency(rootRow.value), now, shape)
        && shape.members == ValidMembers(members, shape.agencies)
        && IsRoster(RootAgency(rootRow.value), now, shape, result)
  {
    if rootRow.None? || rootRow.value.currentPlan.None? || !Entitling(rootRow.value.currentPlan.value) { return []; }
    var root := RootAgency(rootRow.value);
    var shape := ShapeRoster(rows, members, root, now);
    result := ListRoster(rows, root, now, shape);
  }

  // ---------- who is listed under whom ----------

  // Agent x has a row, and y a later and deeper one in the block under it.
  ghost predicate ListedUnder(result: seq<Row>, x: Id, y: Id) {
    exists i, k ::
      && 0 <= i < k < |result| && result[i].agentId == x && result[k].agentId == y
      && InBlock(Entries(result), i, k)
  }

  lemma RowOfEntry(result: seq<Row>, x: Id) returns (i: int)
    requires x in EntryIds(Entries(result))
    ensures 0 <= i < |result| && Entries(result)[i].id == x && result[i].agentId == x
  {
    var e :| e in Entries(result) && e.id == x;
    i :| 0 <= i < |result| && Entries(result)[i] == e;
  }

  lemma RowOfPerson(root: ActiveAgency, now: Time, shape: Shape, result: seq<Row>, x: Id) returns (i: int)
    requires IsRoster(root, now, shape, result) && x in People(shape)
    ensures 0 <= i < |result| && Entries(result)[i].id == x && result[i].agentId == x
  {
    i := RowOfEntry(result, x);
  }

  // Whoever climbs to x in the roster's parents is listed under x.
  lemma AboveIsListed(root: ActiveAgency, now: Time, shape: Shape, result: seq<Row>, x: Id, y: Id)
    requires IsRoster(root, now, shape, result) && x in People(shape) && y in People(shape) && x != y
    requires AtOrAbove(Up(Hanging(shape, root.agencyId, now)), x, y)
    ensures ListedUnder(result, x, y)
  {
    var i := RowOfPerson(root, now, shape, result, x);
    var k := RowOfPerson(root, now, shape, result, y);
    assert BlockIsSubtree(Up(Hanging(shape, root.agencyId, now)), Entries(result), i, k);
  }

  // In the result the owner of a sub-agency is listed under the owner of its parent
  // agency, however many members stand between them.
  lemma OwnerIsListedUnder(rows: seq<AgencyRow>, root: ActiveAgency, now: Time, shape: Shape, result: seq<Row>, k: int)
    returns (j: int)
    requires RosterShape(rows, root, now, shape) && IsRoster(root, now, shape, result) && 1 <= k < |shape.agencies|
    ensures 0 <= j < k && shape.agencies[k].parentAgencyId == Some(shape.agencies[j].agencyId)
    ensures ListedUnder(result, shape.agencies[j].owner.agentId, shape.agencies[k].owner.agentId)
  {
    j := OwnerUnderParentOwner(rows, root, now, shape, Up(Hanging(shape, root.agencyId, now)), k);
    var x, y := shape.agencies[j].owner.agentId, shape.agencies[k].owner.agentId;
    assert shape.agencies[j] in shape.agencies && shape.agencies[k] in shape.agencies;
    AboveIsListed(root, now, shape, result, x, y);
  }

  // ---------- tenant boundaries ----------

  // A member's parent is in the same agency, a sub-agency owner's parent in the
  // immediate parent agency.
  lemma ParentsStayInTheirAgency(rows: seq<AgencyRow>, root: ActiveAgency, now: Time, shape: Shape, up: ParentsMap,
                                 x: Id, p: Id)
    requires RosterShape(rows, root, now, shape) && IsRosterParents(shape, up) && ParentOf(up, x) == Some(p)
    ensures x in AgentIds(shape.members) ==> SameAgency(shape, x, p)
    ensures forall k :: 0 <= k < |shape.agencies| && shape.agencies[k].owner.agentId == x ==>
      shape.agencies[k].parentAgencyId.Some? && BelongsTo(shape.affiliation, p, shape.agencies[k].parentAgencyId.value)
  {
  }
}
