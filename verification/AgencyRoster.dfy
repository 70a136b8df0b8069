/**
 The people on the roster (lib/agency-tree.ts): each agent gets one row, and each
 row one parent. Parent ids in the data may point anywhere, including in circles;
 whatever does not lead to the agency's owner is replaced by that owner.
 */
module AgencyRoster {
  import opened Wrappers
  import opened Hierarchy
  import opened ParentGraph
  import opened Tables
  import opened AgencyAdmission

  // Active memberships of active agents, in (joinedAt, id) order.
  datatype MemberRow = MemberRow(
    membershipId: Id, agencyId: Id, agentId: Id, name: string, parentAgentId: Option<Id>, invitedByAgentId: Option<Id>,
      joinedAt: Time,
    invitation: Option<InvitationRow>, subscription: Option<SubscriptionRow>)

  // ---------- one row per agent ----------

  // Rows from before the invitation rollout have no relation; an inconsistent one fails closed.
  predicate Consistent(m: MemberRow) {
    m.invitation.Some? ==>
      && m.invitation.value.status == Accepted && m.invitation.value.acceptedPlan == Some(MemberPlan)
      && m.invitation.value.agencyId == m.agencyId && m.invitation.value.acceptedAgentId == Some(m.agentId)
  }

  predicate Eligible(m: MemberRow, agencies: seq<ActiveAgency>) {
    Find(agencies, m.agencyId).Some? && Consistent(m)
  }

  function AgentIds(members: seq<MemberRow>): set<Id> {
    set m | m in members :: m.agentId
  }

  function ValidMembers(members: seq<MemberRow>, agencies: seq<ActiveAgency>): seq<MemberRow> {
    if members == [] then []
    else
      var valid, m := ValidMembers(members[..|members| - 1], agencies), members[|members| - 1];
      if Eligible(m, agencies) && m.agentId !in Owners(agencies) + AgentIds(valid) then valid + [m] else valid
  }

  method KeepValidMembers(members: seq<MemberRow>, agencies: seq<ActiveAgency>) returns (valid: seq<MemberRow>)
    ensures valid == ValidMembers(members, agencies)
  {
    var claimed := Owners(agencies);
    valid := [];
    for i := 0 to |members|
      invariant valid == ValidMembers(members[..i], agencies) && claimed == Owners(agencies) + AgentIds(valid)
    {
      var m := members[i];
      assert members[..i + 1][..i] == members[..i];
      if Find(agencies, m.agencyId).Some? && m.agentId !in claimed && Consistent(m) {
        claimed := claimed + {m.agentId};
        valid := valid + [m];
      }
    }
    assert members[..|members|] == members;
  }

  ghost predicate DistinctMembers(members: seq<MemberRow>) {
    forall i, j :: 0 <= i < j < |members| ==> members[i].agentId != members[j].agentId
  }

  // Owners and members are pairwise different agents, and members belong to shown agencies.
  ghost predicate OneRowEach(agencies: seq<ActiveAgency>, members: seq<MemberRow>) {
    && DistinctAgencies(agencies) && DistinctMembers(members) && Owners(agencies) !! AgentIds(members)
    && forall i :: 0 <= i < |members| ==> Eligible(members[i], agencies)
  }

  // Row i is the first eligible row of its agent.
  ghost predicate FirstOf(members: seq<MemberRow>, agencies: seq<ActiveAgency>, i: int)
    requires 0 <= i < |members|
  {
    && Eligible(members[i], agencies) && members[i].agentId !in Owners(agencies)
    && forall q :: 0 <= q < i && Eligible(members[q], agencies) ==> members[q].agentId != members[i].agentId
  }

  ghost predicate ListedFirst(members: seq<MemberRow>, agencies: seq<ActiveAgency>, m: MemberRow) {
    exists i :: 0 <= i < |members| && members[i] == m && FirstOf(members, agencies, i)
  }

  lemma {:induction false} EligibleIsClaimed(members: seq<MemberRow>, agencies: seq<ActiveAgency>, i: int)
    requires 0 <= i < |members| && Eligible(members[i], agencies)
    ensures members[i].agentId in Owners(agencies) || members[i].agentId in AgentIds(ValidMembers(members, agencies))
  {
    if i < |members| - 1 {
      EligibleIsClaimed(members[..|members| - 1], agencies, i);
    }
  }

  lemma NewRowIsFirst(members: seq<MemberRow>, agencies: seq<ActiveAgency>)
    requires members != []
    requires
      var m := members[|members| - 1];
      Eligible(m, agencies)
        && m.agentId !in Owners(agencies) + AgentIds(ValidMembers(members[..|members| - 1], agencies))
    ensures ListedFirst(members, agencies, members[|members| - 1])
  {
    var init, last := members[..|members| - 1], |members| - 1;
    forall q | 0 <= q < last && Eligible(members[q], agencies)
      ensures members[q].agentId != members[last].agentId
    {
      EligibleIsClaimed(init, agencies, q);
    }
    assert FirstOf(members, agencies, last);
  }

  lemma {:induction false} ValidAreFirst(members: seq<MemberRow>, agencies: seq<ActiveAgency>, k: int)
    requires 0 <= k < |ValidMembers(members, agencies)|
    ensures ListedFirst(members, agencies, ValidMembers(members, agencies)[k])
  {
    var init := members[..|members| - 1];
    if k < |ValidMembers(init, agencies)| {
      ValidAreFirst(init, agencies, k);
    } else {
      NewRowIsFirst(members, agencies);
    }
  }

  lemma {:induction false} ValidAreDistinct(members: seq<MemberRow>, agencies: seq<ActiveAgency>)
    ensures DistinctMembers(ValidMembers(members, agencies))
  {
    if members != [] {
      var before := ValidMembers(members[..|members| - 1], agencies);
      ValidAreDistinct(members[..|members| - 1], agencies);
      assert forall k :: 0 <= k < |before| ==> before[k] in before;
    }
  }

  lemma ValidHaveOneRowEach(members: seq<MemberRow>, agencies: seq<ActiveAgency>)
    requires DistinctAgencies(agencies)
    ensures OneRowEach(agencies, ValidMembers(members, agencies))
  {
  }

  // The valid members are exactly the first eligible rows of the agents who own nothing shown.
  lemma FirstRowWins(members: seq<MemberRow>, agencies: seq<ActiveAgency>, m: MemberRow)
    ensures m in ValidMembers(members, agencies) <==> ListedFirst(members, agencies, m)
  {
    var valid := ValidMembers(members, agencies);
    if m in valid {
      var k :| 0 <= k < |valid| && valid[k] == m;
      ValidAreFirst(members, agencies, k);
    }
    if ListedFirst(members, agencies, m) {
      var i :| 0 <= i < |members| && members[i] == m && FirstOf(members, agencies, i);
      EligibleIsClaimed(members, agencies, i);
      var n :| n in valid && n.agentId == m.agentId;
      var k :| 0 <= k < |valid| && valid[k] == n;
      ValidAreFirst(members, agencies, k);
      var j :| 0 <= j < |members| && members[j] == n && FirstOf(members, agencies, j);
      assert i == j;
    }
  }

  // Row i is of a shown agency, and of an agent with no earlier row and no shown agency.
  ghost predicate Apart(agencies: seq<ActiveAgency>, members: seq<MemberRow>, i: int)
    requires 0 <= i < |members|
  {
    && Find(agencies, members[i].agencyId).Some?
    && members[i].agentId !in Owners(agencies) && members[i].agentId !in AgentIds(members[..i])
  }

  lemma OneRowEachIsApart(agencies: seq<ActiveAgency>, members: seq<MemberRow>, i: int)
    requires OneRowEach(agencies, members) && 0 <= i < |members|
    ensures Apart(agencies, members, i)
  {
    assert Eligible(members[i], agencies);
    assert members[i] in members && members[i].agentId in AgentIds(members);
  }

  // ---------- who belongs where ----------

  ghost predicate IsAffiliation(agencies: seq<ActiveAgency>, members: seq<MemberRow>, affiliation: map<Id, Id>) {
    && affiliation.Keys == Owners(agencies) + AgentIds(members)
    && (forall k :: 0 <= k < |agencies| ==>
      agencies[k].owner.agentId in affiliation && affiliation[agencies[k].owner.agentId] == agencies[k].agencyId)
    && (forall i :: 0 <= i < |members| ==>
      members[i].agentId in affiliation && affiliation[members[i].agentId] == members[i].agencyId)
  }

  lemma AffiliateOwner(agencies: seq<ActiveAgency>, affiliation: map<Id, Id>, a: ActiveAgency)
    requires IsAffiliation(agencies, [], affiliation) && a.owner.agentId !in Owners(agencies)
    ensures IsAffiliation(agencies + [a], [], affiliation[a.owner.agentId := a.agencyId])
  {
    AppendIds(agencies, a, 0);
    assert forall k :: 0 <= k < |agencies| ==> agencies[k] in agencies;
  }

  method AffiliateOwners(agencies: seq<ActiveAgency>) returns (affiliation: map<Id, Id>)
    requires DistinctAgencies(agencies)
    ensures IsAffiliation(agencies, [], affiliation)
  {
    affiliation := map[];
    for k := 0 to |agencies|
      invariant IsAffiliation(agencies[..k], [], affiliation)
    {
      AffiliateOwner(agencies[..k], affiliation, agencies[k]);
      assert agencies[..k + 1] == agencies[..k] + [agencies[k]];
      affiliation := affiliation[agencies[k].owner.agentId := agencies[k].agencyId];
    }
    assert agencies[..|agencies|] == agencies;
  }

  method Affiliate(agencies: seq<ActiveAgency>, members: seq<MemberRow>) returns (affiliation: map<Id, Id>)
    requires DistinctAgencies(agencies) && forall i :: 0 <= i < |members| ==> Apart(agencies, members, i)
    ensures IsAffiliation(agencies, members, affiliation)
  {
    affiliation := AffiliateOwners(agencies);
    assert members[..0] == [];
    for i := 0 to |members|
      invariant IsAffiliation(agencies, members[..i], affiliation)
    {
      assert members[..i + 1] == members[..i] + [members[i]];
      assert Apart(agencies, members, i);
      affiliation := affiliation[members[i].agentId := members[i].agencyId];
    }
    assert members[..|members|] == members;
  }

  // ---------- members' parents ----------

  function OwnerOf(agencies: seq<ActiveAgency>, agencyId: Id): Id
    requires Find(agencies, agencyId).Some?
  {
    Find(agencies, agencyId).value.owner.agentId
  }

  function Or(first: Option<Id>, second: Option<Id>): Option<Id> {
    if first.Some? then first else second
  }

  predicate BelongsTo(affiliation: map<Id, Id>, x: Id, agencyId: Id) {
    x in affiliation && affiliation[x] == agencyId
  }

  // The recorded parent, or the inviter, when that is another agent of the same agency.
  function RequestedParent(agencies: seq<ActiveAgency>, affiliation: map<Id, Id>, m: MemberRow): Id
    requires Find(agencies, m.agencyId).Some?
  {
    var requested := Or(m.parentAgentId, m.invitedByAgentId);
    if requested.Some? && requested.value != m.agentId && BelongsTo(affiliation, requested.value, m.agencyId)
    then requested.value
    else OwnerOf(agencies, m.agencyId)
  }

  ghost predicate AreRequests(agencies: seq<ActiveAgency>, affiliation: map<Id, Id>, members: seq<MemberRow>,
                              requested: ParentsMap) {
    && requested.Keys == AgentIds(members)
    && forall i :: 0 <= i < |members| ==>
         && Find(agencies, members[i].agencyId).Some? && members[i].agentId in requested
         && requested[members[i].agentId] == Some(RequestedParent(agencies, affiliation, members[i]))
  }

  method RequestParents(agencies: seq<ActiveAgency>, members: seq<MemberRow>, affiliation: map<Id, Id>)
    returns (requested: ParentsMap)
    requires OneRowEach(agencies, members)
    ensures AreRequests(agencies, affiliation, members, requested)
  {
    requested := map[];
    for i := 0 to |members|
      invariant AreRequests(agencies, affiliation, members[..i], requested)
    {
      assert members[..i + 1] == members[..i] + [members[i]];
      assert Eligible(members[i], agencies);
      requested := requested[members[i].agentId := Some(RequestedParent(agencies, affiliation, members[i]))];
    }
    assert members[..|members|] == members;
  }

  // Requested edges never leave the agency, and owners have none.
  ghost predicate StaysInside(affiliation: map<Id, Id>, parents: ParentsMap) {
    forall c, p :: ParentOf(parents, c) == Some(p) ==>
      c in affiliation && p in affiliation && affiliation[p] == affiliation[c]
  }

  lemma MemberOf(members: seq<MemberRow>, x: Id) returns (i: int)
    requires x in AgentIds(members)
    ensures 0 <= i < |members| && members[i].agentId == x
  {
    var m :| m in members && m.agentId == x;
    i :| 0 <= i < |members| && members[i] == m;
  }

  lemma AgencyAt(agencies: seq<ActiveAgency>, id: Id) returns (k: int)
    requires Find(agencies, id).Some?
    ensures 0 <= k < |agencies| && agencies[k] == Find(agencies, id).value
  {
    k :| 0 <= k < |agencies| && agencies[k] == Find(agencies, id).value;
  }

  lemma RequestsStayInside(agencies: seq<ActiveAgency>, members: seq<MemberRow>, affiliation: map<Id, Id>,
                           requested: ParentsMap)
    requires OneRowEach(agencies, members) && IsAffiliation(agencies, members, affiliation)
    requires AreRequests(agencies, affiliation, members, requested)
    ensures StaysInside(affiliation, requested)
    ensures forall g :: g in Owners(agencies) ==> ParentOf(requested, g) == None
  {
  }

  lemma NeverReaches(parents: ParentsMap, chain: seq<Id>, owner: Id)
    requires IsChain(parents, chain) && Maximal(parents, chain) && owner !in chain
    ensures !AtOrAbove(parents, owner, chain[0])
  {
    if n: nat :| UpN(parents, chain[0], n) == Some(owner) {
      ClimbStaysOnChain(parents, chain, n);
    }
  }

  // The upward walk with its `seen` set: true exactly when climbing ends at the owner.
  method MemberChainReachesOwner(agencies: seq<ActiveAgency>, affiliation: map<Id, Id>, requested: ParentsMap,
                                 memberAgentId: Id) returns (reaches: bool)
    requires StaysInside(affiliation, requested)
    requires memberAgentId in affiliation && Find(agencies, affiliation[memberAgentId]).Some?
    ensures reaches <==> AtOrAbove(requested, OwnerOf(agencies, affiliation[memberAgentId]), memberAgentId)
  {
    var agency := Find(agencies, affiliation[memberAgentId]).value;
    var owner := agency.owner.agentId;
    var seen := {};
    var cursor := memberAgentId;
    ghost var chain: seq<Id> := [];
    while cursor != owner
      invariant IsChain(requested, chain) && owner !in chain && seen == set x | x in chain
      invariant chain == [] ==> cursor == memberAgentId
      invariant chain != [] ==> chain[0] == memberAgentId && ParentOf(requested, chain[|chain| - 1]) == Some(cursor)
      invariant BelongsTo(affiliation, cursor, agency.agencyId) && seen <= affiliation.Keys
      decreases affiliation.Keys - seen
    {
      if cursor in seen {
        NeverReaches(requested, chain, owner);
        return false;
      }
      seen := seen + {cursor};
      chain := chain + [cursor];
      var parent := ParentOf(requested, cursor);
      if parent.None? || !BelongsTo(affiliation, parent.value, agency.agencyId) {
        NeverReaches(requested, chain, owner);
        return false;
      }
      cursor := parent.value;
    }
    ChainIsUpN(requested, chain + [cursor], |chain|);
    return true;
  }

  // ---------- normalized parents ----------

  ghost function NormalizedParent(agencies: seq<ActiveAgency>, requested: ParentsMap, m: MemberRow): Id
    requires Find(agencies, m.agencyId).Some?
  {
    var owner := OwnerOf(agencies, m.agencyId);
    if AtOrAbove(requested, owner, m.agentId) && ParentOf(requested, m.agentId).Some?
      then ParentOf(requested, m.agentId).value else owner
  }

  ghost predicate AreNormalized(agencies: seq<ActiveAgency>, members: seq<MemberRow>, requested: ParentsMap,
                                normalized: ParentsMap) {
    && normalized.Keys == AgentIds(members)
    && forall i :: 0 <= i < |members| ==>
         && Find(agencies, members[i].agencyId).Some? && members[i].agentId in normalized
         && normalized[members[i].agentId] == Some(NormalizedParent(agencies, requested, members[i]))
  }

  method NormalizeParent(agencies: seq<ActiveAgency>, affiliation: map<Id, Id>, requested: ParentsMap, m: MemberRow)
    returns (parent: Id)
    requires StaysInside(affiliation, requested)
    requires Find(agencies, m.agencyId).Some? && BelongsTo(affiliation, m.agentId, m.agencyId)
    ensures parent == NormalizedParent(agencies, requested, m)
  {
    var owner := OwnerOf(agencies, m.agencyId);
    var reaches := MemberChainReachesOwner(agencies, affiliation, requested, m.agentId);
    parent := if reaches then Or(ParentOf(requested, m.agentId), Some(owner)).value else owner;
  }

  method NormalizeNext(agencies: seq<ActiveAgency>, ghost before: seq<MemberRow>, affiliation: map<Id, Id>,
                       requested: ParentsMap, normalized: ParentsMap, m: MemberRow)
    returns (next: ParentsMap)
    requires StaysInside(affiliation, requested) && AreNormalized(agencies, before, requested, normalized)
    requires Find(agencies, m.agencyId).Some? && BelongsTo(affiliation, m.agentId, m.agencyId)
    requires m.agentId !in AgentIds(before)
    ensures AreNormalized(agencies, before + [m], requested, next)
  {
    var parent := NormalizeParent(agencies, affiliation, requested, m);
    next := normalized[m.agentId := Some(parent)];
  }

  method NormalizeParents(agencies: seq<ActiveAgency>, members: seq<MemberRow>, affiliation: map<Id, Id>,
                          requested: ParentsMap)
    returns (normalized: ParentsMap)
    requires StaysInside(affiliation, requested) && forall i :: 0 <= i < |members| ==> Apart(agencies, members, i)
    requires forall i :: 0 <= i < |members| ==> BelongsTo(affiliation, members[i].agentId, members[i].agencyId)
    ensures AreNormalized(agencies, members, requested, normalized)
  {
    normalized := map[];
    for i := 0 to |members|
      invariant AreNormalized(agencies, members[..i], requested, normalized)
    {
      assert members[..i + 1] == members[..i] + [members[i]];
      assert Apart(agencies, members, i) && BelongsTo(affiliation, members[i].agentId, members[i].agencyId);
      normalized := NormalizeNext(agencies, members[..i], affiliation, requested, normalized, members[i]);
    }
    assert members[..|members|] == members;
  }

  // Everything computed about people, from the rows.
  datatype Shape = Shape(
    agencies: seq<ActiveAgency>, members: seq<MemberRow>, affiliation: map<Id, Id>, requested: ParentsMap,
      normalized: ParentsMap)

  ghost predicate WellShaped(shape: Shape) {
    && OneRowEach(shape.agencies, shape.members)
    && IsAffiliation(shape.agencies, shape.members, shape.affiliation)
    && AreRequests(shape.agencies, shape.affiliation, shape.members, shape.requested)
    && AreNormalized(shape.agencies, shape.members, shape.requested, shape.normalized)
  }

  lemma NormalizedAt(shape: Shape, x: Id) returns (i: int)
    requires WellShaped(shape) && x in AgentIds(shape.members)
    ensures 0 <= i < |shape.members| && shape.members[i].agentId == x && Eligible(shape.members[i], shape.agencies)
    ensures ParentOf(shape.normalized, x) == Some(NormalizedParent(shape.agencies, shape.requested, shape.members[i]))
    ensures BelongsTo(shape.affiliation, x, shape.members[i].agencyId)
  {
    i := MemberOf(shape.members, x);
  }

  predicate SameAgency(shape: Shape, x: Id, y: Id) {
    x in shape.affiliation && y in shape.affiliation && shape.affiliation[x] == shape.affiliation[y]
  }

  function OwnerAbove(shape: Shape, x: Id): Id
    requires x in shape.affiliation && Find(shape.agencies, shape.affiliation[x]).Some?
  {
    OwnerOf(shape.agencies, shape.affiliation[x])
  }

  lemma RequestedEdge(shape: Shape, x: Id) returns (p: Id)
    requires WellShaped(shape) && x in AgentIds(shape.members)
    ensures ParentOf(shape.requested, x) == Some(p) && SameAgency(shape, x, p)
    ensures p in AgentIds(shape.members) || ParentOf(shape.requested, p) == None
  {
    RequestsStayInside(shape.agencies, shape.members, shape.affiliation, shape.requested);
    var i := MemberOf(shape.members, x);
    p := ParentOf(shape.requested, x).value;
  }

  lemma NormalizedEdge(shape: Shape, x: Id)
    requires WellShaped(shape) && x in AgentIds(shape.members)
    ensures x in shape.affiliation && Find(shape.agencies, shape.affiliation[x]).Some?
    ensures ParentOf(shape.normalized, x) ==
      if AtOrAbove(shape.requested, OwnerAbove(shape, x), x) then ParentOf(shape.requested, x)
        else Some(OwnerAbove(shape, x))
  {
    var i := NormalizedAt(shape, x);
    var p := RequestedEdge(shape, x);
  }

  // Two parent maps that agree on whatever leads to the owner.
  lemma {:induction false} SameClimb(a: ParentsMap, b: ParentsMap, inside: set<Id>, x: Id, owner: Id, n: nat)
    requires forall y, z :: y in inside && ParentOf(a, y) == Some(z) ==> z in inside
    requires forall y :: y in inside && AtOrAbove(a, owner, y) ==> ParentOf(b, y) == ParentOf(a, y)
    requires x in inside && UpN(a, x, n) == Some(owner)
    ensures UpN(b, x, n) == Some(owner)
    decreases n
  {
    if n > 0 {
      assert AtOrAbove(a, owner, x);
      SameClimb(a, b, inside, ParentOf(a, x).value, owner, n - 1);
    }
  }

  // Inside one agency, whatever leads to the owner keeps its requested parent.
  ghost predicate KeepsGoodEdges(shape: Shape, agencyId: Id, owner: Id) {
    forall y :: BelongsTo(shape.affiliation, y, agencyId) && AtOrAbove(shape.requested, owner, y) ==>
      ParentOf(shape.normalized, y) == ParentOf(shape.requested, y)
  }

  lemma GoodEdgesKept(shape: Shape, agencyId: Id)
    requires WellShaped(shape) && Find(shape.agencies, agencyId).Some?
    ensures StaysInside(shape.affiliation, shape.requested)
    ensures KeepsGoodEdges(shape, agencyId, OwnerOf(shape.agencies, agencyId))
  {
    RequestsStayInside(shape.agencies, shape.members, shape.affiliation, shape.requested);
    forall y | BelongsTo(shape.affiliation, y, agencyId)
      && AtOrAbove(shape.requested, OwnerOf(shape.agencies, agencyId), y)
      ensures ParentOf(shape.normalized, y) == ParentOf(shape.requested, y)
    {
    }
  }

  lemma RequestedChainIsKept(shape: Shape, x: Id, agencyId: Id, owner: Id, n: nat)
    requires StaysInside(shape.affiliation, shape.requested) && KeepsGoodEdges(shape, agencyId, owner)
    requires BelongsTo(shape.affiliation, x, agencyId) && UpN(shape.requested, x, n) == Some(owner)
    ensures UpN(shape.normalized, x, n) == Some(owner)
  {
    var inside := set y | y in shape.affiliation && BelongsTo(shape.affiliation, y, agencyId);
    SameClimb(shape.requested, shape.normalized, inside, x, owner, n);
  }

  // However corrupt the recorded parents are, climbing from any member ends at
  // the owner of the member's agency.
  lemma NormalizedReachesOwner(shape: Shape, x: Id)
    requires WellShaped(shape) && x in AgentIds(shape.members)
    ensures x in shape.affiliation && Find(shape.agencies, shape.affiliation[x]).Some?
    ensures AtOrAbove(shape.normalized, OwnerAbove(shape, x), x)
  {
    NormalizedEdge(shape, x);
    var owner := OwnerAbove(shape, x);
    if n: nat :| UpN(shape.requested, x, n) == Some(owner) {
      GoodEdgesKept(shape, shape.affiliation[x]);
      RequestedChainIsKept(shape, x, shape.affiliation[x], owner, n);
    } else {
      assert UpN(shape.normalized, x, 1) == Some(owner);
    }
  }

  // A recorded parent that leads to the owner inside the agency is respected.
  lemma GoodParentIsKept(shape: Shape, i: int)
    requires WellShaped(shape) && 0 <= i < |shape.members|
    ensures Eligible(shape.members[i], shape.agencies)
    ensures
      var m := shape.members[i];
      var asked := Or(m.parentAgentId, m.invitedByAgentId);
      asked.Some? && asked.value != m.agentId && BelongsTo(shape.affiliation, asked.value, m.agencyId)
        && AtOrAbove(shape.requested, OwnerOf(shape.agencies, m.agencyId), asked.value)
      ==> ParentOf(shape.normalized, m.agentId) == asked
  {
    var m := shape.members[i];
    assert Eligible(shape.members[i], shape.agencies);
    var asked, owner := Or(m.parentAgentId, m.invitedByAgentId), OwnerOf(shape.agencies, m.agencyId);
    if asked.Some? && asked.value != m.agentId && BelongsTo(shape.affiliation, asked.value, m.agencyId) {
      if n: nat :| UpN(shape.requested, asked.value, n) == Some(owner) {
        assert UpN(shape.requested, m.agentId, n + 1) == Some(owner);
      }
    }
  }
}
