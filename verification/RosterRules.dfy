/**
 What the roster shows, written out on the fetched rows: which agencies and members,
 under whom, and with which plan and stage.
 */
module RosterRules {
  import opened Wrappers
  import opened Hierarchy
  import opened ParentGraph
  import opened Tables
  import opened Walk
  import opened AgencyAdmission
  import opened AgencyRoster
  import opened AgencyTree

  // ---------- agencies ----------

  // The agency's owner o accepted invitation i, an AGENCY invitation of exactly its parent.
  predicate JoinedBy(row: AgencyRow, parentId: Id, o: OwnerRow, i: InvitationRow) {
    && row.parentAgencyId == Some(parentId) && row.owner == Some(o) && o.invitation == Some(i)
    && i.status == Accepted && i.acceptedPlan == Some(AgencyPlan)
    && i.agencyId == parentId && i.acceptedAgentId == Some(o.agentId)
  }

  predicate InPeriod(s: SubscriptionRow, now: Time) {
    && (s.periodStart.None? || s.periodStart.value <= now) && (s.periodEnd.None? || now < s.periodEnd.value)
  }

  // A trial or an active plan outside its period is shown as expired, any other plan
  // with its status.
  predicate ShowsPlan(shown: Shown, plan: Option<SubscriptionRow>, now: Time) {
    match plan
    case None => shown == NoSubscription
    case Some(s) =>
      shown == WithStatus(
        if (s.status == Trialing || s.status == Active) && !InPeriod(s, now) then Expired else s.status)
  }

  // Every shown agency but the root joined an agency shown before it, and is shown with
  // its own name, owner, plan and the stage of that invitation.
  lemma ShownThroughInvitation(rows: seq<AgencyRow>, root: ActiveAgency, now: Time, agencies: seq<ActiveAgency>, k: int)
    returns (j: int, r: int, o: OwnerRow, i: InvitationRow)
    requires IsAdmission(rows, root, now, agencies) && 1 <= k < |agencies|
    ensures 0 <= j < k && 0 <= r < |rows| && JoinedBy(rows[r], agencies[j].agencyId, o, i)
    ensures ShowsPlan(agencies[k].owner.subscriptionStatus, rows[r].subscription, now)
    ensures agencies[k] ==
      ActiveAgency(rows[r].id, rows[r].name, Some(agencies[j].agencyId), agencies[j].depth + 1,
                   ActiveOwner(o.membershipId, o.agentId, o.name, o.parentAgentId, o.invitedByAgentId, o.joinedAt,
                               agencies[k].owner.subscriptionStatus, Some(i.stage)))
  {
    assert Sourced(rows, now, agencies, k);
    j, r :| AdmittedFrom(rows, now, agencies, k, j, r);
    o := rows[r].owner.value;
    i := o.invitation.value;
  }

  // And whichever agency joined a shown one is shown, unless its owner is shown for
  // another agency.
  lemma InvitedIsShown(rows: seq<AgencyRow>, root: ActiveAgency, now: Time, agencies: seq<ActiveAgency>, j: int,
                       r: int, o: OwnerRow, i: InvitationRow)
    requires IsAdmission(rows, root, now, agencies) && 0 <= j < |agencies| && 0 <= r < |rows|
    requires JoinedBy(rows[r], agencies[j].agencyId, o, i)
    ensures exists k ::
        0 <= k < |agencies| && (agencies[k].agencyId == rows[r].id || agencies[k].owner.agentId == o.agentId)
  {
    assert Settled(rows, agencies, j, r);
  }

  // ---------- members ----------

  predicate IsShownAgency(agencies: seq<ActiveAgency>, id: Id) {
    exists k :: 0 <= k < |agencies| && agencies[k].agencyId == id
  }

  // A row of a shown agency that has no invitation, or the accepted AGENT invitation of
  // that agent by that agency.
  predicate MayBeListed(m: MemberRow, agencies: seq<ActiveAgency>) {
    && IsShownAgency(agencies, m.agencyId)
    && match m.invitation
       case None => true
       case Some(i) =>
         && i.status == Accepted && i.acceptedPlan == Some(MemberPlan)
         && i.agencyId == m.agencyId && i.acceptedAgentId == Some(m.agentId)
  }

  // The first such row of an agent who owns nothing shown.
  ghost predicate ListedAt(members: seq<MemberRow>, agencies: seq<ActiveAgency>, i: int) {
    && 0 <= i < |members| && MayBeListed(members[i], agencies)
    && (forall k :: 0 <= k < |agencies| ==> agencies[k].owner.agentId != members[i].agentId)
    && forall q :: 0 <= q < i && MayBeListed(members[q], agencies) ==> members[q].agentId != members[i].agentId
  }

  lemma EligibleIff(m: MemberRow, agencies: seq<ActiveAgency>)
    ensures Eligible(m, agencies) <==> MayBeListed(m, agencies)
  {
    if Find(agencies, m.agencyId).Some? {
      var k := AgencyAt(agencies, m.agencyId);
    }
    if k :| 0 <= k < |agencies| && agencies[k].agencyId == m.agencyId {
      assert agencies[k] in agencies;
    }
  }

  lemma FirstIff(members: seq<MemberRow>, agencies: seq<ActiveAgency>, i: int)
    requires 0 <= i < |members|
    ensures FirstOf(members, agencies, i) <==> ListedAt(members, agencies, i)
  {
    forall q | 0 <= q < |members|
      ensures Eligible(members[q], agencies) <==> MayBeListed(members[q], agencies)
    {
      EligibleIff(members[q], agencies);
    }
    assert members[i].agentId in Owners(agencies) <==>
      exists k :: 0 <= k < |agencies| && agencies[k].owner.agentId == members[i].agentId;
  }

  lemma ListedIff(members: seq<MemberRow>, agencies: seq<ActiveAgency>, m: MemberRow)
    ensures m in ValidMembers(members, agencies) <==>
      exists i :: ListedAt(members, agencies, i) && members[i] == m
  {
    FirstRowWins(members, agencies, m);
    forall i | 0 <= i < |members|
      ensures FirstOf(members, agencies, i) <==> ListedAt(members, agencies, i)
    {
      FirstIff(members, agencies, i);
    }
  }

  // ---------- parents ----------

  // The recorded parent, or without one the inviter.
  function Asked(parentAgentId: Option<Id>, invitedByAgentId: Option<Id>): Option<Id> {
    match parentAgentId case Some(p) => Some(p) case None => invitedByAgentId
  }

  // The parent asked for is another agent of that agency.
  predicate IsColleague(shape: Shape, asked: Option<Id>, x: Id, agencyId: Id) {
    asked.Some? && asked.value != x && asked.value in shape.affiliation && shape.affiliation[asked.value] == agencyId
  }

  lemma OwnerIs(shape: Shape, k: int)
    requires WellShaped(shape) && 0 <= k < |shape.agencies|
    ensures Find(shape.agencies, shape.agencies[k].agencyId).Some?
    ensures OwnerOf(shape.agencies, shape.agencies[k].agencyId) == shape.agencies[k].owner.agentId
  {
    var j := AgencyAt(shape.agencies, shape.agencies[k].agencyId);
  }

  // A member asks for the recorded parent or the inviter, if that is a colleague, and
  // otherwise for the agency's owner.
  lemma RequestIs(shape: Shape, i: int, k: int)
    requires WellShaped(shape) && 0 <= i < |shape.members| && 0 <= k < |shape.agencies|
    requires shape.agencies[k].agencyId == shape.members[i].agencyId
    ensures
      var m := shape.members[i];
      var asked := Asked(m.parentAgentId, m.invitedByAgentId);
      ParentOf(shape.requested, m.agentId)
      == if IsColleague(shape, asked, m.agentId, m.agencyId) then asked else Some(shape.agencies[k].owner.agentId)
  {
    OwnerIs(shape, k);
  }

  // That parent is respected exactly when asking on from there leads to the owner.
  lemma MemberHangsUnder(shape: Shape, i: int, k: int)
    requires WellShaped(shape) && 0 <= i < |shape.members| && 0 <= k < |shape.agencies|
    requires shape.agencies[k].agencyId == shape.members[i].agencyId
    ensures
      var m, owner := shape.members[i], shape.agencies[k].owner.agentId;
      var asked := Asked(m.parentAgentId, m.invitedByAgentId);
      ParentOf(shape.normalized, m.agentId)
      == if IsColleague(shape, asked, m.agentId, m.agencyId) && AtOrAbove(shape.requested, owner, asked.value)
           then asked else Some(owner)
  {
    var m, owner := shape.members[i], shape.agencies[k].owner.agentId;
    RequestIs(shape, i, k);
    OwnerIs(shape, k);
    assert m in shape.members && shape.agencies[k] in shape.agencies;
    assert m.agentId in AgentIds(shape.members) && owner in Owners(shape.agencies);
    NormalizedEdge(shape, m.agentId);
    ClimbThrough(shape.requested, m.agentId, owner);
  }

  // Whoever is not the owner leads to the owner exactly if their parent does.
  lemma ClimbThrough(parents: ParentsMap, x: Id, owner: Id)
    requires x != owner && ParentOf(parents, x).Some?
    ensures AtOrAbove(parents, owner, x) <==> AtOrAbove(parents, owner, ParentOf(parents, x).value)
  {
    var p := ParentOf(parents, x).value;
    if n: nat :| UpN(parents, x, n) == Some(owner) {
      assert n > 0 && UpN(parents, p, n - 1) == Some(owner);
    }
    if n: nat :| UpN(parents, p, n) == Some(owner) {
      assert UpN(parents, x, n + 1) == Some(owner);
    }
  }

  // The owner of a sub-agency hangs below whoever is recorded as parent, or invited
  // them, if that is somebody of the parent agency; otherwise below its owner.
  lemma SubAgencyHangsUnder(rows: seq<AgencyRow>, root: ActiveAgency, now: Time, shape: Shape, up: ParentsMap, k: int,
                            j: int)
    requires RosterShape(rows, root, now, shape) && IsRosterParents(shape, up)
    requires 1 <= k < |shape.agencies| && 0 <= j < |shape.agencies|
    requires shape.agencies[k].parentAgencyId == Some(shape.agencies[j].agencyId)
    ensures
      var o := shape.agencies[k].owner;
      var asked := Asked(o.parentAgentId, o.invitedByAgentId);
      ParentOf(up, o.agentId)
      == if asked.Some? && asked.value in shape.affiliation
           && shape.affiliation[asked.value] == shape.agencies[j].agencyId
         then asked else Some(shape.agencies[j].owner.agentId)
  {
    OwnerIs(shape, j);
  }

  // ---------- rows ----------

  lemma {:induction false} MemberNodesExact(shape: Shape, n: int, now: Time)
    requires OneRowEach(shape.agencies, shape.members) && 0 <= n <= |shape.members|
    ensures
      var nodes := MemberNodes(shape, shape.members[..n], now);
      |nodes| == n && forall i :: 0 <= i < n ==>
        Find(shape.agencies, shape.members[i].agencyId).Some?
        && nodes[i] == MemberNode(shape, Find(shape.agencies, shape.members[i].agencyId).value, shape.members[i], now)
  {
    if n > 0 {
      MemberNodesExact(shape, n - 1, now);
      assert shape.members[..n][..n - 1] == shape.members[..n - 1];
      assert Eligible(shape.members[n - 1], shape.agencies);
    }
  }

  function AllNodes(root: ActiveAgency, now: Time, shape: Shape): seq<Node> {
    [RootNode(root)] + Hanging(shape, root.agencyId, now)
  }

  lemma RootApart(root: ActiveAgency, nodes: seq<Node>)
    requires DistinctNodes(nodes) && root.owner.agentId !in NodeSet(nodes)
    ensures DistinctNodes([RootNode(root)] + nodes)
  {
    assert NodeSet([RootNode(root)]) == {root.owner.agentId};
    DistinctNodesConcat([RootNode(root)], nodes);
  }

  lemma AllNodesDistinct(rows: seq<AgencyRow>, root: ActiveAgency, now: Time, shape: Shape)
    requires RosterShape(rows, root, now, shape)
    ensures DistinctNodes(AllNodes(root, now, shape))
  {
    var owners, people := AgencyNodes(shape, shape.agencies, root.agencyId), MemberNodes(shape, shape.members, now);
    HangingIs(rows, root, now, shape);
    NodesDistinct(shape, owners, people);
    RootApart(root, owners + people);
  }

  lemma RowOfNode(nodes: seq<Node>, result: seq<Row>, r: int, n: Node)
    requires DistinctNodes(nodes) && RowsComeFrom(nodes, result) && 0 <= r < |result|
    requires n in nodes && result[r].agentId == n.agentId
    ensures result[r] == RowOf(n, result[r].depth)
  {
    var n' :| n' in nodes && result[r] == RowOf(n', result[r].depth);
    assert n'.agentId == n.agentId;
  }

  // Each person has one row, made from their node.
  lemma RowIsNode(rows: seq<AgencyRow>, root: ActiveAgency, now: Time, shape: Shape, result: seq<Row>, n: Node)
    returns (r: int)
    requires RosterShape(rows, root, now, shape) && IsRoster(root, now, shape, result)
    requires n in AllNodes(root, now, shape) && n.agentId in People(shape)
    ensures 0 <= r < |result| && result[r] == RowOf(n, result[r].depth)
  {
    AllNodesDistinct(rows, root, now, shape);
    r := RowOfPerson(root, now, shape, result, n.agentId);
    RowOfNode(AllNodes(root, now, shape), result, r, n);
  }

  // What a member's node says.
  ghost predicate SaysMember(shape: Shape, n: Node, m: MemberRow, a: ActiveAgency, now: Time) {
    && n.agentId == m.agentId && n.name == m.name && n.kind == IsAgent
    && n.agencyId == m.agencyId && n.agencyName == a.agencyName && n.sortAt == m.joinedAt && n.sortId == m.membershipId
    && ShowsPlan(n.subscriptionStatus, m.subscription, now)
    && n.recruitmentStage == (match m.invitation case None => None case Some(x) => Some(x.stage))
    && n.parentAgentId == ParentOf(shape.normalized, m.agentId)
  }

  lemma MemberNodeSays(shape: Shape, m: MemberRow, a: ActiveAgency, now: Time)
    requires a.agencyId == m.agencyId && ParentOf(shape.normalized, m.agentId).Some?
    ensures SaysMember(shape, MemberNode(shape, a, m, now), m, a, now)
  {
  }

  lemma MemberHasNode(root: ActiveAgency, now: Time, shape: Shape, i: int, k: int) returns (n: Node)
    requires WellShaped(shape) && 0 <= i < |shape.members| && 0 <= k < |shape.agencies|
    requires shape.agencies[k].agencyId == shape.members[i].agencyId
    ensures n in AllNodes(root, now, shape)
    ensures SaysMember(shape, n, shape.members[i], shape.agencies[k], now)
  {
    var people := MemberNodes(shape, shape.members, now);
    MemberNodesExact(shape, |shape.members|, now);
    assert shape.members[..|shape.members|] == shape.members;
    AgencyTree.OwnerAt(shape, k);
    n := people[i];
    NormalizedIsTotal(shape);
    MemberNodeSays(shape, shape.members[i], shape.agencies[k], now);
    assert n in people;
  }

  // A member's row: their name, their agency, their own plan and the stage of their
  // invitation, under their normalized parent.
  lemma MemberIsShown(rows: seq<AgencyRow>, root: ActiveAgency, now: Time, shape: Shape, result: seq<Row>, i: int,
                      k: int)
    returns (r: int)
    requires RosterShape(rows, root, now, shape) && IsRoster(root, now, shape, result)
    requires 0 <= i < |shape.members| && 0 <= k < |shape.agencies|
    requires shape.agencies[k].agencyId == shape.members[i].agencyId
    ensures 0 <= r < |result|
    ensures
      var row, m := result[r], shape.members[i];
      && row.agentId == m.agentId && row.name == m.name && row.kind == IsAgent
      && row.agencyId == m.agencyId && row.agencyName == shape.agencies[k].agencyName
      && ShowsPlan(row.subscriptionStatus, m.subscription, now)
      && row.recruitmentStage == (match m.invitation case None => None case Some(x) => Some(x.stage))
      && row.parentAgentId == ParentOf(shape.normalized, m.agentId)
  {
    assert shape.members[i] in shape.members;
    var n := MemberHasNode(root, now, shape, i, k);
    r := RowIsNode(rows, root, now, shape, result, n);
  }

  // A sub-agency's row: its owner and name, the agency's plan and the stage of its
  // invitation.
  lemma AgencyIsShown(rows: seq<AgencyRow>, root: ActiveAgency, now: Time, shape: Shape, result: seq<Row>, k: int)
    returns (r: int)
    requires RosterShape(rows, root, now, shape) && IsRoster(root, now, shape, result) && 1 <= k < |shape.agencies|
    ensures 0 <= r < |result|
    ensures
      var row, a := result[r], shape.agencies[k];
      && row.agentId == a.owner.agentId && row.name == a.owner.name && row.kind == IsAgency
      && row.agencyId == a.agencyId && row.agencyName == a.agencyName
      && row.subscriptionStatus == a.owner.subscriptionStatus && row.recruitmentStage == a.owner.stage
      && row.parentAgentId == ParentOf(Up(Hanging(shape, root.agencyId, now)), a.owner.agentId)
  {
    var owners := AgencyNodes(shape, shape.agencies, root.agencyId);
    AllAgencyNodes(rows, root, now, shape);
    assert owners[k - 1] in AllNodes(root, now, shape) && shape.agencies[k] in shape.agencies;
    r := RowIsNode(rows, root, now, shape, result, owners[k - 1]);
  }

  // The first row is the requesting owner's, under nobody and without a stage.
  lemma RootIsShown(rootRow: RootRow, rows: seq<AgencyRow>, now: Time, shape: Shape, result: seq<Row>)
    requires rootRow.currentPlan.Some? && RosterShape(rows, RootAgency(rootRow), now, shape)
    requires IsRoster(RootAgency(rootRow), now, shape, result)
    ensures result != [] && result[0] ==
      Row(rootRow.agentId, rootRow.name, None, 0, IsSelf, rootRow.agencyId, rootRow.agencyName,
          WithStatus(rootRow.currentPlan.value), None)
  {
    var root := RootAgency(rootRow);
    assert shape.agencies[0] in shape.agencies;
    assert Entries(result)[0] == Entry(root.owner.agentId, 0);
    var r := RowIsNode(rows, root, now, shape, result, RootNode(root));
    assert Entries(result)[r].id == Entries(result)[0].id;
  }
}
