/**
 Which agencies the roster shows (lib/agency-tree.ts): a breadth-first walk over
 agency rows that admits a child agency only through the accepted AGENCY
 invitation of its exact parent, and never shows an owner twice. Agency rows may
 be cyclic and their links may be missing or inconsistent.
 */
module AgencyAdmission {
  import opened Wrappers
  import opened Hierarchy
  import opened ParentGraph
  import opened Tables

  datatype Shown = NoSubscription | WithStatus(status: Status)

  datatype SubscriptionRow = SubscriptionRow(status: Status, periodStart: Option<Time>, periodEnd: Option<Time>)

  datatype InvitationRow = InvitationRow(
    agencyId: Id, acceptedAgentId: Option<Id>, acceptedPlan: Option<Plan>, status: InvitationStatus, stage: Stage)

  // The newest active owner membership of an agency, if there is one.
  datatype OwnerRow = OwnerRow(
    membershipId: Id, agentId: Id, name: string, parentAgentId: Option<Id>, invitedByAgentId: Option<Id>,
      joinedAt: Time,
    invitation: Option<InvitationRow>)

  // Agency rows come in (createdAt, id) order, each with its newest agency plan.
  datatype AgencyRow = AgencyRow(
    id: Id, name: string, parentAgencyId: Option<Id>, owner: Option<OwnerRow>, subscription: Option<SubscriptionRow>)

  datatype ActiveOwner = ActiveOwner(
    membershipId: Id, agentId: Id, name: string, parentAgentId: Option<Id>, invitedByAgentId: Option<Id>,
      joinedAt: Time,
    subscriptionStatus: Shown, stage: Option<Stage>)

  datatype ActiveAgency = ActiveAgency(agencyId: Id, agencyName: string, parentAgencyId: Option<Id>, depth: nat,
    owner: ActiveOwner)

  function LatestStatus(subscription: Option<SubscriptionRow>, now: Time): Shown {
    match subscription
    case None => NoSubscription
    case Some(s) =>
      if Entitling(s.status)
        && ((s.periodStart.Some? && s.periodStart.value > now) || (s.periodEnd.Some? && s.periodEnd.value <= now))
      then WithStatus(Expired)
      else WithStatus(s.status)
  }

  // ---------- links ----------

  // The row's owner accepted the AGENCY invitation of exactly this parent.
  predicate LinkedTo(row: AgencyRow, parentId: Id) {
    && row.parentAgencyId == Some(parentId) && row.owner.Some? && row.owner.value.invitation.Some?
    && var invitation := row.owner.value.invitation.value;
    && invitation.status == Accepted && invitation.acceptedPlan == Some(AgencyPlan)
    && invitation.agencyId == parentId && invitation.acceptedAgentId == Some(row.owner.value.agentId)
  }

  function Admitted(row: AgencyRow, parent: ActiveAgency, now: Time): ActiveAgency
    requires LinkedTo(row, parent.agencyId)
  {
    var o := row.owner.value;
    ActiveAgency(row.id, row.name, row.parentAgencyId, parent.depth + 1,
                 ActiveOwner(o.membershipId, o.agentId, o.name, o.parentAgentId, o.invitedByAgentId, o.joinedAt,
                             LatestStatus(row.subscription, now), Some(o.invitation.value.stage)))
  }

  function Find(agencies: seq<ActiveAgency>, id: Id): (r: Option<ActiveAgency>)
    ensures r.Some? ==> r.value in agencies && r.value.agencyId == id
    ensures r.None? ==> forall a :: a in agencies ==> a.agencyId != id
  {
    if agencies == [] then None
    else if agencies[|agencies| - 1].agencyId == id then Some(agencies[|agencies| - 1])
    else Find(agencies[..|agencies| - 1], id)
  }

  // ---------- what the walk promises ----------

  ghost predicate DistinctAgencies(agencies: seq<ActiveAgency>) {
    forall j, k :: 0 <= j < k < |agencies| ==>
      agencies[j].agencyId != agencies[k].agencyId && agencies[j].owner.agentId != agencies[k].owner.agentId
  }

  ghost predicate UniqueRows(rows: seq<AgencyRow>) {
    forall r, s :: 0 <= r < s < |rows| ==> rows[r].id != rows[s].id
  }

  // Agency k comes from row r, through the agency at an earlier position j.
  ghost predicate AdmittedFrom(rows: seq<AgencyRow>, now: Time, agencies: seq<ActiveAgency>, k: int, j: int, r: int)
    requires 0 <= k < |agencies|
  {
    && 0 <= j < k && 0 <= r < |rows| && LinkedTo(rows[r], agencies[j].agencyId)
    && agencies[k] == Admitted(rows[r], agencies[j], now)
  }

  ghost predicate Sourced(rows: seq<AgencyRow>, now: Time, agencies: seq<ActiveAgency>, k: int)
    requires 0 <= k < |agencies|
  {
    exists j, r :: AdmittedFrom(rows, now, agencies, k, j, r)
  }

  // A generation comes before the next one; inside a generation, row order decides.
  ghost predicate Before(rows: seq<AgencyRow>, agency: ActiveAgency, depth: nat, r: int) {
    agency.depth < depth
      || (agency.depth == depth && exists q :: 0 <= q < r && q < |rows| && rows[q].id == agency.agencyId)
  }

  ghost predicate InOrder(rows: seq<AgencyRow>, agencies: seq<ActiveAgency>) {
    forall j, k, r :: 0 <= j < k < |agencies| && 0 <= r < |rows| && rows[r].id == agencies[k].agencyId ==>
      Before(rows, agencies[j], agencies[k].depth, r)
  }

  ghost predicate Shows(agencies: seq<ActiveAgency>, id: Id) {
    exists k :: 0 <= k < |agencies| && agencies[k].agencyId == id
  }

  // Somebody shown earlier is already the owner of this row's agency.
  ghost predicate OwnerTaken(rows: seq<AgencyRow>, agencies: seq<ActiveAgency>, r: int, depth: nat)
    requires 0 <= r < |rows| && rows[r].owner.Some?
  {
    exists k ::
      0 <= k < |agencies| && agencies[k].owner.agentId == rows[r].owner.value.agentId
      && Before(rows, agencies[k], depth, r)
  }

  // A linked row is shown, unless its owner was shown before.
  ghost predicate Settled(rows: seq<AgencyRow>, agencies: seq<ActiveAgency>, j: int, r: int)
    requires 0 <= j < |agencies| && 0 <= r < |rows|
  {
    LinkedTo(rows[r], agencies[j].agencyId) ==>
      Shows(agencies, rows[r].id) || OwnerTaken(rows, agencies, r, agencies[j].depth + 1)
  }

  ghost predicate IsAdmission(rows: seq<AgencyRow>, root: ActiveAgency, now: Time, agencies: seq<ActiveAgency>) {
    && agencies != [] && agencies[0] == root
    && DistinctAgencies(agencies)
    && InOrder(rows, agencies)
    && (forall k :: 1 <= k < |agencies| ==> Sourced(rows, now, agencies, k))
    && (forall j, r :: 0 <= j < |agencies| && 0 <= r < |rows| ==> Settled(rows, agencies, j, r))
  }

  // ---------- appending one agency ----------

  lemma AppendSourced(rows: seq<AgencyRow>, now: Time, agencies: seq<ActiveAgency>, j: int, r: int, a: ActiveAgency)
    requires forall k :: 1 <= k < |agencies| ==> Sourced(rows, now, agencies, k)
    requires 0 <= j < |agencies| && 0 <= r < |rows| && LinkedTo(rows[r], agencies[j].agencyId)
    requires a == Admitted(rows[r], agencies[j], now)
    ensures forall k :: 1 <= k < |agencies + [a]| ==> Sourced(rows, now, agencies + [a], k)
  {
    var longer := agencies + [a];
    forall k | 1 <= k < |longer|
      ensures Sourced(rows, now, longer, k)
    {
      if k < |agencies| {
        assert Sourced(rows, now, agencies, k);
        var i, q :| AdmittedFrom(rows, now, agencies, k, i, q);
        assert AdmittedFrom(rows, now, longer, k, i, q);
      } else {
        assert AdmittedFrom(rows, now, longer, k, j, r);
      }
    }
  }

  lemma SettledStays(rows: seq<AgencyRow>, agencies: seq<ActiveAgency>, a: ActiveAgency, j: int, r: int)
    requires 0 <= j < |agencies| && 0 <= r < |rows| && Settled(rows, agencies, j, r)
    ensures Settled(rows, agencies + [a], j, r)
  {
    var longer := agencies + [a];
    assert forall k :: 0 <= k < |agencies| ==> longer[k] == agencies[k];
    if LinkedTo(rows[r], agencies[j].agencyId) {
      if Shows(agencies, rows[r].id) {
        var k :| 0 <= k < |agencies| && agencies[k].agencyId == rows[r].id;
        assert longer[k].agencyId == rows[r].id;
      } else {
        var k :| 0 <= k < |agencies| && agencies[k].owner.agentId == rows[r].owner.value.agentId
          && Before(rows, agencies[k], agencies[j].depth + 1, r);
        assert longer[k].owner.agentId == rows[r].owner.value.agentId;
      }
    }
  }

  // While generation `depth` is being collected, everything shown is Before the
  // row under the cursor.
  ghost predicate AllBefore(rows: seq<AgencyRow>, agencies: seq<ActiveAgency>, depth: nat, r: int) {
    forall k :: 0 <= k < |agencies| ==> Before(rows, agencies[k], depth, r)
  }

  lemma AppendInOrder(rows: seq<AgencyRow>, agencies: seq<ActiveAgency>, a: ActiveAgency, r: int)
    requires UniqueRows(rows) && InOrder(rows, agencies) && AllBefore(rows, agencies, a.depth, r)
    requires 0 <= r < |rows| && rows[r].id == a.agencyId
    ensures InOrder(rows, agencies + [a]) && AllBefore(rows, agencies + [a], a.depth, r + 1)
  {
  }

  // ---------- the walk ----------

  function Agencies(agencies: seq<ActiveAgency>): set<Id> {
    set a | a in agencies :: a.agencyId
  }

  function Owners(agencies: seq<ActiveAgency>): set<Id> {
    set a | a in agencies :: a.owner.agentId
  }

  function RowIds(rows: seq<AgencyRow>): set<Id> {
    set row | row in rows :: row.id
  }

  // The agencies collected before the current generation have all their rows settled;
  // those of the frontier, the rows before the cursor.
  ghost predicate Progress(rows: seq<AgencyRow>, now: Time, root: ActiveAgency, agencies: seq<ActiveAgency>,
                           frontier: set<Id>, depth: nat, cursor: int) {
    && agencies != [] && agencies[0] == root && DistinctAgencies(agencies) && InOrder(rows, agencies)
    && AllBefore(rows, agencies, depth, cursor)
    && (forall k :: 1 <= k < |agencies| ==> Sourced(rows, now, agencies, k))
    && (forall j :: 0 <= j < |agencies| ==> (agencies[j].agencyId in frontier <==> agencies[j].depth + 1 == depth))
    && (forall j, r ::
      0 <= j < |agencies| && 0 <= r < |rows|
      && (agencies[j].depth + 1 < depth || (agencies[j].depth + 1 == depth && r < cursor)) ==>
        Settled(rows, agencies, j, r))
  }

  lemma AdmitRow(rows: seq<AgencyRow>, now: Time, root: ActiveAgency, agencies: seq<ActiveAgency>, frontier: set<Id>,
                 depth: nat, r: int, j: int)
    requires UniqueRows(rows) && 0 <= r < |rows| && Progress(rows, now, root, agencies, frontier, depth, r)
    requires 0 <= j < |agencies| && agencies[j].depth + 1 == depth && LinkedTo(rows[r], agencies[j].agencyId)
    requires rows[r].id !in Agencies(agencies) && rows[r].owner.value.agentId !in Owners(agencies)
    requires rows[r].id !in frontier
    ensures Progress(rows, now, root, agencies + [Admitted(rows[r], agencies[j], now)], frontier, depth, r + 1)
  {
    var a := Admitted(rows[r], agencies[j], now);
    var longer := agencies + [a];
    AppendSourced(rows, now, agencies, j, r, a);
    AppendInOrder(rows, agencies, a, r);
    forall i, s | 0 <= i < |longer| && 0 <= s < |rows|
      && (longer[i].depth + 1 < depth || (longer[i].depth + 1 == depth && s < r + 1))
      ensures Settled(rows, longer, i, s)
    {
      if s == r {
        assert longer[|agencies|].agencyId == rows[r].id;
      } else {
        SettledStays(rows, agencies, a, i, s);
      }
    }
  }

  lemma RowSettled(rows: seq<AgencyRow>, now: Time, root: ActiveAgency, agencies: seq<ActiveAgency>, frontier: set<Id>,
                   depth: nat, r: int)
    requires 0 <= r < |rows| && Progress(rows, now, root, agencies, frontier, depth, r)
    requires
      || rows[r].parentAgencyId.None? || rows[r].parentAgencyId.value !in frontier
      || rows[r].id in Agencies(agencies) || rows[r].owner.None? || rows[r].owner.value.agentId in Owners(agencies)
      || !LinkedTo(rows[r], rows[r].parentAgencyId.value)
    ensures Progress(rows, now, root, agencies, frontier, depth, r + 1)
  {
  }

  function Generation(agencies: seq<ActiveAgency>, depth: nat): set<Id> {
    set a | a in agencies && a.depth == depth :: a.agencyId
  }

  lemma NextGeneration(rows: seq<AgencyRow>, now: Time, root: ActiveAgency, agencies: seq<ActiveAgency>,
                       frontier: set<Id>, depth: nat)
    requires Progress(rows, now, root, agencies, frontier, depth, |rows|)
    ensures Progress(rows, now, root, agencies, Generation(agencies, depth), depth + 1, 0)
  {
  }

  lemma Finished(rows: seq<AgencyRow>, now: Time, root: ActiveAgency, agencies: seq<ActiveAgency>, depth: nat)
    requires Progress(rows, now, root, agencies, {}, depth, 0)
    ensures IsAdmission(rows, root, now, agencies)
  {
  }

  lemma AppendIds(agencies: seq<ActiveAgency>, a: ActiveAgency, depth: nat)
    ensures Agencies(agencies + [a]) == Agencies(agencies) + {a.agencyId}
    ensures Owners(agencies + [a]) == Owners(agencies) + {a.owner.agentId}
    ensures Generation(agencies + [a], depth) == Generation(agencies, depth)
        + (if a.depth == depth then {a.agencyId} else {})
  {
  }

  lemma ParentIndex(rows: seq<AgencyRow>, now: Time, root: ActiveAgency, agencies: seq<ActiveAgency>, frontier: set<Id>,
                    depth: nat, r: int, id: Id) returns (j: int)
    requires Progress(rows, now, root, agencies, frontier, depth, r) && Find(agencies, id).Some? && id in frontier
    ensures 0 <= j < |agencies| && agencies[j] == Find(agencies, id).value && agencies[j].depth + 1 == depth
  {
    j :| 0 <= j < |agencies| && agencies[j] == Find(agencies, id).value;
  }

  // The inner loop: the next generation, in row order.
  method AdmitGeneration(rows: seq<AgencyRow>, now: Time, frontier: set<Id>, known: seq<ActiveAgency>,
                         ghost root: ActiveAgency, ghost depth: nat)
    returns (agencies: seq<ActiveAgency>, nextFrontier: set<Id>)
    requires UniqueRows(rows) && Progress(rows, now, root, known, frontier, depth, 0) && frontier <= Agencies(known)
    ensures Progress(rows, now, root, agencies, frontier, depth, |rows|) && nextFrontier == Generation(agencies, depth)
    ensures Agencies(known) <= Agencies(agencies) <= Agencies(known) + RowIds(rows)
    ensures nextFrontier != {} ==> Agencies(known) < Agencies(agencies)
  {
    agencies, nextFrontier := known, {};
    var visited, visibleOwners := Agencies(known), Owners(known);
    for i := 0 to |rows|
      invariant Progress(rows, now, root, agencies, frontier, depth, i)
      invariant visited == Agencies(agencies) && visibleOwners == Owners(agencies)
      invariant Agencies(known) <= visited <= Agencies(known) + RowIds(rows)
      invariant nextFrontier == Generation(agencies, depth) && (nextFrontier != {} ==> Agencies(known) < visited)
    {
      var candidate := rows[i];
      if candidate.parentAgencyId.Some? && candidate.parentAgencyId.value in frontier && candidate.id !in visited {
        var parent := Find(agencies, candidate.parentAgencyId.value);
        if parent.Some? && candidate.owner.Some? && candidate.owner.value.agentId !in visibleOwners
          && LinkedTo(candidate, candidate.parentAgencyId.value)
        {
          var activeAgency := Admitted(candidate, parent.value, now);
          ghost var j := ParentIndex(rows, now, root, agencies, frontier, depth, i, candidate.parentAgencyId.value);
          AdmitRow(rows, now, root, agencies, frontier, depth, i, j);
          AppendIds(agencies, activeAgency, depth);
          assert candidate in rows;
          agencies := agencies + [activeAgency];
          visited := visited + {activeAgency.agencyId};
          visibleOwners := visibleOwners + {activeAgency.owner.agentId};
          nextFrontier := nextFrontier + {activeAgency.agencyId};
          continue;
        }
      }
      RowSettled(rows, now, root, agencies, frontier, depth, i);
    }
  }

  // One generation at a time, until a generation admits nobody.
  method AdmitAgencies(rows: seq<AgencyRow>, root: ActiveAgency, now: Time) returns (agencies: seq<ActiveAgency>)
    requires UniqueRows(rows) && root.depth == 0
    ensures IsAdmission(rows, root, now, agencies)
  {
    agencies := [root];
    var frontier := {root.agencyId};
    ghost var depth: nat := 1;
    while frontier != {}
      invariant Progress(rows, now, root, agencies, frontier, depth, 0) && frontier <= Agencies(agencies)
      invariant Agencies(agencies) <= RowIds(rows) + {root.agencyId}
      decreases RowIds(rows) + {root.agencyId} - Agencies(agencies), frontier
    {
      var nextFrontier;
      agencies, nextFrontier := AdmitGeneration(rows, now, frontier, agencies, root, depth);
      NextGeneration(rows, now, root, agencies, frontier, depth);
      frontier := nextFrontier;
      depth := depth + 1;
    }
    Finished(rows, now, root, agencies, depth);
  }

  // ---------- exactly the agencies whose links lead to the root ----------

  // Each row's link to its parent, if it is one the walk accepts; the root links nowhere.
  function Links(rows: seq<AgencyRow>, rootId: Id): ParentsMap {
    if rows == [] then map[]
    else
      var row := rows[|rows| - 1];
      var linked := row.id != rootId && row.parentAgencyId.Some? && LinkedTo(row, row.parentAgencyId.value);
      Links(rows[..|rows| - 1], rootId)[row.id := if linked then row.parentAgencyId else None]
  }

  lemma {:induction false} LinkIsRow(rows: seq<AgencyRow>, rootId: Id, r: int)
    requires UniqueRows(rows) && 0 <= r < |rows|
    ensures forall p ::
      ParentOf(Links(rows, rootId), rows[r].id) == Some(p) <==> rows[r].id != rootId && LinkedTo(rows[r], p)
  {
    if r < |rows| - 1 {
      LinkIsRow(rows[..|rows| - 1], rootId, r);
    }
  }

  lemma {:induction false} LinkHasRow(rows: seq<AgencyRow>, rootId: Id, id: Id) returns (r: int)
    requires ParentOf(Links(rows, rootId), id).Some?
    ensures 0 <= r < |rows| && rows[r].id == id && id != rootId
  {
    if rows[|rows| - 1].id == id {
      r := |rows| - 1;
    } else {
      r := LinkHasRow(rows[..|rows| - 1], rootId, id);
    }
  }

  predicate OwnedBy(rows: seq<AgencyRow>, r: int, g: Id) {
    0 <= r < |rows| && rows[r].owner.Some? && rows[r].owner.value.agentId == g
  }

  // No two agencies, the root's included, have the same owner.
  ghost predicate DistinctOwners(rows: seq<AgencyRow>, root: ActiveAgency) {
    && (forall r, s, g :: OwnedBy(rows, r, g) && OwnedBy(rows, s, g) ==> r == s)
    && (forall r :: OwnedBy(rows, r, root.owner.agentId) ==> rows[r].id == root.agencyId)
  }

  lemma {:induction false} ShownReachesRoot(rows: seq<AgencyRow>, root: ActiveAgency, now: Time,
                                            agencies: seq<ActiveAgency>, k: int)
    requires UniqueRows(rows) && root.depth == 0 && IsAdmission(rows, root, now, agencies) && 0 <= k < |agencies|
    ensures UpN(Links(rows, root.agencyId), agencies[k].agencyId, agencies[k].depth) == Some(root.agencyId)
    decreases k
  {
    if k > 0 {
      assert Sourced(rows, now, agencies, k);
      var j, r :| AdmittedFrom(rows, now, agencies, k, j, r);
      LinkIsRow(rows, root.agencyId, r);
      assert ParentOf(Links(rows, root.agencyId), agencies[k].agencyId) == Some(agencies[j].agencyId);
      ShownReachesRoot(rows, root, now, agencies, j);
    }
  }

  lemma OwnerNotTaken(rows: seq<AgencyRow>, root: ActiveAgency, now: Time, agencies: seq<ActiveAgency>, r: int,
                      depth: nat)
    requires DistinctOwners(rows, root) && IsAdmission(rows, root, now, agencies)
    requires 0 <= r < |rows| && rows[r].owner.Some? && rows[r].id != root.agencyId
    ensures OwnerTaken(rows, agencies, r, depth) ==> Shows(agencies, rows[r].id)
  {
    if OwnerTaken(rows, agencies, r, depth) {
      var k :| 0 <= k < |agencies| && agencies[k].owner.agentId == rows[r].owner.value.agentId
        && Before(rows, agencies[k], depth, r);
      assert OwnedBy(rows, r, agencies[k].owner.agentId);
      if k > 0 {
        assert Sourced(rows, now, agencies, k);
        var j, q :| AdmittedFrom(rows, now, agencies, k, j, q);
        assert OwnedBy(rows, q, agencies[k].owner.agentId);
        assert agencies[k].agencyId == rows[r].id;
      }
    }
  }

  lemma {:induction false} LinkedIsShown(rows: seq<AgencyRow>, root: ActiveAgency, now: Time,
                                         agencies: seq<ActiveAgency>, id: Id, n: nat)
    requires UniqueRows(rows) && DistinctOwners(rows, root) && IsAdmission(rows, root, now, agencies)
    requires UpN(Links(rows, root.agencyId), id, n) == Some(root.agencyId)
    ensures Shows(agencies, id)
    decreases n
  {
    if n == 0 {
      assert agencies[0].agencyId == id;
    } else {
      var p := ParentOf(Links(rows, root.agencyId), id).value;
      LinkedIsShown(rows, root, now, agencies, p, n - 1);
      var j :| 0 <= j < |agencies| && agencies[j].agencyId == p;
      var r := LinkHasRow(rows, root.agencyId, id);
      LinkIsRow(rows, root.agencyId, r);
      assert Settled(rows, agencies, j, r);
      OwnerNotTaken(rows, root, now, agencies, r, agencies[j].depth + 1);
    }
  }

  // With distinct owners the roster shows exactly the agencies whose chain of
  // accepted exact-parent invitations reaches the root, at the length of the chain.
  lemma ShownIffLinked(rows: seq<AgencyRow>, root: ActiveAgency, now: Time, agencies: seq<ActiveAgency>, id: Id)
    requires UniqueRows(rows) && root.depth == 0 && DistinctOwners(rows, root) && IsAdmission(rows, root, now, agencies)
    ensures Shows(agencies, id) <==> exists n: nat :: UpN(Links(rows, root.agencyId), id, n) == Some(root.agencyId)
    ensures forall k, n: nat ::
      0 <= k < |agencies| && agencies[k].agencyId == id
      && UpN(Links(rows, root.agencyId), id, n) == Some(root.agencyId) ==>
        agencies[k].depth == n
  {
    if Shows(agencies, id) {
      var k :| 0 <= k < |agencies| && agencies[k].agencyId == id;
      ShownReachesRoot(rows, root, now, agencies, k);
    }
    if n: nat :| UpN(Links(rows, root.agencyId), id, n) == Some(root.agencyId) {
      LinkedIsShown(rows, root, now, agencies, id, n);
    }
    forall k, n: nat | 0 <= k < |agencies| && agencies[k].agencyId == id
      && UpN(Links(rows, root.agencyId), id, n) == Some(root.agencyId)
      ensures agencies[k].depth == n
    {
      ShownReachesRoot(rows, root, now, agencies, k);
      OneDistance(rows, root.agencyId, id, agencies[k].depth, n);
    }
  }

  // With distinct owners whatever is linked to a shown agency is shown one deeper.
  lemma LinkedChildIsShown(rows: seq<AgencyRow>, root: ActiveAgency, now: Time, agencies: seq<ActiveAgency>, j: int,
                           r: int)
    requires UniqueRows(rows) && DistinctOwners(rows, root) && IsAdmission(rows, root, now, agencies)
    requires 0 <= j < |agencies| && 0 <= r < |rows| && rows[r].id != root.agencyId
    requires LinkedTo(rows[r], agencies[j].agencyId)
    ensures exists k :: 0 <= k < |agencies| && agencies[k] == Admitted(rows[r], agencies[j], now)
  {
    assert Settled(rows, agencies, j, r);
    OwnerNotTaken(rows, root, now, agencies, r, agencies[j].depth + 1);
    var k :| 0 <= k < |agencies| && agencies[k].agencyId == rows[r].id;
    var i, s := RowOfAgency(rows, root, now, agencies, k);
    assert s == r && i == j;
  }

  // The owner of row r is shown for another agency.
  ghost predicate OwnsAnother(rows: seq<AgencyRow>, agencies: seq<ActiveAgency>, r: int)
    requires 0 <= r < |rows|
  {
    exists k :: 0 <= k < |agencies| && OwnedBy(rows, r, agencies[k].owner.agentId) && agencies[k].agencyId != rows[r].id
  }

  // Without that assumption: an agency linked to a shown one is hidden exactly when
  // its owner is shown for another agency, and then that one comes before it.
  lemma HiddenIffOwnerShown(rows: seq<AgencyRow>, root: ActiveAgency, now: Time, agencies: seq<ActiveAgency>, j: int,
                            r: int)
    requires UniqueRows(rows) && IsAdmission(rows, root, now, agencies) && 0 <= j < |agencies| && 0 <= r < |rows|
    requires rows[r].id != root.agencyId && LinkedTo(rows[r], agencies[j].agencyId)
    ensures !Shows(agencies, rows[r].id) <==> OwnsAnother(rows, agencies, r)
    ensures !Shows(agencies, rows[r].id) ==> OwnerTaken(rows, agencies, r, agencies[j].depth + 1)
  {
    assert Settled(rows, agencies, j, r);
    if !Shows(agencies, rows[r].id) {
      var k :| 0 <= k < |agencies| && agencies[k].owner.agentId == rows[r].owner.value.agentId
        && Before(rows, agencies[k], agencies[j].depth + 1, r);
      assert OwnedBy(rows, r, agencies[k].owner.agentId);
    } else {
      var n :| 0 <= n < |agencies| && agencies[n].agencyId == rows[r].id;
      var i, s := RowOfAgency(rows, root, now, agencies, n);
      assert s == r;
    }
  }

  // Two agencies of one owner, both linked to the root: the later row is hidden.
  lemma HidingHappens(now: Time)
    ensures
      var root := ActiveAgency(1, "root", None, 0, ActiveOwner(10, 100, "r", None, None, 0, NoSubscription, None));
      var owner :=
        OwnerRow(20, 200, "o", Some(100), Some(100), 0,
        Some(InvitationRow(1, Some(200), Some(AgencyPlan), Accepted, ActiveStage)));
      var rows := [AgencyRow(2, "a", Some(1), Some(owner), None), AgencyRow(3, "b", Some(1), Some(owner), None)];
      var agencies := [root, Admitted(rows[0], root, now)];
      UniqueRows(rows) && IsAdmission(rows, root, now, agencies) && LinkedTo(rows[1], root.agencyId)
        && !Shows(agencies, 3)
  {
    var root := ActiveAgency(1, "root", None, 0, ActiveOwner(10, 100, "r", None, None, 0, NoSubscription, None));
    var owner :=
      OwnerRow(20, 200, "o", Some(100), Some(100), 0,
      Some(InvitationRow(1, Some(200), Some(AgencyPlan), Accepted, ActiveStage)));
    var rows := [AgencyRow(2, "a", Some(1), Some(owner), None), AgencyRow(3, "b", Some(1), Some(owner), None)];
    var agencies := [root, Admitted(rows[0], root, now)];
    assert AdmittedFrom(rows, now, agencies, 1, 0, 0);
    assert agencies[1].agencyId == 2 && rows[0].id == agencies[1].agencyId;
    assert OwnerTaken(rows, agencies, 1, 1);
  }

  lemma RootLinksNowhere(rows: seq<AgencyRow>, rootId: Id)
    ensures ParentOf(Links(rows, rootId), rootId) == None
  {
  }

  lemma {:induction false} OneDistance(rows: seq<AgencyRow>, rootId: Id, id: Id, m: nat, n: nat)
    requires UpN(Links(rows, rootId), id, m) == Some(rootId) && UpN(Links(rows, rootId), id, n) == Some(rootId)
    ensures m == n
    decreases m
  {
    RootLinksNowhere(rows, rootId);
    if m > 0 && n > 0 {
      OneDistance(rows, rootId, ParentOf(Links(rows, rootId), id).value, m - 1, n - 1);
    }
  }

  // ---------- the rows determine what is shown ----------

  lemma RowOfAgency(rows: seq<AgencyRow>, root: ActiveAgency, now: Time, a: seq<ActiveAgency>, n: int)
    returns (j: int, r: int)
    requires IsAdmission(rows, root, now, a) && 1 <= n < |a|
    ensures AdmittedFrom(rows, now, a, n, j, r)
  {
    assert Sourced(rows, now, a, n);
    j, r :| AdmittedFrom(rows, now, a, n, j, r);
  }

  // A row is shown at one depth only: one more than its parent's.
  lemma ShownDepth(rows: seq<AgencyRow>, root: ActiveAgency, now: Time, b: seq<ActiveAgency>, j: int, k: int, r: int)
    requires UniqueRows(rows) && IsAdmission(rows, root, now, b) && 0 <= j < |b| && 1 <= k < |b|
    requires 0 <= r < |rows| && LinkedTo(rows[r], b[j].agencyId) && b[k].agencyId == rows[r].id
    ensures b[k].depth == b[j].depth + 1
  {
    var i, s := RowOfAgency(rows, root, now, b, k);
    assert s == r && b[i].agencyId == b[j].agencyId;
  }

  // If two admissions agree so far and one goes on with row r, the other goes on too,
  // and with no later row.
  lemma OtherGoesOn(rows: seq<AgencyRow>, root: ActiveAgency, now: Time, a: seq<ActiveAgency>, b: seq<ActiveAgency>,
                    n: int, j: int, r: int)
    requires UniqueRows(rows) && IsAdmission(rows, root, now, a) && IsAdmission(rows, root, now, b)
    requires 1 <= n < |a| && n <= |b| && a[..n] == b[..n] && AdmittedFrom(rows, now, a, n, j, r)
    ensures n < |b|
    ensures b[n].depth < a[n].depth
        || (b[n].depth == a[n].depth && exists q :: 0 <= q <= r && rows[q].id == b[n].agencyId)
  {
    assert forall i :: 0 <= i < n ==> a[..n][i] == a[i] && b[..n][i] == b[i];
    assert Settled(rows, b, j, r);
    if k :| 0 <= k < |b| && b[k].agencyId == rows[r].id {
      assert k >= n;
      ShownDepth(rows, root, now, b, j, k, r);
      assert n < k ==> Before(rows, b[n], b[k].depth, r);
    } else {
      var k :| 0 <= k < |b| && b[k].owner.agentId == rows[r].owner.value.agentId
        && Before(rows, b[k], b[j].depth + 1, r);
      assert k >= n;
      var i, s := RowOfAgency(rows, root, now, b, k);
      assert n < k ==> Before(rows, b[n], b[k].depth, s);
    }
  }

  lemma {:induction false} SamePrefix(rows: seq<AgencyRow>, root: ActiveAgency, now: Time, a: seq<ActiveAgency>,
                                      b: seq<ActiveAgency>, n: nat)
    requires UniqueRows(rows) && IsAdmission(rows, root, now, a) && IsAdmission(rows, root, now, b) && n <= |a|
    ensures n <= |b| && a[..n] == b[..n]
  {
    if n > 1 {
      SamePrefix(rows, root, now, a, b, n - 1);
      var j, r := RowOfAgency(rows, root, now, a, n - 1);
      OtherGoesOn(rows, root, now, a, b, n - 1, j, r);
      var i, s := RowOfAgency(rows, root, now, b, n - 1);
      OtherGoesOn(rows, root, now, b, a, n - 1, i, s);
      assert r == s;
      assert a[..n - 1][j] == b[..n - 1][j];
      assert a[n - 1] == b[n - 1];
    }
  }

  // The promises of the walk leave nothing open: same rows, same agencies, same order.
  lemma AdmissionIsUnique(rows: seq<AgencyRow>, root: ActiveAgency, now: Time, a: seq<ActiveAgency>,
                          b: seq<ActiveAgency>)
    requires UniqueRows(rows) && IsAdmission(rows, root, now, a) && IsAdmission(rows, root, now, b)
    ensures a == b
  {
    SamePrefix(rows, root, now, a, b, |a|);
    SamePrefix(rows, root, now, b, a, |b|);
  }
}
