/**
 Finalization and the roster together: the rows the roster is built from, fetched
 from the commercial tables, have distinct owners, and the owner of an accepted
 agency appears under the owner of the agency that invited it.
 */
module FinalizationRoster {
  import opened Wrappers
  import opened Hierarchy
  import opened ParentGraph
  import opened Tables
  import opened Finalization
  import opened FinalizationStore
  import opened FinalizationInvariant
  import opened FinalizationRuns
  import FinalizationAccess
  import opened AgencyAdmission
  import opened AgencyRoster
  import Tree = AgencyTree

  // ---------- the query ----------

  // An active OWNER membership of an active agent.
  predicate Owns(db: Db, m: Id, agencyId: Id, g: Id) {
    ActiveAs(db, m, agencyId, g) && db.memberships[m].role == Owner && AgentActive(db, g)
  }

  predicate JoinedLater(db: Db, m: Id, n: Id)
    requires m in db.memberships && n in db.memberships
  {
    var a, b := db.memberships[m].joinedAt, db.memberships[n].joinedAt;
    a > b || (a == b && m > n)
  }

  ghost predicate NewestOwner(db: Db, m: Id, agencyId: Id, g: Id) {
    Owns(db, m, agencyId, g) && forall n, h :: Owns(db, n, agencyId, h) && n != m ==> JoinedLater(db, m, n)
  }

  // What the roster sees of the invitation related to a membership.
  function Seen(inv: Invitation): InvitationRow {
    InvitationRow(inv.agencyId, inv.acceptedAgentId, inv.acceptedPlan, inv.status, inv.stage)
  }

  ghost predicate FetchedInvitation(db: Db, m: Id, invitation: Option<InvitationRow>) {
    if invitation.None? then forall i :: !RelatedTo(db, i, m)
    else exists i :: RelatedTo(db, i, m) && invitation.value == Seen(db.invitations[i])
  }

  ghost predicate FetchedAgency(db: Db, row: AgencyRow) {
    && row.id in db.agencies && row.parentAgencyId == db.agencies[row.id].parentAgencyId
    && if row.owner.None? then forall m, g :: !Owns(db, m, row.id, g)
       else
         && NewestOwner(db, row.owner.value.membershipId, row.id, row.owner.value.agentId)
         && FetchedInvitation(db, row.owner.value.membershipId, row.owner.value.invitation)
  }

  ghost predicate FetchedAgencies(db: Db, rows: seq<AgencyRow>) {
    && UniqueRows(rows) && (forall r :: 0 <= r < |rows| ==> FetchedAgency(db, rows[r]))
    && (forall a :: a in db.agencies ==> exists r :: 0 <= r < |rows| && rows[r].id == a)
  }

  // The agency of the owner who asks for the roster.
  predicate IsRoot(db: Db, root: ActiveAgency) {
    root.depth == 0 && Owns(db, root.owner.membershipId, root.agencyId, root.owner.agentId)
  }

  // ---------- distinct owners ----------

  lemma OwnerOfRow(db: Db, rows: seq<AgencyRow>, r: int, g: Id)
    requires FetchedAgencies(db, rows) && OwnedBy(rows, r, g)
    ensures Owns(db, rows[r].owner.value.membershipId, rows[r].id, g)
  {
    assert FetchedAgency(db, rows[r]);
  }

  // The roster's assumption is a consequence of the invariant of finalization.
  lemma OwnersAreDistinct(db: Db, rows: seq<AgencyRow>, root: ActiveAgency)
    requires OneMembership(db) && FetchedAgencies(db, rows) && IsRoot(db, root)
    ensures DistinctOwners(rows, root)
  {
    forall r, s, g | OwnedBy(rows, r, g) && OwnedBy(rows, s, g)
      ensures r == s
    {
      OwnerOfRow(db, rows, r, g);
      OwnerOfRow(db, rows, s, g);
    }
    forall r | OwnedBy(rows, r, root.owner.agentId)
      ensures rows[r].id == root.agencyId
    {
      OwnerOfRow(db, rows, r, root.owner.agentId);
    }
  }

  // ---------- the accepted agency ----------

  // A membership that owns an agency is the one the row shows.
  lemma OwnerIsFetched(db: Db, row: AgencyRow, m: Id, g: Id)
    requires OneOwner(db) && OneMembership(db) && FetchedAgency(db, row) && Owns(db, m, row.id, g)
    ensures row.owner.Some? && row.owner.value.membershipId == m && row.owner.value.agentId == g
  {
    var o := row.owner.value;
    assert IsOwner(db, row.id, g) && IsOwner(db, row.id, o.agentId);
  }

  // Tables in which membership m owns agency a through invitation i of agency p.
  ghost predicate JoinedThrough(db: Db, a: Id, p: Id, m: Id, g: Id, i: Id) {
    && Owns(db, m, a, g) && ParentOf(AgencyParents(db), a) == Some(p) && RelatedTo(db, i, m)
    && db.invitations[i].status == Accepted && db.invitations[i].acceptedPlan == Some(AgencyPlan)
    && db.invitations[i].agencyId == p && db.invitations[i].acceptedAgentId == Some(g)
  }

  lemma JoinedIsLinked(db: Db, row: AgencyRow, p: Id, m: Id, g: Id, i: Id)
    requires OneOwner(db) && OneMembership(db) && OneInvitationPerMembership(db) && FetchedAgency(db, row)
    requires JoinedThrough(db, row.id, p, m, g, i)
    ensures LinkedTo(row, p) && row.owner.value.agentId == g
  {
    OwnerIsFetched(db, row, m, g);
  }

  lemma JoinedAfter(db: Db, input: Input, now: Time, ids: NewRows, d: Decision)
    requires Linked(db) && Facts(db, input, ids, d) && input.plan == AgencyPlan
    requires AgentActive(After(db, input, now, ids, d), d.subject.agentId)
    ensures
      var inv := db.invitations[input.invitationId];
      JoinedThrough(After(db, input, now, ids, d), AcceptedAgency(db, ids, inv, d.branch), inv.agencyId,
                    AcceptedMembership(ids, d.branch), d.subject.agentId, input.invitationId)
  {
    AcceptedRow(db, input, now, ids, d);
    InvitationAfter(db, input, now, ids, d);
    InvitationSubjects(db, input, now, d, AcceptedMembership(ids, d.branch), input.invitationId);
    AgencyAfter(db, input, now, ids, d);
  }

  lemma AcceptedAgencyJoined(db: Db, input: Input, now: Time, ids: NewRows, d: Decision, after: Db, s: Id)
    requires Linked(db) && Unused(db, ids) && Accepts(db, input, now, ids, d, after, s) && input.plan == AgencyPlan
    ensures input.invitationId in db.invitations && (d.branch.Reparent? ==> d.branch.membershipId in db.memberships)
    ensures
      var inv := db.invitations[input.invitationId];
      JoinedThrough(after, AcceptedAgency(db, ids, inv, d.branch), inv.agencyId, AcceptedMembership(ids, d.branch),
        d.subject.agentId, input.invitationId)
  {
    AcceptsFacts(db, input, now, ids, d, after, s);
    FinalizationAccess.SubjectStaysActive(db, input, now, ids, d, after, s);
    JoinedAfter(db, input, now, ids, d);
  }

  // ---------- rosters ----------

  lemma LinksAreParents(db: Db, rows: seq<AgencyRow>, rootId: Id)
    requires FetchedAgencies(db, rows)
    ensures Extends(Links(rows, rootId), AgencyParents(db))
  {
    forall x | ParentOf(Links(rows, rootId), x).Some?
      ensures ParentOf(AgencyParents(db), x) == ParentOf(Links(rows, rootId), x)
    {
      var p := ParentOf(Links(rows, rootId), x).value;
      var r := LinkHasRow(rows, rootId, x);
      LinkIsRow(rows, rootId, r);
      assert FetchedAgency(db, rows[r]) && LinkedTo(rows[r], p);
    }
  }

  // An agency is never shown below its own child.
  lemma ChildIsNotRoot(db: Db, rows: seq<AgencyRow>, root: ActiveAgency, t: Time, agencies: seq<ActiveAgency>, j: int,
                       a: Id)
    requires Acyclic(AgencyParents(db)) && FetchedAgencies(db, rows) && root.depth == 0
    requires IsAdmission(rows, root, t, agencies) && 0 <= j < |agencies|
    requires ParentOf(AgencyParents(db), a) == Some(agencies[j].agencyId)
    ensures a != root.agencyId
  {
    var parents, p, n := AgencyParents(db), agencies[j].agencyId, agencies[j].depth;
    ShownReachesRoot(rows, root, t, agencies, j);
    LinksAreParents(db, rows, root.agencyId);
    ExtendsKeepsUpN(Links(rows, root.agencyId), parents, p, n);
    assert UpN(parents, a, n + 1) == UpN(parents, p, n);
  }

  // Agency a of owner g is shown one generation below agency p.
  ghost predicate ShownUnder(agencies: seq<ActiveAgency>, a: Id, p: Id, g: Id) {
    exists j, k ::
      && 0 <= j < |agencies| && 0 <= k < |agencies| && agencies[j].agencyId == p && agencies[k].agencyId == a
      && agencies[k].depth == agencies[j].depth + 1 && agencies[k].owner.agentId == g
      && agencies[k].parentAgencyId == Some(p)
  }

  lemma LinkedIsShownUnder(db: Db, rows: seq<AgencyRow>, root: ActiveAgency, t: Time, agencies: seq<ActiveAgency>,
                           j: int, r: int)
    requires Acyclic(AgencyParents(db)) && FetchedAgencies(db, rows) && root.depth == 0 && DistinctOwners(rows, root)
    requires IsAdmission(rows, root, t, agencies) && 0 <= j < |agencies| && 0 <= r < |rows|
    requires LinkedTo(rows[r], agencies[j].agencyId)
    ensures ShownUnder(agencies, rows[r].id, agencies[j].agencyId, rows[r].owner.value.agentId)
  {
    assert FetchedAgency(db, rows[r]);
    ChildIsNotRoot(db, rows, root, t, agencies, j, rows[r].id);
    LinkedChildIsShown(rows, root, t, agencies, j, r);
  }

  lemma RowOfJoined(db: Db, rows: seq<AgencyRow>, a: Id, p: Id, m: Id, g: Id, i: Id) returns (r: int)
    requires Good(db) && FetchedAgencies(db, rows) && JoinedThrough(db, a, p, m, g, i)
    ensures 0 <= r < |rows| && rows[r].id == a && LinkedTo(rows[r], p) && rows[r].owner.value.agentId == g
  {
    r :| 0 <= r < |rows| && rows[r].id == a;
    JoinedIsLinked(db, rows[r], p, m, g, i);
  }

  lemma JoinedIsShown(db: Db, rows: seq<AgencyRow>, root: ActiveAgency, t: Time, agencies: seq<ActiveAgency>, a: Id,
                      p: Id, m: Id, g: Id, i: Id)
    requires Good(db) && FetchedAgencies(db, rows) && IsRoot(db, root) && IsAdmission(rows, root, t, agencies)
    requires JoinedThrough(db, a, p, m, g, i) && Shows(agencies, p)
    ensures ShownUnder(agencies, a, p, g)
  {
    var j :| 0 <= j < |agencies| && agencies[j].agencyId == p;
    var r := RowOfJoined(db, rows, a, p, m, g, i);
    AgencyGraphAcyclic(db);
    OwnersAreDistinct(db, rows, root);
    LinkedIsShownUnder(db, rows, root, t, agencies, j, r);
  }

  // ---------- for good ----------

  lemma OwnershipStays(db: Db, input: Input, now: Time, ids: NewRows, d: Decision, a: Id, m: Id, g: Id)
    requires Unused(db, ids) && Facts(db, input, ids, d) && Owns(db, m, a, g)
    ensures Owns(After(db, input, now, ids, d), m, a, g)
  {
  }

  lemma FinalizeKeepsJoined(db: Db, input: Input, now: Time, ids: NewRows, d: Decision, a: Id, p: Id, m: Id, g: Id,
                            i: Id)
    requires Linked(db) && Unused(db, ids) && Facts(db, input, ids, d) && JoinedThrough(db, a, p, m, g, i)
    ensures JoinedThrough(After(db, input, now, ids, d), a, p, m, g, i)
  {
    OwnershipStays(db, input, now, ids, d, a, m, g);
    AgencyEdgesStay(db, input, now, ids, d, a);
    InvitationSubjects(db, input, now, d, AcceptedMembership(ids, d.branch), i);
    FinalizeKeepsAcceptance(db, input, now, ids, d, i, db.invitations[i]);
  }

  lemma StepKeepsJoined(db: Db, action: Action, a: Id, p: Id, m: Id, g: Id, i: Id)
    requires Linked(db) && Enabled(db, action) && JoinedThrough(db, a, p, m, g, i)
    ensures JoinedThrough(Apply(db, action), a, p, m, g, i)
  {
    if action.Finalize? && Apply(db, action) != db {
      var d := TakenFacts(db, action.input, action.now, action.ids);
      FinalizeKeepsJoined(db, action.input, action.now, action.ids, d, a, p, m, g, i);
    }
  }

  lemma RunStepKeepsJoined(run: seq<Db>, actions: seq<Action>, k: nat, a: Id, p: Id, m: Id, g: Id, i: Id)
    requires IsRun(run, actions) && k < |actions| && JoinedThrough(run[k], a, p, m, g, i)
    ensures JoinedThrough(run[k + 1], a, p, m, g, i)
  {
    RunStep(run, actions, k);
    StepKeepsJoined(run[k], actions[k], a, p, m, g, i);
  }

  lemma {:induction false} JoinedStays(run: seq<Db>, actions: seq<Action>, k: nat, l: nat, a: Id, p: Id, m: Id, g: Id,
                                       i: Id)
    requires IsRun(run, actions) && k <= l < |run| && JoinedThrough(run[k], a, p, m, g, i)
    ensures JoinedThrough(run[l], a, p, m, g, i)
    decreases l
  {
    if k < l {
      JoinedStays(run, actions, k, l - 1, a, p, m, g, i);
      RunStepKeepsJoined(run, actions, l - 1, a, p, m, g, i);
    }
  }

  // Agency a of owner g joined agency p through the invitation this input accepts.
  ghost predicate JoinedBy(db: Db, before: Db, input: Input, ids: NewRows, d: Decision) {
    && input.invitationId in before.invitations && (d.branch.Reparent? ==> d.branch.membershipId in before.memberships)
    && var inv := before.invitations[input.invitationId];
    JoinedThrough(db, AcceptedAgency(before, ids, inv, d.branch), inv.agencyId, AcceptedMembership(ids, d.branch),
                  d.subject.agentId, input.invitationId)
  }

  lemma AcceptedJoins(run: seq<Db>, actions: seq<Action>, k: nat, db: Db, input: Input, now: Time, ids: NewRows,
                      d: Decision, s: Id)
    requires IsRun(run, actions) && AcceptsAt(run, k, db, input, now, ids, d, s) && input.plan == AgencyPlan
    ensures JoinedBy(run[k + 1], db, input, ids, d)
  {
    RunKeepsGood(run, actions, k);
    AcceptedAgencyJoined(db, input, now, ids, d, run[k + 1], s);
  }

  lemma AcceptedStaysJoined(run: seq<Db>, actions: seq<Action>, k: nat, l: nat, db: Db, input: Input, now: Time,
                            ids: NewRows, d: Decision, s: Id)
    requires IsRun(run, actions) && k < l < |run| && AcceptsAt(run, k, db, input, now, ids, d, s)
    requires input.plan == AgencyPlan
    ensures JoinedBy(run[l], db, input, ids, d)
  {
    AcceptedJoins(run, actions, k, db, input, now, ids, d, s);
    var inv := db.invitations[input.invitationId];
    JoinedStays(run, actions, k + 1, l, AcceptedAgency(db, ids, inv, d.branch), inv.agencyId,
                AcceptedMembership(ids, d.branch), d.subject.agentId, input.invitationId);
  }

  // ---------- the rows of the result ----------

  lemma ShownOwnerOwns(db: Db, rows: seq<AgencyRow>, root: ActiveAgency, t: Time, agencies: seq<ActiveAgency>, j: int)
    requires FetchedAgencies(db, rows) && IsRoot(db, root) && IsAdmission(rows, root, t, agencies)
    requires 0 <= j < |agencies|
    ensures IsOwner(db, agencies[j].agencyId, agencies[j].owner.agentId)
  {
    if j > 0 {
      var i, r := RowOfAgency(rows, root, t, agencies, j);
      OwnerOfRow(db, rows, r, agencies[j].owner.agentId);
    }
  }

  // The owner of agency p has a row, and g one in the block under it.
  ghost predicate SitsUnder(db: Db, result: seq<Tree.Row>, p: Id, g: Id) {
    exists o :: IsOwner(db, p, o) && Tree.ListedUnder(result, o, g)
  }

  // A roster of these tables that shows agency p (as that of p's owner does) shows
  // agency a one generation below, and lists its owner g under the owner of p.
  ghost predicate AppearsIn(db: Db, rows: seq<AgencyRow>, root: ActiveAgency, t: Time, shape: Shape,
                            result: seq<Tree.Row>, a: Id, p: Id, g: Id) {
    FetchedAgencies(db, rows) && IsRoot(db, root)
    && Tree.RosterShape(rows, root, t, shape) && Tree.IsRoster(root, t, shape, result) ==>
      && (root.agencyId == p ==> Shows(shape.agencies, p))
      && (Shows(shape.agencies, p) ==> ShownUnder(shape.agencies, a, p, g) && SitsUnder(db, result, p, g))
  }

  lemma ShownChildIsListed(db: Db, rows: seq<AgencyRow>, root: ActiveAgency, t: Time, shape: Shape,
                           result: seq<Tree.Row>, k: int, p: Id)
    requires FetchedAgencies(db, rows) && IsRoot(db, root)
    requires Tree.RosterShape(rows, root, t, shape) && Tree.IsRoster(root, t, shape, result)
    requires 1 <= k < |shape.agencies| && shape.agencies[k].parentAgencyId == Some(p)
    ensures SitsUnder(db, result, p, shape.agencies[k].owner.agentId)
  {
    var j := Tree.OwnerIsListedUnder(rows, root, t, shape, result, k);
    ShownOwnerOwns(db, rows, root, t, shape.agencies, j);
  }

  lemma ShownUnderIsChild(agencies: seq<ActiveAgency>, a: Id, p: Id, g: Id) returns (k: int)
    requires ShownUnder(agencies, a, p, g) && agencies[0].depth == 0
    ensures 1 <= k < |agencies| && agencies[k].parentAgencyId == Some(p) && agencies[k].owner.agentId == g
  {
    var j;
    j, k :|
      && 0 <= j < |agencies| && 0 <= k < |agencies| && agencies[j].agencyId == p && agencies[k].agencyId == a
      && agencies[k].depth == agencies[j].depth + 1 && agencies[k].owner.agentId == g
      && agencies[k].parentAgencyId == Some(p);
  }

  lemma ShownUnderIsListed(db: Db, rows: seq<AgencyRow>, root: ActiveAgency, t: Time, shape: Shape,
                           result: seq<Tree.Row>, a: Id, p: Id, g: Id)
    requires FetchedAgencies(db, rows) && IsRoot(db, root)
    requires Tree.RosterShape(rows, root, t, shape) && Tree.IsRoster(root, t, shape, result)
    requires ShownUnder(shape.agencies, a, p, g)
    ensures SitsUnder(db, result, p, g)
  {
    var k := ShownUnderIsChild(shape.agencies, a, p, g);
    ShownChildIsListed(db, rows, root, t, shape, result, k, p);
  }

  lemma JoinedAppears(db: Db, rows: seq<AgencyRow>, root: ActiveAgency, t: Time, shape: Shape, result: seq<Tree.Row>,
                      a: Id, p: Id, m: Id, g: Id, i: Id)
    requires Good(db) && JoinedThrough(db, a, p, m, g, i)
    ensures AppearsIn(db, rows, root, t, shape, result, a, p, g)
  {
    if FetchedAgencies(db, rows) && IsRoot(db, root)
      && Tree.RosterShape(rows, root, t, shape) && Tree.IsRoster(root, t, shape, result)
    {
      if root.agencyId == p {
        assert shape.agencies[0].agencyId == p;
      }
      if Shows(shape.agencies, p) {
        JoinedIsShown(db, rows, root, t, shape.agencies, a, p, m, g, i);
        ShownUnderIsListed(db, rows, root, t, shape, result, a, p, g);
      }
    }
  }

  // Once an AGENCY invitation is accepted, every roster of every later state that
  // shows the inviting agency, its owner's own in particular, shows the accepted
  // agency one generation below, and lists the invited agent under that owner.
  lemma AcceptedAgencyIsShown(run: seq<Db>, actions: seq<Action>, k: nat, l: nat, db: Db, input: Input, now: Time,
                              ids: NewRows, d: Decision, s: Id, rows: seq<AgencyRow>, root: ActiveAgency, t: Time,
                              shape: Shape, result: seq<Tree.Row>)
    requires IsRun(run, actions) && k < l < |run| && AcceptsAt(run, k, db, input, now, ids, d, s)
    requires input.plan == AgencyPlan
    ensures JoinedBy(run[l], db, input, ids, d)
    ensures
      var inv := db.invitations[input.invitationId];
      AppearsIn(run[l], rows, root, t, shape, result, AcceptedAgency(db, ids, inv, d.branch), inv.agencyId,
                d.subject.agentId)
  {
    RunKeepsGood(run, actions, l);
    AcceptedStaysJoined(run, actions, k, l, db, input, now, ids, d, s);
    var inv := db.invitations[input.invitationId];
    JoinedAppears(run[l], rows, root, t, shape, result, AcceptedAgency(db, ids, inv, d.branch), inv.agencyId,
                  AcceptedMembership(ids, d.branch), d.subject.agentId, input.invitationId);
  }
}
