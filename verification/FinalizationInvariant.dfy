/**
 What every finalization keeps. The transaction's code checks only the agent graph
 for cycles, yet it also rewires the agency graph; `OwnersAbove` ties the two.
 */
module FinalizationInvariant {
  import opened Wrappers
  import opened Hierarchy
  import opened ParentGraph
  import opened Tables
  import opened Finalization
  import opened FinalizationStore

  ghost predicate OneOwner(db: Db) {
    && (forall a :: a in db.agencies ==> exists g :: IsOwner(db, a, g))
    && (forall a, g, h :: IsOwner(db, a, g) && IsOwner(db, a, h) ==> g == h)
  }

  predicate ActiveAs(db: Db, m: Id, agencyId: Id, agentId: Id) {
    m in db.memberships && db.memberships[m].agencyId == agencyId && db.memberships[m].agentId == agentId
      && db.memberships[m].endedAt.None?
  }

  ghost predicate OneMembership(db: Db) {
    forall m, n, a, b, g :: ActiveAs(db, m, a, g) && ActiveAs(db, n, b, g) ==> m == n
  }

  // The owner of a parent agency is strictly above the owner of the child agency.
  ghost predicate ParentOwnersAbove(db: Db) {
    forall a, b, ga, gb ::
      ParentOf(AgencyParents(db), b) == Some(a) && IsOwner(db, a, ga) && IsOwner(db, b, gb) ==>
        StrictlyAbove(Parents(db), ga, gb)
  }

  // An agency's owner is at or above each of its active members.
  ghost predicate OwnersAboveMembers(db: Db) {
    forall m, a, g, owner :: ActiveAs(db, m, a, g) && IsOwner(db, a, owner) ==> AtOrAbove(Parents(db), owner, g)
  }

  predicate PendingFrom(db: Db, i: Id, agencyId: Id, inviter: Id) {
    i in db.invitations && db.invitations[i].status == Pending
      && db.invitations[i].agencyId == agencyId && db.invitations[i].invitedByAgentId == inviter
  }

  // ... and of everyone who has a pending invitation of that agency out.
  ghost predicate OwnersAboveInviters(db: Db) {
    forall i, a, p, owner :: PendingFrom(db, i, a, p) && IsOwner(db, a, owner) ==> AtOrAbove(Parents(db), owner, p)
  }

  ghost predicate OwnersAbove(db: Db) {
    ParentOwnersAbove(db) && OwnersAboveMembers(db) && OwnersAboveInviters(db)
  }

  ghost predicate Inv(db: Db) {
    Linked(db) && Acyclic(Parents(db)) && OneOwner(db) && OneMembership(db) && OwnersAbove(db)
  }

  // ---------- the agency graph is acyclic ----------

  lemma {:induction false} AncestorOwnerAbove(db: Db, b: Id, n: nat, ga: Id, gb: Id)
    requires Linked(db) && OneOwner(db) && ParentOwnersAbove(db) && n >= 1
    requires UpN(AgencyParents(db), b, n).Some?
    requires IsOwner(db, UpN(AgencyParents(db), b, n).value, ga) && IsOwner(db, b, gb)
    ensures StrictlyAbove(Parents(db), ga, gb)
    decreases n
  {
    var parent := ParentOf(AgencyParents(db), b).value;
    if n > 1 {
      var gp :| IsOwner(db, parent, gp);
      AncestorOwnerAbove(db, parent, n - 1, ga, gp);
      AboveTransitive(Parents(db), ga, gp, gb);
    }
  }

  lemma AgencyGraphAcyclic(db: Db)
    requires Inv(db)
    ensures Acyclic(AgencyParents(db))
  {
    forall b, n: nat | n >= 1
      ensures UpN(AgencyParents(db), b, n) != Some(b)
    {
      if UpN(AgencyParents(db), b, n) == Some(b) {
        assert b in db.agencies;
        var g :| IsOwner(db, b, g);
        AncestorOwnerAbove(db, b, n, g, g);
      }
    }
  }

  // ---------- what an accepted decision says about the rows ----------

  ghost predicate Facts(db: Db, input: Input, ids: NewRows, d: Decision) {
    && input.invitationId in db.invitations
    && var inv := db.invitations[input.invitationId];
    && var g := d.subject.agentId;
    && inv.status == Pending && g != inv.invitedByAgentId
    && (ParentOf(Parents(db), g).None? || ParentOf(Parents(db), g) == Some(inv.invitedByAgentId))
    && !AtOrAbove(Parents(db), g, inv.invitedByAgentId)
    && (d.subject.created <==> g !in db.agents)
    && (d.subject.created ==> g == ids.agent)
    && BranchFacts(db, input, inv, d)
  }

  ghost predicate BranchFacts(db: Db, input: Input, inv: Invitation, d: Decision) {
    var g := d.subject.agentId;
    match d.branch
    case Join => input.plan == MemberPlan && ActiveMemberships(db, g) == {}
    case Found => input.plan == AgencyPlan && ActiveMemberships(db, g) == {}
    case Promote(m, previous, plan) =>
      && input.plan == AgencyPlan && ActiveMemberships(db, g) == {m} && m in db.memberships
      && db.memberships[m].role == Member && db.memberships[m].agencyId == inv.agencyId
      && plan in LiveMemberPlans(db, m) && previous in PreviousInvitations(db, inv, g, m)
    case Reparent(m) =>
      && input.plan == AgencyPlan && ActiveMemberships(db, g) == {m} && m in db.memberships
      && db.memberships[m].role == Owner && db.memberships[m].agencyId != inv.agencyId
      && (ParentOf(AgencyParents(db), db.memberships[m].agencyId).None?
          || ParentOf(AgencyParents(db), db.memberships[m].agencyId) == Some(inv.agencyId))
  }

  lemma {:induction false} ClimbIsRow(db: Db, x: Id, n: nat)
    requires Linked(db) && x in db.agents && UpN(Parents(db), x, n).Some?
    ensures UpN(Parents(db), x, n).value in db.agents
    decreases n
  {
    if n > 0 {
      ClimbIsRow(db, ParentOf(Parents(db), x).value, n - 1);
    }
  }

  lemma SingletonOrEmpty(s: set<Id>)
    requires |s| <= 1
    ensures First(s).None? ==> s == {}
    ensures First(s).Some? ==> s == {First(s).value}
  {
    if First(s).Some? {
      var x := First(s).value;
      assert |s - {x}| == |s| - 1;
    }
  }

  lemma BranchIsSound(db: Db, input: Input, now: Time, ids: NewRows, reservation: Reservation, d: Decision)
    requires Linked(db) && Unused(db, ids)
    requires Decide(db, input, now, ids, reservation) == Ok(d)
    ensures input.invitationId in db.invitations && BranchFacts(db, input, db.invitations[input.invitationId], d)
  {
    SubjectFacts(db, input, now, ids, reservation, d);
    SingletonOrEmpty(d.subject.memberships);
  }

  lemma DecisionFacts(db: Db, input: Input, now: Time, ids: NewRows, reservation: Reservation, d: Decision)
    requires Linked(db) && Unused(db, ids)
    requires Decide(db, input, now, ids, reservation) == Ok(d)
    ensures Facts(db, input, ids, d)
  {
    var g, p := d.subject.agentId, db.invitations[input.invitationId].invitedByAgentId;
    SubjectFacts(db, input, now, ids, reservation, d);
    BranchIsSound(db, input, now, ids, reservation, d);
    if n: nat :| UpN(Parents(db), p, n) == Some(g) {
      ClimbIsRow(db, p, n);
    }
  }

  lemma NoRowsYet(db: Db, ids: NewRows)
    requires Linked(db) && Unused(db, ids)
    ensures ActiveMemberships(db, ids.agent) == {}
  {
    assert forall m :: m in db.memberships ==> db.memberships[m].agentId in db.agents;
  }

  lemma SubjectFacts(db: Db, input: Input, now: Time, ids: NewRows, reservation: Reservation, d: Decision)
    requires Linked(db) && Unused(db, ids)
    requires Decide(db, input, now, ids, reservation) == Ok(d)
    ensures input.invitationId in db.invitations && db.invitations[input.invitationId].status == Pending
    ensures ResolveSubject(db, input, ids, db.invitations[input.invitationId].invitedByAgentId) == Ok(d.subject)
    ensures
      var inv := db.invitations[input.invitationId];
      && CheckSubject(db, input, inv.invitedByAgentId, d.inviterRole, d.subject,
        IsBelow(db, d.subject.agentId, inv.invitedByAgentId)) == None
      && (forall m :: m in d.subject.memberships ==> m in db.memberships)
      && ChooseBranch(db, input, inv, d.inviterRole, d.subject) == Ok(d.branch)
    ensures d.subject.memberships == ActiveMemberships(db, d.subject.agentId)
    ensures d.subject.created <==> d.subject.agentId !in db.agents
    ensures d.subject.created ==> d.subject.agentId == ids.agent
  {
    if d.subject.created {
      NoRowsYet(db, ids);
    }
  }

  // ---------- the next tables ----------

  lemma ParentsAfter(db: Db, input: Input, now: Time, ids: NewRows, d: Decision)
    requires Linked(db) && Facts(db, input, ids, d)
    ensures
      var p := db.invitations[input.invitationId].invitedByAgentId;
      Parents(After(db, input, now, ids, d)) == Parents(db)[d.subject.agentId := Some(p)]
  {
  }

  lemma GraphAfter(db: Db, input: Input, now: Time, ids: NewRows, d: Decision)
    requires Inv(db) && Facts(db, input, ids, d)
    ensures
      var after := Parents(After(db, input, now, ids, d));
      && Acyclic(after) && Extends(Parents(db), after)
      && ParentOf(after, d.subject.agentId) == Some(db.invitations[input.invitationId].invitedByAgentId)
  {
    var g, p := d.subject.agentId, db.invitations[input.invitationId].invitedByAgentId;
    var parents := Parents(db);
    ParentsAfter(db, input, now, ids, d);
    if ParentOf(parents, g).None? {
      AddEdgeKeepsAcyclic(parents, parents[g := Some(p)], g, p);
    } else {
      assert parents[g := Some(p)] == parents;
    }
  }

  lemma AgencyEdgesStay(db: Db, input: Input, now: Time, ids: NewRows, d: Decision, a: Id)
    requires Linked(db) && Unused(db, ids) && Facts(db, input, ids, d) && ParentOf(AgencyParents(db), a).Some?
    ensures ParentOf(AgencyParents(After(db, input, now, ids, d)), a) == ParentOf(AgencyParents(db), a)
  {
  }

  // Who owns what afterwards: nobody loses an agency; a new one belongs to the invited agent.
  ghost predicate NewAgency(d: Decision) {
    d.branch.Found? || d.branch.Promote?
  }

  lemma OwnersStay(db: Db, input: Input, now: Time, ids: NewRows, d: Decision, a: Id, h: Id)
    requires Unused(db, ids) && Facts(db, input, ids, d)
    requires IsOwner(db, a, h) || (NewAgency(d) && a == ids.agency && h == d.subject.agentId)
    ensures IsOwner(After(db, input, now, ids, d), a, h)
  {
    var after := After(db, input, now, ids, d);
    if IsOwner(db, a, h) {
      var m :| m in db.memberships && db.memberships[m].agencyId == a && db.memberships[m].agentId == h
               && db.memberships[m].role == Owner && db.memberships[m].endedAt.None?;
      assert m in after.memberships && after.memberships[m] == db.memberships[m];
    } else {
      assert after.memberships[ids.membership].agencyId == a;
    }
  }

  lemma OwnersAreOldOrNew(db: Db, input: Input, now: Time, ids: NewRows, d: Decision, a: Id, h: Id)
    requires Unused(db, ids) && Facts(db, input, ids, d) && IsOwner(After(db, input, now, ids, d), a, h)
    ensures IsOwner(db, a, h) || (NewAgency(d) && a == ids.agency && h == d.subject.agentId)
  {
  }

  lemma OwnersAfter(db: Db, input: Input, now: Time, ids: NewRows, d: Decision, a: Id, h: Id)
    requires Linked(db) && Unused(db, ids) && Facts(db, input, ids, d)
    ensures IsOwner(After(db, input, now, ids, d), a, h)
       <==> IsOwner(db, a, h) || (NewAgency(d) && a == ids.agency && h == d.subject.agentId)
  {
    if IsOwner(After(db, input, now, ids, d), a, h) {
      OwnersAreOldOrNew(db, input, now, ids, d, a, h);
    } else if IsOwner(db, a, h) || (NewAgency(d) && a == ids.agency && h == d.subject.agentId) {
      OwnersStay(db, input, now, ids, d, a, h);
    }
  }

  lemma EveryAgencyOwned(db: Db, input: Input, now: Time, ids: NewRows, d: Decision, a: Id)
    requires Inv(db) && Unused(db, ids) && Facts(db, input, ids, d) && a in After(db, input, now, ids, d).agencies
    ensures exists g :: IsOwner(After(db, input, now, ids, d), a, g)
  {
    if a in db.agencies {
      var g :| IsOwner(db, a, g);
      OwnersStay(db, input, now, ids, d, a, g);
    } else {
      OwnersStay(db, input, now, ids, d, a, d.subject.agentId);
    }
  }

  lemma OwnerIsUnique(db: Db, input: Input, now: Time, ids: NewRows, d: Decision, a: Id, g: Id, h: Id)
    requires Inv(db) && Unused(db, ids) && Facts(db, input, ids, d)
    requires IsOwner(After(db, input, now, ids, d), a, g) && IsOwner(After(db, input, now, ids, d), a, h)
    ensures g == h
  {
    OwnersAreOldOrNew(db, input, now, ids, d, a, g);
    OwnersAreOldOrNew(db, input, now, ids, d, a, h);
    assert forall x :: !IsOwner(db, ids.agency, x);
  }

  lemma OneOwnerKept(db: Db, input: Input, now: Time, ids: NewRows, d: Decision)
    requires Inv(db) && Unused(db, ids) && Facts(db, input, ids, d)
    ensures OneOwner(After(db, input, now, ids, d))
  {
    var after := After(db, input, now, ids, d);
    forall a | a in after.agencies
      ensures exists g :: IsOwner(after, a, g)
    {
      EveryAgencyOwned(db, input, now, ids, d, a);
    }
    forall a, g, h | IsOwner(after, a, g) && IsOwner(after, a, h)
      ensures g == h
    {
      OwnerIsUnique(db, input, now, ids, d, a, g, h);
    }
  }

  // An active membership afterwards is an old one, or the one the acceptance adds.
  lemma ActiveIsOldOrNew(db: Db, input: Input, now: Time, ids: NewRows, d: Decision, m: Id, a: Id, h: Id)
    requires Unused(db, ids) && Facts(db, input, ids, d) && ActiveAs(After(db, input, now, ids, d), m, a, h)
    ensures if m == ids.membership && !d.branch.Reparent? then h == d.subject.agentId
            else ActiveAs(db, m, a, h) && (h == d.subject.agentId ==> d.branch.Reparent?)
  {
    if m in db.memberships && h == d.subject.agentId {
      assert ActiveAs(db, m, a, h) ==> m in ActiveMemberships(db, h);
    }
  }

  lemma OneMembershipKept(db: Db, input: Input, now: Time, ids: NewRows, d: Decision)
    requires Inv(db) && Unused(db, ids) && Facts(db, input, ids, d)
    ensures OneMembership(After(db, input, now, ids, d))
  {
    var after := After(db, input, now, ids, d);
    forall m, n, a, b, h | ActiveAs(after, m, a, h) && ActiveAs(after, n, b, h)
      ensures m == n
    {
      ActiveIsOldOrNew(db, input, now, ids, d, m, a, h);
      ActiveIsOldOrNew(db, input, now, ids, d, n, b, h);
    }
  }

  lemma ParentOwnersKept(db: Db, input: Input, now: Time, ids: NewRows, d: Decision, a: Id, b: Id, ga: Id, gb: Id)
    requires Inv(db) && Unused(db, ids) && Facts(db, input, ids, d)
    requires
      var after := After(db, input, now, ids, d);
      ParentOf(AgencyParents(after), b) == Some(a) && IsOwner(after, a, ga) && IsOwner(after, b, gb)
    ensures StrictlyAbove(Parents(After(db, input, now, ids, d)), ga, gb)
  {
    var after, inv, g := After(db, input, now, ids, d), db.invitations[input.invitationId], d.subject.agentId;
    var parents := Parents(after);
    GraphAfter(db, input, now, ids, d);
    OwnersAfter(db, input, now, ids, d, a, ga);
    OwnersAfter(db, input, now, ids, d, b, gb);
    assert a in db.agencies && a != ids.agency;
    if ParentOf(AgencyParents(db), b) == Some(a) {
      ExtendsKeepsAbove(Parents(db), parents, ga, gb);
    } else {
      assert a == inv.agencyId;
      AttachedOwnerIsSubject(db, input, now, ids, d, b, gb);
      assert PendingFrom(db, input.invitationId, a, inv.invitedByAgentId);
      ExtendsKeepsAbove(Parents(db), parents, ga, inv.invitedByAgentId);
      assert UpN(parents, g, 1) == Some(inv.invitedByAgentId);
      AboveTransitive(parents, ga, inv.invitedByAgentId, g);
    }
  }

  // The only agency whose parent changes is the one the invited agent owns.
  lemma AttachedOwnerIsSubject(db: Db, input: Input, now: Time, ids: NewRows, d: Decision, b: Id, gb: Id)
    requires Inv(db) && Unused(db, ids) && Facts(db, input, ids, d)
    requires IsOwner(After(db, input, now, ids, d), b, gb)
    requires ParentOf(AgencyParents(After(db, input, now, ids, d)), b) != ParentOf(AgencyParents(db), b)
    ensures gb == d.subject.agentId
    ensures ParentOf(AgencyParents(After(db, input, now, ids, d)), b)
        == Some(db.invitations[input.invitationId].agencyId)
  {
    OwnersAfter(db, input, now, ids, d, b, gb);
    if d.branch.Reparent? {
      var m := d.branch.membershipId;
      assert m in ActiveMemberships(db, d.subject.agentId);
      assert IsOwner(db, db.memberships[m].agencyId, d.subject.agentId);
    }
  }

  lemma MembersKept(db: Db, input: Input, now: Time, ids: NewRows, d: Decision, m: Id, a: Id, h: Id, owner: Id)
    requires Inv(db) && Unused(db, ids) && Facts(db, input, ids, d)
    requires ActiveAs(After(db, input, now, ids, d), m, a, h) && IsOwner(After(db, input, now, ids, d), a, owner)
    ensures AtOrAbove(Parents(After(db, input, now, ids, d)), owner, h)
  {
    var after, inv, g := After(db, input, now, ids, d), db.invitations[input.invitationId], d.subject.agentId;
    var parents := Parents(after);
    GraphAfter(db, input, now, ids, d);
    OwnersAfter(db, input, now, ids, d, a, owner);
    if ActiveAs(db, m, a, h) {
      ExtendsKeepsAbove(Parents(db), parents, owner, h);
    } else if d.branch.Join? {
      assert PendingFrom(db, input.invitationId, a, inv.invitedByAgentId);
      ExtendsKeepsAbove(Parents(db), parents, owner, inv.invitedByAgentId);
      assert UpN(parents, g, 1) == Some(inv.invitedByAgentId);
      AboveTransitive(parents, owner, inv.invitedByAgentId, g);
    } else {
      assert a == ids.agency && h == g && owner == g;
      assert UpN(parents, g, 0) == Some(g);
    }
  }

  lemma InvitersKept(db: Db, input: Input, now: Time, ids: NewRows, d: Decision, i: Id, a: Id, p: Id, owner: Id)
    requires Inv(db) && Unused(db, ids) && Facts(db, input, ids, d)
    requires PendingFrom(After(db, input, now, ids, d), i, a, p) && IsOwner(After(db, input, now, ids, d), a, owner)
    ensures AtOrAbove(Parents(After(db, input, now, ids, d)), owner, p)
  {
    GraphAfter(db, input, now, ids, d);
    OwnersAfter(db, input, now, ids, d, a, owner);
    assert PendingFrom(db, i, a, p);
    ExtendsKeepsAbove(Parents(db), Parents(After(db, input, now, ids, d)), owner, p);
  }

  lemma OwnersAboveKept(db: Db, input: Input, now: Time, ids: NewRows, d: Decision)
    requires Inv(db) && Unused(db, ids) && Facts(db, input, ids, d)
    ensures OwnersAbove(After(db, input, now, ids, d))
  {
    var after := After(db, input, now, ids, d);
    forall a, b, ga, gb | ParentOf(AgencyParents(after), b) == Some(a) && IsOwner(after, a, ga) && IsOwner(after, b, gb)
      ensures StrictlyAbove(Parents(after), ga, gb)
    {
      ParentOwnersKept(db, input, now, ids, d, a, b, ga, gb);
    }
    forall m, a, h, owner | ActiveAs(after, m, a, h) && IsOwner(after, a, owner)
      ensures AtOrAbove(Parents(after), owner, h)
    {
      MembersKept(db, input, now, ids, d, m, a, h, owner);
    }
    forall i, a, p, owner | PendingFrom(after, i, a, p) && IsOwner(after, a, owner)
      ensures AtOrAbove(Parents(after), owner, p)
    {
      InvitersKept(db, input, now, ids, d, i, a, p, owner);
    }
  }

  lemma RowsOnlyAdded(db: Db, input: Input, now: Time, ids: NewRows, d: Decision)
    requires Linked(db) && Facts(db, input, ids, d)
    ensures
      var after := After(db, input, now, ids, d);
      && db.agents.Keys <= after.agents.Keys && db.agencies.Keys <= after.agencies.Keys
      && db.memberships.Keys <= after.memberships.Keys && db.subscriptions.Keys <= after.subscriptions.Keys
      && after.agents.Keys == db.agents.Keys + {d.subject.agentId}
      && (NewAgency(d) ==> ids.agency in after.agencies)
      && AcceptedAgency(db, ids, db.invitations[input.invitationId], d.branch) in after.agencies
      && AcceptedMembership(ids, d.branch) in after.memberships
  {
  }

  lemma AgencyLinksKept(db: Db, input: Input, now: Time, ids: NewRows, d: Decision)
    requires Linked(db) && Facts(db, input, ids, d)
    ensures
      var after := After(db, input, now, ids, d);
      forall a :: a in after.agencies ==> Points(after.agencies[a].parentAgencyId, after.agencies)
  {
    RowsOnlyAdded(db, input, now, ids, d);
  }

  lemma MembershipLink(db: Db, input: Input, now: Time, ids: NewRows, d: Decision, m: Id)
    requires Linked(db) && Facts(db, input, ids, d) && m in After(db, input, now, ids, d).memberships
    ensures
      var row := After(db, input, now, ids, d).memberships[m];
      && (row.agencyId in db.agencies || (NewAgency(d) && row.agencyId == ids.agency))
      && (row.agentId in db.agents || row.agentId == d.subject.agentId)
  {
  }

  lemma MembershipLinksKept(db: Db, input: Input, now: Time, ids: NewRows, d: Decision)
    requires Linked(db) && Facts(db, input, ids, d)
    ensures
      var after := After(db, input, now, ids, d);
      forall m :: m in after.memberships ==>
        after.memberships[m].agencyId in after.agencies && after.memberships[m].agentId in after.agents
  {
    RowsOnlyAdded(db, input, now, ids, d);
    forall m | m in After(db, input, now, ids, d).memberships {
      MembershipLink(db, input, now, ids, d, m);
    }
  }

  lemma SubscriptionSubjects(db: Db, input: Input, ids: NewRows, d: Decision, agencyId: Id, membershipId: Id, s: Id)
    requires s in SubscriptionsAfter(db, input, ids, d, agencyId, membershipId)
    ensures
      var row := SubscriptionsAfter(db, input, ids, d, agencyId, membershipId)[s];
      if s in db.subscriptions && (ReusedPlan(db, input, agencyId).Some? || s != ids.subscription)
      then row.agentId == db.subscriptions[s].agentId && row.agencyId == db.subscriptions[s].agencyId
        && row.membershipId == db.subscriptions[s].membershipId && row.plan == db.subscriptions[s].plan
        && row.createdAt == db.subscriptions[s].createdAt
      else s == ids.subscription && row == NewSubscription(input, ids, agencyId, membershipId)
  {
  }

  lemma SubscriptionLinksKept(db: Db, input: Input, now: Time, ids: NewRows, d: Decision)
    requires Linked(db) && Facts(db, input, ids, d)
    ensures
      var after := After(db, input, now, ids, d);
      forall s :: s in after.subscriptions ==>
        && Points(after.subscriptions[s].agentId, after.agents)
        && Points(after.subscriptions[s].agencyId, after.agencies)
        && Points(after.subscriptions[s].membershipId, after.memberships)
  {
    var after := After(db, input, now, ids, d);
    var agencyId := AcceptedAgency(db, ids, db.invitations[input.invitationId], d.branch);
    RowsOnlyAdded(db, input, now, ids, d);
    forall s | s in after.subscriptions
      ensures Points(after.subscriptions[s].agentId, after.agents)
           && Points(after.subscriptions[s].agencyId, after.agencies)
           && Points(after.subscriptions[s].membershipId, after.memberships)
    {
      SubscriptionSubjects(db, input, ids, d, agencyId, AcceptedMembership(ids, d.branch), s);
    }
  }

  lemma InvitationSubjects(db: Db, input: Input, now: Time, d: Decision, membershipId: Id, i: Id)
    requires i in db.invitations
    ensures
      var was, row := db.invitations[i], InvitationsAfter(db, input, now, d, membershipId)[i];
      && row.agencyId == was.agencyId && row.invitedByAgentId == was.invitedByAgentId && row.expiresAt == was.expiresAt
      && (if i == input.invitationId
        then row.acceptedAgentId == Some(d.subject.agentId) && row.acceptedMembershipId == Some(membershipId)
          else row.acceptedAgentId == was.acceptedAgentId && row.acceptedMembershipId == was.acceptedMembershipId)
  {
  }

  lemma InvitationLinksKept(db: Db, input: Input, now: Time, ids: NewRows, d: Decision)
    requires Linked(db) && Facts(db, input, ids, d)
    ensures
      var after := After(db, input, now, ids, d);
      forall i :: i in after.invitations ==>
        && after.invitations[i].agencyId in after.agencies && after.invitations[i].invitedByAgentId in after.agents
        && Points(after.invitations[i].acceptedAgentId, after.agents)
        && Points(after.invitations[i].acceptedMembershipId, after.memberships)
  {
    var after := After(db, input, now, ids, d);
    RowsOnlyAdded(db, input, now, ids, d);
    forall i | i in after.invitations
      ensures after.invitations[i].agencyId in after.agencies && after.invitations[i].invitedByAgentId in after.agents
           && Points(after.invitations[i].acceptedAgentId, after.agents)
           && Points(after.invitations[i].acceptedMembershipId, after.memberships)
    {
      InvitationSubjects(db, input, now, d, AcceptedMembership(ids, d.branch), i);
    }
  }

  lemma AccountLinksKept(db: Db, input: Input, now: Time, ids: NewRows, d: Decision)
    requires Linked(db) && Facts(db, input, ids, d)
    ensures
      var after := After(db, input, now, ids, d);
      && (forall g :: g in after.founders ==> g in after.agents && Points(after.founders[g].agencyId, after.agencies))
      && (forall g :: g in after.provisioned ==>
        g in after.agents && after.provisioned[g].subscriptionId in after.subscriptions)
      && (forall g :: g in after.onboardingInProgress ==> g in after.agents)
  {
    RowsOnlyAdded(db, input, now, ids, d);
  }

  lemma LinkedKept(db: Db, input: Input, now: Time, ids: NewRows, d: Decision)
    requires Linked(db) && Facts(db, input, ids, d)
    ensures Linked(After(db, input, now, ids, d))
  {
    AgencyLinksKept(db, input, now, ids, d);
    MembershipLinksKept(db, input, now, ids, d);
    SubscriptionLinksKept(db, input, now, ids, d);
    InvitationLinksKept(db, input, now, ids, d);
    AccountLinksKept(db, input, now, ids, d);
  }

  // Whatever the request, the invariant survives it, and with it both hierarchies
  // stay acyclic.
  lemma FinalizationKeepsInv(db: Db, input: Input, now: Time, ids: NewRows)
    requires Inv(db) && Unused(db, ids)
    ensures Inv(Run(db, input, now, ids).0)
    ensures Acyclic(AgencyParents(Run(db, input, now, ids).0))
  {
    var gate := CheckCheckout(db, input);
    if Run(db, input, now, ids).0 != db {
      var d := Decide(db, input, now, ids, gate.value.reservation).value;
      DecisionFacts(db, input, now, ids, gate.value.reservation, d);
      GraphAfter(db, input, now, ids, d);
      LinkedKept(db, input, now, ids, d);
      OneOwnerKept(db, input, now, ids, d);
      OneMembershipKept(db, input, now, ids, d);
      OwnersAboveKept(db, input, now, ids, d);
    }
    AgencyGraphAcyclic(Run(db, input, now, ids).0);
  }
}
