/** What an accepted invitation does to commercial access: the invited agent's, and everybody else's. */
module FinalizationAccess {
  import opened Wrappers
  import opened Hierarchy
  import opened ParentGraph
  import opened Tables
  import opened Finalization
  import opened FinalizationStore
  import opened FinalizationInvariant
  import opened FinalizationRuns
  import opened FounderAccess
  import Agent = AgentAccess

  // ---------- the invited agent ----------

  function AcceptedSubject(db: Db, input: Input, ids: NewRows, d: Decision): SubjectPlan
    requires input.invitationId in db.invitations && (d.branch.Reparent? ==> d.branch.membershipId in db.memberships)
  {
    if input.plan == AgencyPlan then OfAgency(AcceptedAgency(db, ids, db.invitations[input.invitationId], d.branch))
    else OfMembership(AcceptedMembership(ids, d.branch))
  }

  lemma OneCommercialInvitation(db: Db, input: Input, now: Time, ids: NewRows, d: Decision)
    requires Facts(db, input, ids, d)
    ensures CommercialInvitations(After(db, input, now, ids, d), d.subject.agentId) == {input.invitationId}
  {
    InvitationAfter(db, input, now, ids, d);
    var after, g := After(db, input, now, ids, d), d.subject.agentId;
    assert input.invitationId in CurrentInvitations(after, g);
    assert forall i :: i in CommercialInvitations(after, g) ==> i in CurrentInvitations(after, g);
  }

  lemma SubjectIsResolved(db: Db, input: Input, now: Time, ids: NewRows, d: Decision)
    requires Linked(db) && Facts(db, input, ids, d)
    ensures
      var after := After(db, input, now, ids, d);
      InvitationSubject(after, after.invitations[input.invitationId], d.subject.agentId)
        == AcceptedSubject(db, input, ids, d)
  {
    AcceptedRow(db, input, now, ids, d);
    InvitationSubjects(db, input, now, d, AcceptedMembership(ids, d.branch), input.invitationId);
  }

  lemma FindOnlyLive(db: Db, list: seq<Id>, chosen: Id, status: Status, now: Time)
    requires Fetched(db, list) && chosen in db.subscriptions && Entitling(status)
    requires forall i :: 0 <= i < |list| && Live(db.subscriptions[list[i]].status) ==> list[i] == chosen
    requires WithinPeriod(db.subscriptions[chosen], now)
    ensures FindFirst(db, list, status, now)
        == (if chosen in list && db.subscriptions[chosen].status == status then Some(chosen) else None)
  {
  }

  // When one row of the subject is live, it alone decides, provided it makes the cut.
  lemma OnlyLiveRowDecides(db: Db, inv: Invitation, g: Id, chosen: Id, now: Time)
    requires !InvitationSubject(db, inv, g).NoSubject?
    requires
      var rows := SubjectRows(db, InvitationSubject(db, inv, g));
      && chosen in rows && Entitling(db.subscriptions[chosen].status) && WithinPeriod(db.subscriptions[chosen], now)
      && forall s :: s in rows && Live(db.subscriptions[s].status) ==> s == chosen
    ensures
      var rows, r := SubjectRows(db, InvitationSubject(db, inv, g)), ResolveInvitation(db, inv, g, now);
      && (r.HasAccess() <==> |NewerRows(db, rows, chosen)| < NEWEST_ROWS)
      && (r.HasAccess() ==>
        r.state == (if db.subscriptions[chosen].status == Active then Paid else Trial)
        && r.subscription == Some(db.subscriptions[chosen]))
  {
    var rows := SubjectRows(db, InvitationSubject(db, inv, g));
    var list := Take25(NewestFirst(db, rows));
    InTake25(db, rows, chosen);
    assert forall s :: s in list ==> s in NewestFirst(db, rows);
    FindOnlyLive(db, list, chosen, Active, now);
    FindOnlyLive(db, list, chosen, Trialing, now);
  }

  lemma SingleInvitationResolves(db: Db, g: Id, i: Id, now: Time)
    requires CommercialInvitations(db, g) == {i} && i in db.invitations
    ensures Resolve(db, g, now) == ResolveInvitation(db, db.invitations[i], g, now)
  {
    assert IsLatest(db, CommercialInvitations(db, g), i);
  }

  lemma InvitationDecides(db: Db, input: Input, now: Time, ids: NewRows, d: Decision, t: Time)
    requires Linked(db) && Facts(db, input, ids, d)
    ensures
      var after, g := After(db, input, now, ids, d), d.subject.agentId;
      && Resolve(after, g, t) == ResolveInvitation(after, after.invitations[input.invitationId], g, t)
      && InvitationSubject(after, after.invitations[input.invitationId], g) == AcceptedSubject(db, input, ids, d)
  {
    OneCommercialInvitation(db, input, now, ids, d);
    SubjectIsResolved(db, input, now, ids, d);
    SingleInvitationResolves(After(db, input, now, ids, d), d.subject.agentId, input.invitationId, t);
  }

  // At t the agent is resolved by the invitation, and has access through plan row s
  // of the subject exactly when that row is among the newest 25.
  ghost predicate GrantedBy(db: Db, g: Id, subject: SubjectPlan, s: Id, t: Time) {
    && s in SubjectRows(db, subject) && Resolve(db, g, t).source == FromInvitation
    && (Resolve(db, g, t).HasAccess() <==> |NewerRows(db, SubjectRows(db, subject), s)| < NEWEST_ROWS)
    && (Resolve(db, g, t).HasAccess() ==>
      Resolve(db, g, t).state == (if db.subscriptions[s].status == Active then Paid else Trial)
      && Resolve(db, g, t).subscription == Some(db.subscriptions[s]))
  }

  lemma OnlyLiveRowGrants(db: Db, inv: Invitation, g: Id, subject: SubjectPlan, s: Id, t: Time)
    requires InvitationSubject(db, inv, g) == subject && !subject.NoSubject?
    requires Resolve(db, g, t) == ResolveInvitation(db, inv, g, t)
    requires s in SubjectRows(db, subject) && Entitling(db.subscriptions[s].status)
    requires WithinPeriod(db.subscriptions[s], t)
    requires forall x :: x in SubjectRows(db, subject) && Live(db.subscriptions[x].status) ==> x == s
    ensures GrantedBy(db, g, subject, s, t)
  {
    OnlyLiveRowDecides(db, inv, g, s, t);
  }

  lemma SubjectGetsAccess(db: Db, input: Input, now: Time, ids: NewRows, d: Decision, t: Time, chosen: Id)
    requires Inv(db) && OneLivePlan(db) && Unused(db, ids) && Facts(db, input, ids, d)
    requires Entitling(input.provider.status)
    requires chosen
          == SubscriptionIdAfter(db, input, ids, AcceptedAgency(db, ids, db.invitations[input.invitationId], d.branch))
    requires input.provider.periodStart <= t < input.provider.periodEnd
    ensures
      var after := After(db, input, now, ids, d);
      && GrantedBy(after, d.subject.agentId, AcceptedSubject(db, input, ids, d), chosen, t)
      && after.subscriptions[chosen].status == input.provider.status
  {
    var after := After(db, input, now, ids, d);
    InvitationDecides(db, input, now, ids, d, t);
    ChosenRow(db, input, now, ids, d, chosen);
    OnlyLiveRowGrants(after, after.invitations[input.invitationId], d.subject.agentId,
                      AcceptedSubject(db, input, ids, d), chosen, t);
  }

  // The accepted agent has access throughout the paid period, PAID or TRIAL as the
  // provider reported, exactly when the plan row is among the newest 25 of its subject.
  lemma AcceptanceGrantsAccess(db: Db, input: Input, now: Time, ids: NewRows, d: Decision, after: Db, s: Id, t: Time)
    requires Inv(db) && OneLivePlan(db) && Unused(db, ids) && Accepts(db, input, now, ids, d, after, s)
    requires input.provider.periodStart <= t < input.provider.periodEnd
    ensures input.invitationId in db.invitations && (d.branch.Reparent? ==> d.branch.membershipId in db.memberships)
    ensures
      var r, rows := Resolve(after, d.subject.agentId, t), SubjectRows(after, AcceptedSubject(db, input, ids, d));
      && s in rows && r.source == FromInvitation
      && (r.HasAccess() <==> |NewerRows(after, rows, s)| < NEWEST_ROWS)
      && (r.HasAccess() ==>
        r.state == (if input.provider.status == Active then Paid else Trial)
        && r.subscription == Some(after.subscriptions[s]))
  {
    AcceptsFacts(db, input, now, ids, d, after, s);
    SubjectGetsAccess(db, input, now, ids, d, t, s);
  }

  lemma ChosenRow(db: Db, input: Input, now: Time, ids: NewRows, d: Decision, chosen: Id)
    requires Inv(db) && OneLivePlan(db) && Unused(db, ids) && Facts(db, input, ids, d)
    requires Entitling(input.provider.status)
    requires chosen
          == SubscriptionIdAfter(db, input, ids, AcceptedAgency(db, ids, db.invitations[input.invitationId], d.branch))
    ensures
      var after, subject := After(db, input, now, ids, d), AcceptedSubject(db, input, ids, d);
      && chosen in SubjectRows(after, subject)
      && after.subscriptions[chosen].status == input.provider.status
      && after.subscriptions[chosen].periodStart == Some(input.provider.periodStart)
      && after.subscriptions[chosen].periodEnd == Some(input.provider.periodEnd)
      && forall s :: s in SubjectRows(after, subject) && Live(after.subscriptions[s].status) ==> s == chosen
  {
    PlansAfter(db, input, now, ids, d);
    var after, inv := After(db, input, now, ids, d), db.invitations[input.invitationId];
    var agencyId, m := AcceptedAgency(db, ids, inv, d.branch), AcceptedMembership(ids, d.branch);
    forall s | s in SubjectRows(after, AcceptedSubject(db, input, ids, d)) && Live(after.subscriptions[s].status)
      ensures s == chosen
    {
      assert s in LivePlansOfSubject(after, input.plan, agencyId, m);
    }
  }

  // The plan row is inserted exactly when there is no live agency plan to renew; in
  // particular a re-parented agency whose plan has lapsed gets a new row.
  lemma InsertsIffNoLivePlan(db: Db, input: Input, now: Time, ids: NewRows, d: Decision, after: Db, s: Id)
    requires Linked(db) && Unused(db, ids) && Accepts(db, input, now, ids, d, after, s)
    ensures input.invitationId in db.invitations && (d.branch.Reparent? ==> d.branch.membershipId in db.memberships)
    ensures s == ids.subscription <==>
      input.plan == MemberPlan
        || LiveAgencyPlans(db, AcceptedAgency(db, ids, db.invitations[input.invitationId], d.branch)) == {}
  {
    AcceptsFacts(db, input, now, ids, d, after, s);
  }

  lemma NewRowIsNewest(db: Db, input: Input, now: Time, ids: NewRows, d: Decision, x: Id)
    requires Linked(db) && Unused(db, ids) && Facts(db, input, ids, d)
    requires ids.subscription in After(db, input, now, ids, d).subscriptions
    requires x in After(db, input, now, ids, d).subscriptions
    requires forall y :: y in db.subscriptions ==> db.subscriptions[y].createdAt < ids.at
    ensures !Newer(After(db, input, now, ids, d), x, ids.subscription)
  {
    var agencyId, m :=
      AcceptedAgency(db, ids, db.invitations[input.invitationId], d.branch), AcceptedMembership(ids, d.branch);
    SubscriptionSubjects(db, input, ids, d, agencyId, m, x);
    SubscriptionSubjects(db, input, ids, d, agencyId, m, ids.subscription);
  }

  lemma NoneIsNewer(db: Db, input: Input, now: Time, ids: NewRows, d: Decision, rows: set<Id>)
    requires Linked(db) && Unused(db, ids) && Facts(db, input, ids, d)
    requires rows <= After(db, input, now, ids, d).subscriptions.Keys
    requires ids.subscription in After(db, input, now, ids, d).subscriptions
    requires forall y :: y in db.subscriptions ==> db.subscriptions[y].createdAt < ids.at
    ensures NewerRows(After(db, input, now, ids, d), rows, ids.subscription) == {}
  {
    forall x | x in rows
      ensures !Newer(After(db, input, now, ids, d), x, ids.subscription)
    {
      NewRowIsNewest(db, input, now, ids, d, x);
    }
  }

  lemma InsertedPlanIsFound(db: Db, input: Input, now: Time, ids: NewRows, d: Decision, t: Time)
    requires Inv(db) && OneLivePlan(db) && Unused(db, ids) && Facts(db, input, ids, d)
    requires Entitling(input.provider.status)
    requires ids.subscription
        == SubscriptionIdAfter(db, input, ids, AcceptedAgency(db, ids, db.invitations[input.invitationId], d.branch))
    requires forall x :: x in db.subscriptions ==> db.subscriptions[x].createdAt < ids.at
    requires input.provider.periodStart <= t < input.provider.periodEnd
    ensures Resolve(After(db, input, now, ids, d), d.subject.agentId, t).HasAccess()
  {
    SubjectGetsAccess(db, input, now, ids, d, t, ids.subscription);
    NoneIsNewer(db, input, now, ids, d, SubjectRows(After(db, input, now, ids, d), AcceptedSubject(db, input, ids, d)));
  }

  // A new plan row is the newest of its subject, whatever older rows there are; the
  // cut cannot exclude it.
  lemma NewPlanIsAlwaysFound(db: Db, input: Input, now: Time, ids: NewRows, d: Decision, after: Db, s: Id, t: Time)
    requires Inv(db) && OneLivePlan(db) && Unused(db, ids) && Accepts(db, input, now, ids, d, after, s)
    requires s == ids.subscription && forall x :: x in db.subscriptions ==> db.subscriptions[x].createdAt < ids.at
    requires input.provider.periodStart <= t < input.provider.periodEnd
    ensures Resolve(after, d.subject.agentId, t).HasAccess()
  {
    AcceptsFacts(db, input, now, ids, d, after, s);
    InsertedPlanIsFound(db, input, now, ids, d, t);
  }

  lemma EntitledByRow(db: Db, g: Id, m: Id, chosen: Id, t: Time)
    requires g in db.agents && db.agents[g].active && ActiveMemberships(db, g) == {m} && m in db.memberships
    requires chosen in (if db.memberships[m].role == Owner then Agent.AgencyRows(db, db.memberships[m].agencyId)
        else Agent.MemberRows(db, m))
    requires Agent.IsEntitling(Some(db.subscriptions[chosen]), t)
    ensures
      var access := Agent.Resolve(db, g, t);
      && access.isActive && access.canInviteAgents && access.agencyId == Some(db.memberships[m].agencyId)
      && access.kind == (if db.memberships[m].role == Owner then Agent.AgencyOwner else Agent.AgencyMember)
      && (access.canManageTeam <==> db.memberships[m].role == Owner)
  {
    assert Agent.IsNewestMembership(db, g, m);
    if db.memberships[m].role == Owner {
      Agent.SelectedEntitlesIff(db, Agent.AgencyRows(db, db.memberships[m].agencyId), t);
    } else {
      Agent.SelectedEntitlesIff(db, Agent.MemberRows(db, m), t);
    }
  }

  // The capability resolver has no such cut: the agent is an entitled member or owner.
  lemma AcceptanceEntitles(db: Db, input: Input, now: Time, ids: NewRows, d: Decision, after: Db, s: Id, t: Time)
    requires Inv(db) && OneLivePlan(db) && Unused(db, ids) && Accepts(db, input, now, ids, d, after, s)
    requires input.provider.periodStart <= t < input.provider.periodEnd
    ensures input.invitationId in db.invitations && (d.branch.Reparent? ==> d.branch.membershipId in db.memberships)
    ensures
      var access := Agent.Resolve(after, d.subject.agentId, t);
      && access.isActive && access.canInviteAgents
      && access.kind == (if input.plan == AgencyPlan then Agent.AgencyOwner else Agent.AgencyMember)
      && (access.canManageTeam <==> input.plan == AgencyPlan)
      && access.agencyId == Some(AcceptedAgency(db, ids, db.invitations[input.invitationId], d.branch))
  {
    AcceptsFacts(db, input, now, ids, d, after, s);
    SubjectStaysActive(db, input, now, ids, d, after, s);
    EntitlesAfter(db, input, now, ids, d, t, s);
  }

  lemma EntitlesAfter(db: Db, input: Input, now: Time, ids: NewRows, d: Decision, t: Time, chosen: Id)
    requires Inv(db) && OneLivePlan(db) && Unused(db, ids) && Facts(db, input, ids, d)
    requires Entitling(input.provider.status)
    requires chosen
          == SubscriptionIdAfter(db, input, ids, AcceptedAgency(db, ids, db.invitations[input.invitationId], d.branch))
    requires input.provider.periodStart <= t < input.provider.periodEnd
    requires
      var after := After(db, input, now, ids, d);
      d.subject.agentId in after.agents && after.agents[d.subject.agentId].active
    ensures
      var access := Agent.Resolve(After(db, input, now, ids, d), d.subject.agentId, t);
      && access.isActive && access.canInviteAgents
      && access.kind == (if input.plan == AgencyPlan then Agent.AgencyOwner else Agent.AgencyMember)
      && (access.canManageTeam <==> input.plan == AgencyPlan)
      && access.agencyId == Some(AcceptedAgency(db, ids, db.invitations[input.invitationId], d.branch))
  {
    MembershipAfter(db, input, now, ids, d);
    ChosenRow(db, input, now, ids, d, chosen);
    EntitledByRow(After(db, input, now, ids, d), d.subject.agentId, AcceptedMembership(ids, d.branch), chosen, t);
  }

  lemma SubjectStaysActive(db: Db, input: Input, now: Time, ids: NewRows, d: Decision, after: Db, s: Id)
    requires Linked(db) && Unused(db, ids) && Accepts(db, input, now, ids, d, after, s)
    ensures d.subject.agentId in after.agents && after.agents[d.subject.agentId].active
  {
  }
}
