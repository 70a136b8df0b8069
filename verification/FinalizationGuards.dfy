/**
 The database triggers on agencies, memberships, plans and invitations: the writes
 of an accepted finalization never make any of them raise. Each condition is stated
 over the rows the trigger reads, which have their final values when it fires.
 */
module FinalizationGuards {
  import opened Wrappers
  import opened Hierarchy
  import opened ParentGraph
  import opened Tables
  import opened Finalization
  import opened FinalizationStore
  import opened FinalizationInvariant
  import opened FinalizationRuns

  // `guard_commercial_agency_hierarchy`: a parent is set at most once, and never to
  // the agency itself or to one below it.
  ghost predicate HierarchyGuardPasses(parents: ParentsMap, next: ParentsMap, a: Id) {
    ParentOf(next, a) == ParentOf(parents, a)
    || (ParentOf(parents, a).None? && ParentOf(next, a).Some? && !AtOrAbove(parents, a, ParentOf(next, a).value))
  }

  // `guard_agency_invitation_acceptance`: an accepted invitation names an active
  // membership of the accepted agent, as a member of the inviting agency or as the
  // owner of a child of it.
  predicate AcceptanceGuardPasses(db: Db, inv: Invitation) {
    inv.status == Accepted ==>
      && inv.acceptedMembershipId.Some? && inv.acceptedMembershipId.value in db.memberships
      && var m := db.memberships[inv.acceptedMembershipId.value];
      && m.endedAt.None? && Some(m.agentId) == inv.acceptedAgentId
      && match inv.acceptedPlan
         case Some(MemberPlan) => m.role == Member && m.agencyId == inv.agencyId
         case Some(AgencyPlan) => m.role == Owner && ParentOf(AgencyParents(db), m.agencyId) == Some(inv.agencyId)
         case _ => false
  }

  // `protect_current_agency_membership`: a membership that changes is no owner's, stays
  // with its agent and agency, and has no live plan left.
  ghost predicate MembershipGuardPasses(db: Db, after: Db, m: Id) {
    m in db.memberships && m in after.memberships && after.memberships[m] != db.memberships[m] ==>
      && db.memberships[m].role == Member && LiveMemberPlans(after, m) == {}
      && after.memberships[m].agentId == db.memberships[m].agentId
      && after.memberships[m].agencyId == db.memberships[m].agencyId
  }

  ghost predicate SubjectIs(db: Db, sub: Subscription, m: Id, g: Id) {
    match sub.plan
    case MemberPlan => sub.membershipId == Some(m) && m in db.memberships
      && ActiveAs(db, m, db.memberships[m].agencyId, g) && db.memberships[m].role == Member
    case AgencyPlan => sub.agencyId.Some? && ActiveAs(db, m, sub.agencyId.value, g) && db.memberships[m].role == Owner
    case IndividualPlan => false
  }

  // `enforce_platform_subscription_subject_state`: a live member or agency plan has an
  // active membership of the right role, whose agent has no live individual plan.
  ghost predicate PlanGuardPasses(db: Db, s: Id) {
    s in db.subscriptions && Live(db.subscriptions[s].status) && db.subscriptions[s].plan != IndividualPlan ==>
      exists m, g :: SubjectIs(db, db.subscriptions[s], m, g) && LiveIndividualPlans(db, g) == {}
  }

  lemma NewEdgeGoesUp(parents: ParentsMap, next: ParentsMap, a: Id)
    requires Extends(parents, next) && Acyclic(next) && ParentOf(parents, a).None? && ParentOf(next, a).Some?
    ensures !AtOrAbove(parents, a, ParentOf(next, a).value)
  {
    var p := ParentOf(next, a).value;
    forall n: nat
      ensures UpN(next, p, n) != Some(a)
    {
      assert UpN(next, a, n + 1) == UpN(next, p, n);
    }
    ExtendsKeepsAbove(parents, next, a, p);
  }

  lemma HierarchyGuardIsSilent(db: Db, input: Input, now: Time, ids: NewRows, d: Decision, a: Id)
    requires Linked(db) && Unused(db, ids) && Facts(db, input, ids, d)
    requires Acyclic(AgencyParents(After(db, input, now, ids, d)))
    ensures HierarchyGuardPasses(AgencyParents(db), AgencyParents(After(db, input, now, ids, d)), a)
  {
    var parents, next := AgencyParents(db), AgencyParents(After(db, input, now, ids, d));
    forall x | ParentOf(parents, x).Some?
      ensures ParentOf(next, x) == ParentOf(parents, x)
    {
      AgencyEdgesStay(db, input, now, ids, d, x);
    }
    RowsOnlyAdded(db, input, now, ids, d);
    if ParentOf(next, a) != ParentOf(parents, a) {
      NewEdgeGoesUp(parents, next, a);
    }
  }

  lemma AcceptanceGuardIsSilent(db: Db, input: Input, now: Time, ids: NewRows, d: Decision)
    requires Linked(db) && Facts(db, input, ids, d)
    ensures
      var after := After(db, input, now, ids, d);
      AcceptanceGuardPasses(after, after.invitations[input.invitationId])
  {
    AcceptedRow(db, input, now, ids, d);
    InvitationAfter(db, input, now, ids, d);
    InvitationSubjects(db, input, now, d, AcceptedMembership(ids, d.branch), input.invitationId);
    AgencyAfter(db, input, now, ids, d);
  }

  lemma MembershipGuardIsSilent(db: Db, input: Input, now: Time, ids: NewRows, d: Decision, m: Id)
    requires OneLivePlan(db) && Unused(db, ids) && Facts(db, input, ids, d)
    ensures MembershipGuardPasses(db, After(db, input, now, ids, d), m)
  {
    forall s | s in LiveMemberPlans(After(db, input, now, ids, d), m) && m in db.memberships
      ensures s in LiveMemberPlans(db, m)
    {
      MemberPlansShrink(db, input, now, ids, d, s, m);
    }
  }

  lemma ChosenSubject(db: Db, input: Input, now: Time, ids: NewRows, d: Decision, s: Id)
    requires Linked(db) && Unused(db, ids) && Facts(db, input, ids, d) && Entitling(input.provider.status)
    requires
      s == SubscriptionIdAfter(db, input, ids, AcceptedAgency(db, ids, db.invitations[input.invitationId], d.branch))
    ensures
      var after := After(db, input, now, ids, d);
      s in after.subscriptions
      && SubjectIs(after, after.subscriptions[s], AcceptedMembership(ids, d.branch), d.subject.agentId)
  {
    AcceptedRow(db, input, now, ids, d);
    ChosenPlanIsLive(db, input, now, ids, d);
  }

  lemma PlanGuardIsSilent(db: Db, input: Input, now: Time, ids: NewRows, d: Decision, s: Id)
    requires Linked(db) && Unused(db, ids) && Facts(db, input, ids, d) && Entitling(input.provider.status)
    requires
      s == SubscriptionIdAfter(db, input, ids, AcceptedAgency(db, ids, db.invitations[input.invitationId], d.branch))
    ensures PlanGuardPasses(After(db, input, now, ids, d), s)
  {
    ChosenSubject(db, input, now, ids, d, s);
    IndividualPlansStop(db, input, now, ids, d);
  }

  // Whatever is accepted passes the four triggers: none of them can undo it.
  lemma GuardsAreSilent(db: Db, input: Input, now: Time, ids: NewRows, d: Decision, after: Db, s: Id)
    requires Inv(db) && OneLivePlan(db) && Unused(db, ids) && Accepts(db, input, now, ids, d, after, s)
    ensures forall a :: HierarchyGuardPasses(AgencyParents(db), AgencyParents(after), a)
    ensures input.invitationId in after.invitations
    ensures AcceptanceGuardPasses(after, after.invitations[input.invitationId])
    ensures forall m :: MembershipGuardPasses(db, after, m)
    ensures PlanGuardPasses(after, s)
  {
    AcceptsFacts(db, input, now, ids, d, after, s);
    FinalizationKeepsInv(db, input, now, ids);
    forall a
      ensures HierarchyGuardPasses(AgencyParents(db), AgencyParents(after), a)
    {
      HierarchyGuardIsSilent(db, input, now, ids, d, a);
    }
    AcceptanceGuardIsSilent(db, input, now, ids, d);
    forall m
      ensures MembershipGuardPasses(db, after, m)
    {
      MembershipGuardIsSilent(db, input, now, ids, d, m);
    }
    PlanGuardIsSilent(db, input, now, ids, d, s);
  }
}
