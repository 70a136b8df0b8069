/** What one acceptance establishes, and what holds along every run of the commercial tables. */
module FinalizationRuns {
  import opened Wrappers
  import opened Hierarchy
  import opened ParentGraph
  import opened Tables
  import opened Finalization
  import opened FinalizationStore
  import opened FinalizationInvariant

  // The partial unique indexes on current plans.
  ghost predicate OneLivePlan(db: Db) {
    && (forall s, t, m :: s in LiveMemberPlans(db, m) && t in LiveMemberPlans(db, m) ==> s == t)
    && (forall s, t, a :: s in LiveAgencyPlans(db, a) && t in LiveAgencyPlans(db, a) ==> s == t)
  }

  function CurrentInvitations(db: Db, g: Id): set<Id> {
    set i | i in db.invitations && db.invitations[i].acceptedAgentId == Some(g) && db.invitations[i].isCurrentCommercial
  }

  function LiveIndividualPlans(db: Db, g: Id): set<Id> {
    set s | s in db.subscriptions && LiveIndividualPlan(db.subscriptions[s], g)
  }

  // The live plans of whatever the invitation made the agent: a member or an owner.
  function LivePlansOfSubject(db: Db, plan: InvitedPlan, agencyId: Id, membershipId: Id): set<Id> {
    if plan == AgencyPlan then LiveAgencyPlans(db, agencyId) else LiveMemberPlans(db, membershipId)
  }

  // This call is the one that accepts the invitation (not a refusal, not a replay),
  // with decision d, leaving the tables `after` and answering with subscription id s.
  ghost predicate Accepts(db: Db, input: Input, now: Time, ids: NewRows, d: Decision, after: Db, s: Id) {
    && Run(db, input, now, ids) == (after, Ok(Outcome(s, d.subject.created)))
    && CheckCheckout(db, input).Ok? && CheckCheckout(db, input).value.Proceed?
    && Decide(db, input, now, ids, CheckCheckout(db, input).value.reservation) == Ok(d)
  }

  lemma AcceptsDecision(db: Db, input: Input, now: Time, ids: NewRows, d: Decision, after: Db, s: Id)
    requires Linked(db) && Unused(db, ids) && Accepts(db, input, now, ids, d, after, s)
    ensures Facts(db, input, ids, d)
  {
    DecisionFacts(db, input, now, ids, CheckCheckout(db, input).value.reservation, d);
  }

  // The outcome of a run that was not refused and not a replay.
  lemma AcceptsOutcome(db: Db, input: Input, now: Time, ids: NewRows, d: Decision, after: Db, s: Id)
    requires Facts(db, input, ids, d) && Accepts(db, input, now, ids, d, after, s)
    ensures after == After(db, input, now, ids, d)
    ensures s == SubscriptionIdAfter(db, input, ids,
        AcceptedAgency(db, ids, db.invitations[input.invitationId], d.branch))
    ensures Entitling(input.provider.status) && input.provider.periodStart < input.provider.periodEnd
    ensures db.invitations[input.invitationId].expiresAt > now
    ensures !IsTaken(db, input.invitationId, AcceptedMembership(ids, d.branch))
  {
  }

  lemma AcceptsFacts(db: Db, input: Input, now: Time, ids: NewRows, d: Decision, after: Db, s: Id)
    requires Linked(db) && Unused(db, ids) && Accepts(db, input, now, ids, d, after, s)
    ensures Facts(db, input, ids, d) && after == After(db, input, now, ids, d)
    ensures s == SubscriptionIdAfter(db, input, ids,
        AcceptedAgency(db, ids, db.invitations[input.invitationId], d.branch))
    ensures Entitling(input.provider.status) && input.provider.periodStart < input.provider.periodEnd
    ensures db.invitations[input.invitationId].expiresAt > now
    ensures !IsTaken(db, input.invitationId, AcceptedMembership(ids, d.branch))
  {
    AcceptsDecision(db, input, now, ids, d, after, s);
    AcceptsOutcome(db, input, now, ids, d, after, s);
  }

  // The membership the acceptance names: created by it, or the owner's own.
  lemma AcceptedRow(db: Db, input: Input, now: Time, ids: NewRows, d: Decision)
    requires Facts(db, input, ids, d)
    ensures
      var after, inv := After(db, input, now, ids, d), db.invitations[input.invitationId];
      var m := AcceptedMembership(ids, d.branch);
      && ActiveAs(after, m, AcceptedAgency(db, ids, inv, d.branch), d.subject.agentId)
      && after.memberships[m].role == (if input.plan == AgencyPlan then Owner else Member)
  {
    if d.branch.Reparent? {
      assert d.branch.membershipId in ActiveMemberships(db, d.subject.agentId);
    }
  }

  lemma NoOtherRow(db: Db, input: Input, now: Time, ids: NewRows, d: Decision, n: Id)
    requires Facts(db, input, ids, d) && n in ActiveMemberships(After(db, input, now, ids, d), d.subject.agentId)
    ensures n == AcceptedMembership(ids, d.branch)
  {
    assert n == AcceptedMembership(ids, d.branch) || n in ActiveMemberships(db, d.subject.agentId);
  }

  lemma MembershipAfter(db: Db, input: Input, now: Time, ids: NewRows, d: Decision)
    requires Facts(db, input, ids, d)
    ensures
      var after, inv := After(db, input, now, ids, d), db.invitations[input.invitationId];
      var m := AcceptedMembership(ids, d.branch);
      && ActiveMemberships(after, d.subject.agentId) == {m}
      && after.memberships[m].agencyId == AcceptedAgency(db, ids, inv, d.branch)
      && after.memberships[m].role == (if input.plan == AgencyPlan then Owner else Member)
  {
    AcceptedRow(db, input, now, ids, d);
    forall n | n in ActiveMemberships(After(db, input, now, ids, d), d.subject.agentId)
      ensures n == AcceptedMembership(ids, d.branch)
    {
      NoOtherRow(db, input, now, ids, d, n);
    }
  }

  lemma InvitationAfter(db: Db, input: Input, now: Time, ids: NewRows, d: Decision)
    requires Facts(db, input, ids, d)
    ensures
      var after := After(db, input, now, ids, d);
      && CurrentInvitations(after, d.subject.agentId) == {input.invitationId}
      && after.invitations[input.invitationId].status == Accepted
      && after.invitations[input.invitationId].acceptedPlan == Some(input.plan)
      && after.invitations[input.invitationId].acceptedMembershipId == Some(AcceptedMembership(ids, d.branch))
  {
  }

  lemma IndividualPlansStop(db: Db, input: Input, now: Time, ids: NewRows, d: Decision)
    requires Facts(db, input, ids, d)
    ensures LiveIndividualPlans(After(db, input, now, ids, d), d.subject.agentId) == {}
  {
  }

  lemma MemberPlansShrink(db: Db, input: Input, now: Time, ids: NewRows, d: Decision, s: Id, x: Id)
    requires Facts(db, input, ids, d) && s in LiveMemberPlans(After(db, input, now, ids, d), x)
    ensures
      || s in LiveMemberPlans(db, x)
      || (s == ids.subscription && x == AcceptedMembership(ids, d.branch) && input.plan == MemberPlan)
  {
  }

  lemma AgencyPlansShrink(db: Db, input: Input, now: Time, ids: NewRows, d: Decision, s: Id, x: Id)
    requires Facts(db, input, ids, d) && s in LiveAgencyPlans(After(db, input, now, ids, d), x)
    ensures
      var agencyId := AcceptedAgency(db, ids, db.invitations[input.invitationId], d.branch);
      || s in LiveAgencyPlans(db, x)
      || (s == SubscriptionIdAfter(db, input, ids, agencyId) && x == agencyId && input.plan == AgencyPlan)
  {
  }

  lemma ChosenPlanIsLive(db: Db, input: Input, now: Time, ids: NewRows, d: Decision)
    requires Facts(db, input, ids, d) && Entitling(input.provider.status)
    ensures
      var after, inv := After(db, input, now, ids, d), db.invitations[input.invitationId];
      var agencyId, m := AcceptedAgency(db, ids, inv, d.branch), AcceptedMembership(ids, d.branch);
      SubscriptionIdAfter(db, input, ids, agencyId) in LivePlansOfSubject(after, input.plan, agencyId, m)
  {
  }

  lemma NoOtherPlan(db: Db, input: Input, now: Time, ids: NewRows, d: Decision, s: Id)
    requires Linked(db) && OneLivePlan(db) && Unused(db, ids) && Facts(db, input, ids, d)
    requires
      var agencyId := AcceptedAgency(db, ids, db.invitations[input.invitationId], d.branch);
      s in LivePlansOfSubject(After(db, input, now, ids, d), input.plan, agencyId, AcceptedMembership(ids, d.branch))
    ensures s == SubscriptionIdAfter(db, input, ids,
        AcceptedAgency(db, ids, db.invitations[input.invitationId], d.branch))
  {
    var agencyId := AcceptedAgency(db, ids, db.invitations[input.invitationId], d.branch);
    if input.plan == AgencyPlan {
      AgencyPlansShrink(db, input, now, ids, d, s, agencyId);
    } else {
      MemberPlansShrink(db, input, now, ids, d, s, AcceptedMembership(ids, d.branch));
    }
  }

  lemma OnePlanIsLeft(db: Db, input: Input, now: Time, ids: NewRows, d: Decision)
    requires Linked(db) && OneLivePlan(db) && Unused(db, ids) && Facts(db, input, ids, d)
    requires Entitling(input.provider.status)
    ensures
      var after, inv := After(db, input, now, ids, d), db.invitations[input.invitationId];
      var agencyId, m := AcceptedAgency(db, ids, inv, d.branch), AcceptedMembership(ids, d.branch);
      LivePlansOfSubject(after, input.plan, agencyId, m) == {SubscriptionIdAfter(db, input, ids, agencyId)}
  {
    var agencyId := AcceptedAgency(db, ids, db.invitations[input.invitationId], d.branch);
    ChosenPlanIsLive(db, input, now, ids, d);
    forall s | s in LivePlansOfSubject(After(db, input, now, ids, d), input.plan, agencyId,
      AcceptedMembership(ids, d.branch))
      ensures s == SubscriptionIdAfter(db, input, ids, agencyId)
    {
      NoOtherPlan(db, input, now, ids, d, s);
    }
  }

  lemma PlansAfter(db: Db, input: Input, now: Time, ids: NewRows, d: Decision)
    requires Linked(db) && OneLivePlan(db) && Unused(db, ids) && Facts(db, input, ids, d)
    requires Entitling(input.provider.status)
    ensures
      var after, inv := After(db, input, now, ids, d), db.invitations[input.invitationId];
      var agencyId, m := AcceptedAgency(db, ids, inv, d.branch), AcceptedMembership(ids, d.branch);
      && LiveIndividualPlans(after, d.subject.agentId) == {}
      && LivePlansOfSubject(after, input.plan, agencyId, m) == {SubscriptionIdAfter(db, input, ids, agencyId)}
  {
    IndividualPlansStop(db, input, now, ids, d);
    OnePlanIsLeft(db, input, now, ids, d);
  }

  // One acceptance leaves the invited agent under the inviter, with one active
  // membership, one current invitation, no individual plan and one live plan.
  ghost predicate OneOfEach(after: Db, inv: Invitation, invitationId: Id, plan: InvitedPlan, g: Id, agencyId: Id, m: Id,
                            s: Id) {
    && ParentOf(Parents(after), g) == Some(inv.invitedByAgentId)
    && ActiveMemberships(after, g) == {m} && after.memberships[m].agencyId == agencyId
    && CurrentInvitations(after, g) == {invitationId}
    && LiveIndividualPlans(after, g) == {}
    && LivePlansOfSubject(after, plan, agencyId, m) == {s}
    && (plan == AgencyPlan ==> ParentOf(AgencyParents(after), agencyId) == Some(inv.agencyId))
    && (plan == MemberPlan ==> agencyId == inv.agencyId)
  }

  lemma AgencyAfter(db: Db, input: Input, now: Time, ids: NewRows, d: Decision)
    requires Linked(db) && Facts(db, input, ids, d)
    ensures
      var after, inv := After(db, input, now, ids, d), db.invitations[input.invitationId];
      var agencyId := AcceptedAgency(db, ids, inv, d.branch);
      && (input.plan == AgencyPlan ==> ParentOf(AgencyParents(after), agencyId) == Some(inv.agencyId))
      && (input.plan == MemberPlan ==> agencyId == inv.agencyId)
  {
  }

  lemma OneOfEachAfter(db: Db, input: Input, now: Time, ids: NewRows, d: Decision)
    requires Inv(db) && OneLivePlan(db) && Unused(db, ids) && Facts(db, input, ids, d)
    requires Entitling(input.provider.status)
    ensures
      var after, inv := After(db, input, now, ids, d), db.invitations[input.invitationId];
      var agencyId := AcceptedAgency(db, ids, inv, d.branch);
      OneOfEach(after, inv, input.invitationId, input.plan, d.subject.agentId, agencyId,
        AcceptedMembership(ids, d.branch),
                SubscriptionIdAfter(db, input, ids, agencyId))
  {
    MembershipAfter(db, input, now, ids, d);
    InvitationAfter(db, input, now, ids, d);
    PlansAfter(db, input, now, ids, d);
    GraphAfter(db, input, now, ids, d);
    AgencyAfter(db, input, now, ids, d);
  }

  lemma AcceptanceLeavesOneOfEach(db: Db, input: Input, now: Time, ids: NewRows, d: Decision, after: Db, s: Id)
    requires Inv(db) && OneLivePlan(db) && Unused(db, ids) && Accepts(db, input, now, ids, d, after, s)
    ensures input.invitationId in db.invitations && (d.branch.Reparent? ==> d.branch.membershipId in db.memberships)
    ensures
      var inv := db.invitations[input.invitationId];
      OneOfEach(after, inv, input.invitationId, input.plan, d.subject.agentId,
                AcceptedAgency(db, ids, inv, d.branch), AcceptedMembership(ids, d.branch), s)
  {
    AcceptsFacts(db, input, now, ids, d, after, s);
    OneOfEachAfter(db, input, now, ids, d);
  }

  // ---------- runs ----------

  datatype Action =
    | Finalize(input: Input, now: Time, ids: NewRows)
    | Invite(invitationId: Id, invitation: Invitation)
    | Close(invitationId: Id, status: InvitationStatus)
    | Reserve(checkoutId: Id, checkout: Checkout)
    | Bill(plans: map<Id, Subscription>)

  // Invite: app/agent/agency/actions.ts, an active member or owner invites for
  // their own agency. Close: a pending invitation is revoked or expires. Reserve:
  // a checkout is opened, or its open row is replaced by a later attempt. Bill: a
  // billing event changes status and period of plan rows, within the unique indexes.
  ghost predicate Enabled(db: Db, action: Action) {
    match action
    case Finalize(_, _, ids) => Unused(db, ids)
    case Invite(i, row) =>
      && i !in db.invitations && row.status == Pending && !row.isCurrentCommercial
      && row.acceptedAgentId.None? && row.acceptedMembershipId.None?
      && row.agencyId in db.agencies && row.invitedByAgentId in db.agents
      && exists m :: ActiveAs(db, m, row.agencyId, row.invitedByAgentId)
    case Close(i, status) => i in db.invitations && db.invitations[i].status == Pending
      && (status == Revoked || status == TimedOut)
    case Reserve(c, row) => (c in db.checkouts ==> !db.checkouts[c].finalized) && !row.finalized
    case Bill(plans) =>
      && plans.Keys == db.subscriptions.Keys && OneLivePlan(db.(subscriptions := plans))
      && forall s :: s in plans ==> plans[s] == db.subscriptions[s].(
           status := plans[s].status, periodStart := plans[s].periodStart, periodEnd := plans[s].periodEnd)
  }

  ghost function Apply(db: Db, action: Action): Db
    requires Enabled(db, action)
  {
    match action
    case Finalize(input, now, ids) => Run(db, input, now, ids).0
    case Invite(i, row) => db.(invitations := db.invitations[i := row])
    case Close(i, status) => db.(invitations := db.invitations[i := db.invitations[i].(status := status)])
    case Reserve(c, row) => db.(checkouts := db.checkouts[c := row])
    case Bill(plans) => db.(subscriptions := plans)
  }

  ghost predicate IsStep(db: Db, action: Action, next: Db) {
    Enabled(db, action) && next == Apply(db, action)
  }

  // The agency a founder registered, or was moved to, is one they own.
  ghost predicate FoundersOwn(db: Db) {
    forall g :: g in db.founders && db.founders[g].isAgencyAccount && db.founders[g].agencyId.Some? ==>
      IsOwner(db, db.founders[g].agencyId.value, g)
  }

  predicate RelatedTo(db: Db, i: Id, m: Id) {
    i in db.invitations && db.invitations[i].acceptedMembershipId == Some(m)
  }

  // The unique index on accepted memberships.
  ghost predicate OneInvitationPerMembership(db: Db) {
    forall i, j, m :: RelatedTo(db, i, m) && RelatedTo(db, j, m) ==> i == j
  }

  ghost predicate Good(db: Db) {
    Inv(db) && OneLivePlan(db) && FoundersOwn(db) && OneInvitationPerMembership(db)
  }

  ghost predicate IsRun(run: seq<Db>, actions: seq<Action>) {
    && |run| == |actions| + 1
    && Good(run[0])
    && forall i {:trigger actions[i]} :: 0 <= i < |actions| ==> IsStep(run[i], actions[i], run[i + 1])
  }

  // A finalization that changed something accepted an invitation.
  lemma Taken(db: Db, input: Input, now: Time, ids: NewRows) returns (d: Decision, s: Id)
    requires Linked(db) && Unused(db, ids) && Run(db, input, now, ids).0 != db
    ensures Accepts(db, input, now, ids, d, Run(db, input, now, ids).0, s)
  {
    d := Decide(db, input, now, ids, CheckCheckout(db, input).value.reservation).value;
    s := Run(db, input, now, ids).1.value.platformSubscriptionId;
  }

  lemma TakenFacts(db: Db, input: Input, now: Time, ids: NewRows) returns (d: Decision)
    requires Linked(db) && Unused(db, ids) && Run(db, input, now, ids).0 != db
    ensures Facts(db, input, ids, d) && Run(db, input, now, ids).0 == After(db, input, now, ids, d)
    ensures Entitling(input.provider.status) && !IsTaken(db, input.invitationId, AcceptedMembership(ids, d.branch))
  {
    var s;
    d, s := Taken(db, input, now, ids);
    AcceptsFacts(db, input, now, ids, d, Run(db, input, now, ids).0, s);
  }

  lemma OneLivePlanKept(db: Db, input: Input, now: Time, ids: NewRows, d: Decision)
    requires Linked(db) && OneLivePlan(db) && Unused(db, ids) && Facts(db, input, ids, d)
    requires Entitling(input.provider.status)
    ensures OneLivePlan(After(db, input, now, ids, d))
  {
    var after, inv := After(db, input, now, ids, d), db.invitations[input.invitationId];
    var agencyId, m := AcceptedAgency(db, ids, inv, d.branch), AcceptedMembership(ids, d.branch);
    PlansAfter(db, input, now, ids, d);
    forall s, t, x | s in LiveMemberPlans(after, x) && t in LiveMemberPlans(after, x)
      ensures s == t
    {
      MemberPlansShrink(db, input, now, ids, d, s, x);
      MemberPlansShrink(db, input, now, ids, d, t, x);
      assert x == m && input.plan == MemberPlan ==>
        s in LivePlansOfSubject(after, input.plan, agencyId, m)
        && t in LivePlansOfSubject(after, input.plan, agencyId, m);
    }
    forall s, t, x | s in LiveAgencyPlans(after, x) && t in LiveAgencyPlans(after, x)
      ensures s == t
    {
      AgencyPlansShrink(db, input, now, ids, d, s, x);
      AgencyPlansShrink(db, input, now, ids, d, t, x);
      assert x == agencyId && input.plan == AgencyPlan ==>
        s in LivePlansOfSubject(after, input.plan, agencyId, m)
        && t in LivePlansOfSubject(after, input.plan, agencyId, m);
    }
  }

  ghost predicate SameHierarchy(db: Db, next: Db) {
    && next.agents == db.agents && next.agencies == db.agencies && next.memberships == db.memberships
    && next.founders == db.founders
    && (forall i, a, p :: PendingFrom(next, i, a, p) ==> PendingFrom(db, i, a, p) || exists m :: ActiveAs(db, m, a, p))
  }

  // The invariant only reads hierarchy, membership and pending-invitation rows.
  lemma SameHierarchyKeepsInv(db: Db, next: Db)
    requires Inv(db) && Linked(next) && SameHierarchy(db, next)
    ensures Inv(next)
  {
    assert Parents(next) == Parents(db) && AgencyParents(next) == AgencyParents(db);
    assert forall a, g :: IsOwner(next, a, g) <==> IsOwner(db, a, g);
    assert forall m, a, g :: ActiveAs(next, m, a, g) <==> ActiveAs(db, m, a, g);
    forall i, a, p, owner | PendingFrom(next, i, a, p) && IsOwner(next, a, owner)
      ensures AtOrAbove(Parents(next), owner, p)
    {
      assert IsOwner(db, a, owner);
      if !PendingFrom(db, i, a, p) {
        var m :| ActiveAs(db, m, a, p);
      }
    }
  }

  lemma FoundersOwnKept(db: Db, input: Input, now: Time, ids: NewRows, d: Decision)
    requires Linked(db) && FoundersOwn(db) && Unused(db, ids) && Facts(db, input, ids, d)
    ensures FoundersOwn(After(db, input, now, ids, d))
  {
    var after, g := After(db, input, now, ids, d), d.subject.agentId;
    var agencyId := AcceptedAgency(db, ids, db.invitations[input.invitationId], d.branch);
    MembershipAfter(db, input, now, ids, d);
    forall h | h in after.founders && after.founders[h].isAgencyAccount && after.founders[h].agencyId.Some?
      ensures IsOwner(after, after.founders[h].agencyId.value, h)
    {
      if h in db.founders && after.founders[h] == db.founders[h] {
        OwnersAfter(db, input, now, ids, d, after.founders[h].agencyId.value, h);
      } else {
        assert h == g && input.plan == AgencyPlan && after.founders[h].agencyId == Some(agencyId);
        assert AcceptedMembership(ids, d.branch) in ActiveMemberships(after, g);
      }
    }
  }

  lemma OneInvitationKept(db: Db, input: Input, now: Time, ids: NewRows, d: Decision)
    requires OneInvitationPerMembership(db) && Facts(db, input, ids, d)
    requires !IsTaken(db, input.invitationId, AcceptedMembership(ids, d.branch))
    ensures OneInvitationPerMembership(After(db, input, now, ids, d))
  {
    var after, accepted := After(db, input, now, ids, d), AcceptedMembership(ids, d.branch);
    forall i, m | RelatedTo(after, i, m)
      ensures if i == input.invitationId then m == accepted else RelatedTo(db, i, m) && m != accepted
    {
      InvitationSubjects(db, input, now, d, accepted, i);
    }
  }

  lemma FinalizeKeepsGood(db: Db, input: Input, now: Time, ids: NewRows)
    requires Good(db) && Unused(db, ids)
    ensures Good(Run(db, input, now, ids).0)
  {
    if Run(db, input, now, ids).0 != db {
      var d := TakenFacts(db, input, now, ids);
      FinalizationKeepsInv(db, input, now, ids);
      OneLivePlanKept(db, input, now, ids, d);
      FoundersOwnKept(db, input, now, ids, d);
      OneInvitationKept(db, input, now, ids, d);
    }
  }

  lemma InvitationAdded(db: Db, i: Id, row: Invitation)
    requires Linked(db) && row.acceptedAgentId.None? && row.acceptedMembershipId.None?
    requires row.agencyId in db.agencies && row.invitedByAgentId in db.agents
    ensures Linked(db.(invitations := db.invitations[i := row]))
  {
  }

  lemma InviteKeepsLinks(db: Db, action: Action)
    requires Linked(db) && action.Invite? && Enabled(db, action)
    ensures Linked(Apply(db, action)) && SameHierarchy(db, Apply(db, action))
  {
    InvitationAdded(db, action.invitationId, action.invitation);
  }

  lemma CloseKeepsLinks(db: Db, action: Action)
    requires Linked(db) && action.Close? && Enabled(db, action)
    ensures Linked(Apply(db, action)) && SameHierarchy(db, Apply(db, action))
  {
  }

  lemma ReserveKeepsLinks(db: Db, action: Action)
    requires Linked(db) && action.Reserve? && Enabled(db, action)
    ensures Linked(Apply(db, action)) && SameHierarchy(db, Apply(db, action))
  {
  }

  lemma BillKeepsLinks(db: Db, action: Action)
    requires Linked(db) && action.Bill? && Enabled(db, action)
    ensures Linked(Apply(db, action)) && SameHierarchy(db, Apply(db, action))
  {
  }

  lemma ActionKeepsLinks(db: Db, action: Action)
    requires Linked(db) && !action.Finalize? && Enabled(db, action)
    ensures Linked(Apply(db, action)) && SameHierarchy(db, Apply(db, action))
  {
    match action {
      case Invite(_, _) => InviteKeepsLinks(db, action);
      case Close(_, _) => CloseKeepsLinks(db, action);
      case Reserve(_, _) => ReserveKeepsLinks(db, action);
      case Bill(_) => BillKeepsLinks(db, action);
    }
  }

  lemma SameRelations(db: Db, action: Action)
    requires OneInvitationPerMembership(db) && Enabled(db, action) && !action.Finalize?
    ensures OneInvitationPerMembership(Apply(db, action))
  {
    assert forall i, m :: RelatedTo(Apply(db, action), i, m) ==> RelatedTo(db, i, m);
  }

  lemma SamePlans(db: Db, next: Db)
    requires OneLivePlan(db) && next.subscriptions == db.subscriptions
    ensures OneLivePlan(next)
  {
    assert forall x :: LiveMemberPlans(next, x) == LiveMemberPlans(db, x);
    assert forall x :: LiveAgencyPlans(next, x) == LiveAgencyPlans(db, x);
  }

  lemma StepKeepsGood(db: Db, action: Action)
    requires Good(db) && Enabled(db, action)
    ensures Good(Apply(db, action))
  {
    if action.Finalize? {
      FinalizeKeepsGood(db, action.input, action.now, action.ids);
    } else {
      ActionKeepsLinks(db, action);
      SameHierarchyKeepsInv(db, Apply(db, action));
      SameRelations(db, action);
      if !action.Bill? {
        SamePlans(db, Apply(db, action));
      }
    }
  }

  lemma RunStepKeepsGood(run: seq<Db>, actions: seq<Action>, i: nat)
    requires IsRun(run, actions) && i < |actions| && Good(run[i])
    ensures Good(run[i + 1])
  {
    assert IsStep(run[i], actions[i], run[i + 1]);
    StepKeepsGood(run[i], actions[i]);
  }

  // Step k of the run is this acceptance, from tables db.
  ghost predicate AcceptsAt(run: seq<Db>, k: nat, db: Db, input: Input, now: Time, ids: NewRows, d: Decision, s: Id) {
    && k + 1 < |run| && db == run[k] && Unused(db, ids) && Accepts(db, input, now, ids, d, run[k + 1], s)
  }

  lemma {:induction false} RunKeepsGood(run: seq<Db>, actions: seq<Action>, i: nat)
    requires IsRun(run, actions) && i < |run|
    ensures Good(run[i])
  {
    if i > 0 {
      RunKeepsGood(run, actions, i - 1);
      RunStepKeepsGood(run, actions, i - 1);
    }
  }

  lemma RunStep(run: seq<Db>, actions: seq<Action>, i: nat)
    requires IsRun(run, actions) && i < |actions|
    ensures Linked(run[i]) && Enabled(run[i], actions[i]) && run[i + 1] == Apply(run[i], actions[i])
  {
    RunKeepsGood(run, actions, i);
    assert IsStep(run[i], actions[i], run[i + 1]);
  }

  // Safety of every run: neither hierarchy ever contains a cycle.
  lemma RunsStayAcyclic(run: seq<Db>, actions: seq<Action>, i: nat)
    requires IsRun(run, actions) && i < |run|
    ensures Acyclic(Parents(run[i])) && Acyclic(AgencyParents(run[i]))
  {
    RunKeepsGood(run, actions, i);
    AgencyGraphAcyclic(run[i]);
  }

  // ---------- acceptance is final ----------

  // The part of an invitation row that records who accepted it and as what.
  predicate SameAcceptance(a: Invitation, b: Invitation) {
    a.status == b.status && a.acceptedAt == b.acceptedAt && a.acceptedAgentId == b.acceptedAgentId
      && a.acceptedPlan == b.acceptedPlan && a.acceptedMembershipId == b.acceptedMembershipId
  }

  ghost predicate AcceptedAs(db: Db, i: Id, row: Invitation) {
    i in db.invitations && db.invitations[i].status == Accepted && SameAcceptance(row, db.invitations[i])
  }

  lemma FinalizeKeepsAcceptance(db: Db, input: Input, now: Time, ids: NewRows, d: Decision, i: Id, row: Invitation)
    requires Facts(db, input, ids, d) && AcceptedAs(db, i, row)
    ensures AcceptedAs(After(db, input, now, ids, d), i, row)
  {
  }

  lemma StepKeepsAcceptance(db: Db, action: Action, i: Id, row: Invitation)
    requires Linked(db) && Enabled(db, action) && AcceptedAs(db, i, row)
    ensures AcceptedAs(Apply(db, action), i, row)
  {
    if action.Finalize? && Apply(db, action) != db {
      var d := TakenFacts(db, action.input, action.now, action.ids);
      FinalizeKeepsAcceptance(db, action.input, action.now, action.ids, d, i, row);
    }
  }

  lemma RunStepKeepsAcceptance(run: seq<Db>, actions: seq<Action>, j: nat, id: Id, row: Invitation)
    requires IsRun(run, actions) && j < |actions| && AcceptedAs(run[j], id, row)
    ensures AcceptedAs(run[j + 1], id, row)
  {
    RunStep(run, actions, j);
    StepKeepsAcceptance(run[j], actions[j], id, row);
  }

  // An invitation leaves PENDING for ACCEPTED at most once: whatever a run does
  // later, the acceptance it recorded stays as it is.
  lemma {:induction false} AcceptanceIsFinal(run: seq<Db>, actions: seq<Action>, i: nat, j: nat, id: Id)
    requires IsRun(run, actions) && i <= j < |run| && id in run[i].invitations
    requires run[i].invitations[id].status == Accepted
    ensures AcceptedAs(run[j], id, run[i].invitations[id])
    decreases j
  {
    if i < j {
      AcceptanceIsFinal(run, actions, i, j - 1, id);
      RunStepKeepsAcceptance(run, actions, j - 1, id, run[i].invitations[id]);
    }
  }

  // ---------- replays ----------

  ghost predicate FinalizedAs(db: Db, c: Id, row: Checkout) {
    c in db.checkouts && db.checkouts[c] == row && row.finalized
  }

  lemma StepKeepsFinalized(db: Db, action: Action, c: Id, row: Checkout)
    requires Linked(db) && Enabled(db, action) && FinalizedAs(db, c, row)
    ensures FinalizedAs(Apply(db, action), c, row)
  {
    if action.Finalize? && Apply(db, action) != db {
      var d := TakenFacts(db, action.input, action.now, action.ids);
    }
  }

  lemma RunStepKeepsFinalized(run: seq<Db>, actions: seq<Action>, j: nat, c: Id, row: Checkout)
    requires IsRun(run, actions) && j < |actions| && FinalizedAs(run[j], c, row)
    ensures FinalizedAs(run[j + 1], c, row)
  {
    RunStep(run, actions, j);
    StepKeepsFinalized(run[j], actions[j], c, row);
  }

  lemma {:induction false} FinalizedIsFinal(run: seq<Db>, actions: seq<Action>, i: nat, j: nat, c: Id)
    requires IsRun(run, actions) && i <= j < |run| && c in run[i].checkouts && run[i].checkouts[c].finalized
    ensures FinalizedAs(run[j], c, run[i].checkouts[c])
    decreases j
  {
    if i < j {
      FinalizedIsFinal(run, actions, i, j - 1, c);
      RunStepKeepsFinalized(run, actions, j - 1, c, run[i].checkouts[c]);
    }
  }

  // The checkout row says that this input was finalized with subscription s.
  ghost predicate Recorded(db: Db, input: Input, s: Id) {
    && input.checkoutId.Some? && input.checkoutId.value in db.checkouts
    && var row := db.checkouts[input.checkoutId.value];
    && row.finalized && row.invitationId == input.invitationId && row.stripeId == input.provider.stripeId
    && row.platformSubscriptionId == Some(s)
  }

  // Accepting through a checkout records the outcome in its row.
  lemma AcceptanceIsRecorded(db: Db, input: Input, now: Time, ids: NewRows, d: Decision, after: Db, s: Id)
    requires Linked(db) && Unused(db, ids) && Accepts(db, input, now, ids, d, after, s) && input.checkoutId.Some?
    ensures Recorded(after, input, s)
  {
  }

  // A later confirmation of the same provider subscription, with whatever current
  // status and period the provider now reports.
  predicate Redelivers(later: Input, input: Input) {
    && later.checkoutId == input.checkoutId && later.invitationId == input.invitationId
    && later.provider.stripeId == input.provider.stripeId
    && Entitling(later.provider.status) && later.provider.periodStart < later.provider.periodEnd
  }

  // The provider may deliver the confirmation again, any number of steps later, for
  // a later period and with fresh row ids: it gets the same subscription and writes
  // nothing.
  lemma ReplayIsHarmless(run: seq<Db>, actions: seq<Action>, i: nat, j: nat, input: Input, s: Id, later: Input,
                         now: Time, ids: NewRows)
    requires IsRun(run, actions) && i <= j < |run| && Recorded(run[i], input, s) && Redelivers(later, input)
    ensures Run(run[j], later, now, ids) == (run[j], Ok(Outcome(s, false)))
  {
    FinalizedIsFinal(run, actions, i, j, input.checkoutId.value);
  }
}
