/**
 What an acceptance leaves in each table, written out on the rows: the rows it adds,
 the columns it moves, and that every other row is as it was.
 */
module FinalizationWrites {
  import opened Wrappers
  import opened Hierarchy
  import opened ParentGraph
  import opened Text
  import opened Tables
  import opened Finalization
  import opened FinalizationStore
  import opened FinalizationInvariant
  import opened FinalizationRuns
  import opened FinalizationReasons

  // Row k of the table is as it was.
  ghost predicate Kept<T>(before: map<Id, T>, after: map<Id, T>, k: Id) {
    (k in before <==> k in after) && (k in before ==> after[k] == before[k])
  }

  // The looked-up account is one with that address up to case; without one there is none.
  lemma UserIsFound(db: Db, email: string)
    ensures FindUser(db, email).Some? ==>
      FindUser(db, email).value in db.users && SameLetters(db.users[FindUser(db, email).value].email, Trim(email))
    ensures FindUser(db, email).None? ==> forall u :: u in db.users ==> !SameLetters(db.users[u].email, Trim(email))
  {
    var found := set u | u in db.users && EqualInsensitive(db.users[u].email, Normalize(email));
    assert Lower(Normalize(email)) == Lower(Trim(email));
    forall u | u in db.users
      ensures u in found <==> SameLetters(db.users[u].email, Trim(email))
    {
      EqualInsensitiveIff(db.users[u].email, Trim(email));
    }
  }

  // A request that is not refused is an acceptance or the replay of a finalized checkout.
  lemma AcceptanceOrReplay(db: Db, input: Input, now: Time, ids: NewRows, o: Outcome)
    requires Run(db, input, now, ids).1 == Ok(o)
    ensures
      || (Run(db, input, now, ids).0 == db && !o.createdAccount && Recorded(db, input, o.platformSubscriptionId))
      || exists d :: Accepts(db, input, now, ids, d, Run(db, input, now, ids).0, o.platformSubscriptionId)
  {
    if CheckCheckout(db, input).value.Proceed? {
      var d := Decide(db, input, now, ids, CheckCheckout(db, input).value.reservation).value;
      assert Accepts(db, input, now, ids, d, Run(db, input, now, ids).0, o.platformSubscriptionId);
    }
  }

  // The tables `after` and the plan row s are what this decision leaves.
  ghost predicate Leaves(db: Db, input: Input, now: Time, ids: NewRows, d: Decision, after: Db, s: Id) {
    && Linked(db) && Unused(db, ids) && Facts(db, input, ids, d) && after == After(db, input, now, ids, d)
    && s == SubscriptionIdAfter(db, input, ids, AcceptedAgency(db, ids, db.invitations[input.invitationId], d.branch))
  }

  lemma AcceptanceLeaves(db: Db, input: Input, now: Time, ids: NewRows, d: Decision, after: Db, s: Id)
    requires Linked(db) && Unused(db, ids) && Accepts(db, input, now, ids, d, after, s)
    ensures Leaves(db, input, now, ids, d, after, s)
  {
    AcceptsFacts(db, input, now, ids, d, after, s);
  }

  // ---------- account, hierarchy, founder enrollment ----------

  // An account is opened only for an address nobody has; it is the invited agent's and
  // starts onboarding. Nobody else's account or onboarding changes.
  lemma AccountLeft(db: Db, input: Input, now: Time, ids: NewRows, d: Decision, after: Db, s: Id)
    requires Linked(db) && Unused(db, ids) && Accepts(db, input, now, ids, d, after, s)
    ensures d.subject.created <==> FindUser(db, input.invitedEmail).None?
    ensures d.subject.created ==>
      && after.users == db.users[ids.user := User(Normalize(input.invitedEmail), true, Some(d.subject.agentId))]
      && after.onboardingInProgress == db.onboardingInProgress[d.subject.agentId := true]
    ensures !d.subject.created ==>
      && after.users == db.users && after.onboardingInProgress == db.onboardingInProgress
      && IsInvited(db, input, d.subject.agentId)
  {
    AcceptsFacts(db, input, now, ids, d, after, s);
    DecisionIsAccount(db, input, now, ids, d, after, s);
  }

  lemma DecisionIsAccount(db: Db, input: Input, now: Time, ids: NewRows, d: Decision, after: Db, s: Id)
    requires Accepts(db, input, now, ids, d, after, s)
    ensures d.subject.created <==> FindUser(db, input.invitedEmail).None?
    ensures !d.subject.created ==> IsInvited(db, input, d.subject.agentId)
  {
    PassedAccepts(db, input, now, ids, d, after, s);
    DecisionPassed(db, input, now, ids, CheckCheckout(db, input).value.reservation, d);
  }

  // The invited agent moves under the inviter and, with the agency plan, becomes an
  // owner with the agency's promotion view; with the member plan the view is personal.
  // A new agent is active, and no other agent changes.
  lemma AgentLeft(db: Db, input: Input, now: Time, ids: NewRows, d: Decision, after: Db, s: Id)
    requires Leaves(db, input, now, ids, d, after, s)
    ensures input.invitationId in db.invitations && d.subject.agentId in after.agents
    ensures
      var row := after.agents[d.subject.agentId];
      && row.parentAgentId == Some(db.invitations[input.invitationId].invitedByAgentId)
      && (row.agencyScope <==> input.plan == AgencyPlan)
      && (if d.subject.agentId in db.agents
          then row.active == db.agents[d.subject.agentId].active
            && row.ownerRank == (db.agents[d.subject.agentId].ownerRank || input.plan == AgencyPlan)
          else row.active && row.ownerRank == (input.plan == AgencyPlan))
    ensures forall x :: x != d.subject.agentId ==> Kept(db.agents, after.agents, x)
  {
  }

  // A founder who accepts the agency plan becomes an agency account of the agency they
  // then own; the trial dates stay. Without that plan no enrollment changes.
  lemma FounderFollows(db: Db, input: Input, now: Time, ids: NewRows, d: Decision, after: Db, s: Id)
    requires Leaves(db, input, now, ids, d, after, s)
    ensures after.founders.Keys == db.founders.Keys
    ensures forall x :: x != d.subject.agentId ==> Kept(db.founders, after.founders, x)
    ensures input.plan == MemberPlan ==> after.founders == db.founders
    ensures input.plan == AgencyPlan && d.subject.agentId in db.founders ==>
      var was, f := db.founders[d.subject.agentId], after.founders[d.subject.agentId];
      && f.trialStartedAt == was.trialStartedAt && f.trialEndsAt == was.trialEndsAt
      && f.isAgencyAccount && f.agencyId.Some? && f.agencyId.value in after.agencies
      && IsOwner(after, f.agencyId.value, d.subject.agentId)
  {
    AcceptedRow(db, input, now, ids, d);
    RowsOnlyAdded(db, input, now, ids, d);
  }

  // And it is the agency plan that a founder accepts.
  lemma FoundersTakeAgencyPlan(db: Db, input: Input, now: Time, ids: NewRows, d: Decision, after: Db, s: Id)
    requires Linked(db) && Unused(db, ids) && Accepts(db, input, now, ids, d, after, s)
    requires d.subject.agentId in db.founders
    ensures input.plan == AgencyPlan
  {
    AcceptsDecision(db, input, now, ids, d, after, s);
    PassedAccepts(db, input, now, ids, d, after, s);
    DecisionPassed(db, input, now, ids, CheckCheckout(db, input).value.reservation, d);
  }

  // ---------- memberships and agencies ----------

  // The membership the acceptance adds: an owner's in the new agency, or a member's in
  // the inviting one. None when the agent's own agency is re-parented.
  lemma MembershipAdded(db: Db, input: Input, now: Time, ids: NewRows, d: Decision, after: Db, s: Id)
    requires Leaves(db, input, now, ids, d, after, s)
    ensures input.invitationId in db.invitations
    ensures d.branch.Reparent? ==> after.memberships == db.memberships
    ensures !d.branch.Reparent? ==>
      var inv := db.invitations[input.invitationId];
      && after.memberships.Keys == db.memberships.Keys + {ids.membership}
      && after.memberships[ids.membership] ==
        (if input.plan == AgencyPlan
         then Membership(ids.agency, d.subject.agentId, Owner, Some(inv.invitedByAgentId), ids.at, None)
         else Membership(inv.agencyId, d.subject.agentId, Member, Some(inv.invitedByAgentId), ids.at, None))
  {
  }

  // A promoted member's old membership ends now, as it was otherwise; every other
  // membership is as it was.
  lemma MembershipLeft(db: Db, input: Input, now: Time, ids: NewRows, d: Decision, after: Db, s: Id, m: Id)
    requires Leaves(db, input, now, ids, d, after, s) && m in db.memberships
    ensures m in after.memberships
    ensures after.memberships[m] ==
      if !d.branch.Reparent? && IsActive(db, d.subject.agentId, m)
        then db.memberships[m].(endedAt := Some(now)) else db.memberships[m]
  {
    assert IsActive(db, d.subject.agentId, m) <==> m in ActiveMemberships(db, d.subject.agentId);
  }

  // An agency that exists keeps its name; a new one has the name that was given.
  function AgencyName(db: Db, input: Input, a: Id): string {
    if a in db.agencies then db.agencies[a].name else if input.agencyName.Some? then input.agencyName.value else ""
  }

  // With the agency plan the agent's agency, their own or a new one with the name they
  // gave, hangs below the inviting one; no other agency changes.
  lemma AgenciesLeft(db: Db, input: Input, now: Time, ids: NewRows, d: Decision, after: Db, s: Id)
    requires Leaves(db, input, now, ids, d, after, s)
    ensures input.invitationId in db.invitations && (d.branch.Reparent? ==> d.branch.membershipId in db.memberships)
    ensures
      var inv := db.invitations[input.invitationId];
      var a := AcceptedAgency(db, ids, inv, d.branch);
      && (input.plan == MemberPlan ==> after.agencies == db.agencies)
      && (input.plan == AgencyPlan ==>
          && a in after.agencies && after.agencies[a].parentAgencyId == Some(inv.agencyId)
          && after.agencies[a].name == AgencyName(db, input, a)
          && (a in db.agencies ==> d.branch.Reparent? && a == db.memberships[d.branch.membershipId].agencyId)
          && forall x :: x != a ==> Kept(db.agencies, after.agencies, x))
  {
  }

  // ---------- plans ----------

  // The plan row of the acceptance says what the provider confirmed, for the accepted
  // agency or membership.
  lemma PlanLeft(db: Db, input: Input, now: Time, ids: NewRows, d: Decision, after: Db, s: Id)
    requires Leaves(db, input, now, ids, d, after, s)
    ensures input.invitationId in db.invitations && (d.branch.Reparent? ==> d.branch.membershipId in db.memberships)
    ensures s in after.subscriptions
    ensures
      var row, inv := after.subscriptions[s], db.invitations[input.invitationId];
      && row.plan == input.plan && row.status == input.provider.status && row.stripeId == input.provider.stripeId
      && row.unitAmountCents == input.unitAmountCents
      && row.periodStart == Some(input.provider.periodStart) && row.periodEnd == Some(input.provider.periodEnd)
      && (input.plan == AgencyPlan ==> row.agencyId == Some(AcceptedAgency(db, ids, inv, d.branch)))
      && (input.plan == MemberPlan ==> row.membershipId == Some(ids.membership))
      && row.createdAt == (if s in db.subscriptions then db.subscriptions[s].createdAt else ids.at)
      && (s !in db.subscriptions ==>
          && s == ids.subscription && row.agentId.None?
          && (if input.plan == AgencyPlan then row.membershipId.None? else row.agencyId.None?))
  {
  }

  // What the acceptance replaces: the agent's individual plans, and the plan of the
  // membership a promotion ends.
  predicate IsReplaced(db: Db, d: Decision, x: Id) {
    && x in db.subscriptions
    && ((d.branch.Promote? && IsLivePlan(db, x, MemberPlan, None, Some(d.branch.membershipId)))
        || (IsLivePlan(db, x, IndividualPlan, None, None)
            && db.subscriptions[x].agentId == Some(d.subject.agentId)))
  }

  lemma StopsIffReplaced(db: Db, input: Input, ids: NewRows, d: Decision, x: Id)
    requires OneLivePlan(db) && Facts(db, input, ids, d) && x in db.subscriptions
    ensures IsReplaced(db, d, x) <==> Stops(d, x, db.subscriptions[x])
  {
    if d.branch.Promote? {
      MemberPlanIs(db, d.branch.membershipId);
      assert IsLivePlan(db, d.branch.memberSubscriptionId, MemberPlan, None, Some(d.branch.membershipId));
    }
  }

  // Those plans are canceled, and every other plan row is as it was.
  lemma OtherPlanLeft(db: Db, input: Input, now: Time, ids: NewRows, d: Decision, after: Db, s: Id, x: Id)
    requires OneLivePlan(db) && Leaves(db, input, now, ids, d, after, s) && x != s
    ensures x in after.subscriptions <==> x in db.subscriptions
    ensures x in db.subscriptions ==>
      after.subscriptions[x] ==
        if IsReplaced(db, d, x) then db.subscriptions[x].(status := Canceled) else db.subscriptions[x]
  {
    if x in db.subscriptions {
      StopsIffReplaced(db, input, ids, d, x);
    }
  }

  // ---------- invitations and checkouts ----------

  // The invitation records who accepted it, when, as what and at which price; a new or
  // unfinished agent is shown as onboarding.
  lemma InvitationLeft(db: Db, input: Input, now: Time, ids: NewRows, d: Decision, after: Db, s: Id)
    requires Leaves(db, input, now, ids, d, after, s)
    ensures input.invitationId in db.invitations && after.invitations.Keys == db.invitations.Keys
    ensures
      var was, g := db.invitations[input.invitationId], d.subject.agentId;
      after.invitations[input.invitationId] == was.(
        status := Accepted, acceptedAt := Some(now), acceptedAgentId := Some(g), acceptedPlan := Some(input.plan),
        acceptedMembershipId := Some(if d.branch.Reparent? then d.branch.membershipId else ids.membership),
        isCurrentCommercial := true,
        intendedType := Some(if input.plan == AgencyPlan then IntendedAgency else IntendedAgent),
        monthlyPriceCents := input.unitAmountCents, stageUpdatedAt := now,
        stage := if g in after.onboardingInProgress && after.onboardingInProgress[g] then Onboarding else ActiveStage)
  {
  }

  // The agent's former invitations stop being current, the one behind a promoted
  // membership is paused, and no other invitation changes.
  lemma OtherInvitationsLeft(db: Db, input: Input, now: Time, ids: NewRows, d: Decision, after: Db, s: Id, i: Id)
    requires Leaves(db, input, now, ids, d, after, s)
    requires i in db.invitations && i != input.invitationId && i in after.invitations
    ensures
      var was, row := db.invitations[i], after.invitations[i];
      && row == was.(isCurrentCommercial := row.isCurrentCommercial, stage := row.stage,
                     stageUpdatedAt := row.stageUpdatedAt)
      && (row.isCurrentCommercial <==> was.isCurrentCommercial && was.acceptedAgentId != Some(d.subject.agentId))
      && (if d.branch.Promote? && i == d.branch.previousInvitationId
          then row.stage == Paused && (was.stage != Paused ==> row.stageUpdatedAt == now)
          else row.stage == was.stage && row.stageUpdatedAt == was.stageUpdatedAt)
  {
  }

  lemma PausedIsHistory(db: Db, input: Input, now: Time, ids: NewRows, d: Decision, after: Db, s: Id)
    requires Leaves(db, input, now, ids, d, after, s) && d.branch.Promote?
    ensures input.invitationId in db.invitations && IsActive(db, d.subject.agentId, d.branch.membershipId)
    ensures IsHistory(db, db.invitations[input.invitationId], d.subject.agentId, d.branch.membershipId,
        d.branch.previousInvitationId)
  {
    assert d.branch.membershipId in ActiveMemberships(db, d.subject.agentId);
  }

  // The checkout is finalized with the plan row of the acceptance; no other checkout and
  // no provisioning changes.
  lemma CheckoutLeft(db: Db, input: Input, now: Time, ids: NewRows, d: Decision, after: Db, s: Id)
    requires Leaves(db, input, now, ids, d, after, s)
    ensures after.provisioned == db.provisioned && after.checkouts.Keys == db.checkouts.Keys
    ensures forall c :: Some(c) != input.checkoutId ==> Kept(db.checkouts, after.checkouts, c)
    ensures input.checkoutId.Some? && input.checkoutId.value in db.checkouts ==>
      var was, row := db.checkouts[input.checkoutId.value], after.checkouts[input.checkoutId.value];
      row == was.(finalized := true, userId := row.userId, stripeId := input.provider.stripeId,
                  platformSubscriptionId := Some(s))
  {
  }

  // It names the account of the invited agent.
  lemma CheckoutIsTheirs(db: Db, input: Input, now: Time, ids: NewRows, d: Decision, after: Db, s: Id, c: Id)
    requires Linked(db) && Unused(db, ids) && Accepts(db, input, now, ids, d, after, s) && input.checkoutId == Some(c)
    ensures c in after.checkouts && after.checkouts[c].userId.Some? && after.checkouts[c].userId.value in after.users
    ensures after.users[after.checkouts[c].userId.value].agentId == Some(d.subject.agentId)
  {
    AcceptsFacts(db, input, now, ids, d, after, s);
    DecisionIsAccount(db, input, now, ids, d, after, s);
  }
}
