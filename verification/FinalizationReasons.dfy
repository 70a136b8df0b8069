/**
 Every refusal of an invitation has its reason in the rows, and an acceptance has none
 against it. `Reason` says what each error means, apart from the order of the checks.
 */
module FinalizationReasons {
  import opened Wrappers
  import opened Hierarchy
  import opened ParentGraph
  import opened Text
  import opened Tables
  import opened Finalization
  import opened FinalizationStore
  import opened FinalizationInvariant
  import opened FinalizationRuns

  // ---------- what the rows say ----------

  // The agent of the existing account behind the invited address.
  predicate IsInvited(db: Db, input: Input, g: Id) {
    && FindUser(db, input.invitedEmail).Some? && FindUser(db, input.invitedEmail) == input.expectedUserId
    && var user := db.users[input.expectedUserId.value];
    user.isAgentRole && user.agentId == Some(g) && g in db.agents && db.agents[g].active
  }

  predicate IsActive(db: Db, g: Id, m: Id) {
    m in db.memberships && db.memberships[m].agentId == g && db.memberships[m].endedAt.None?
  }

  // List price of the plan less the ten dollars for invited people, in cents.
  function Price(plan: InvitedPlan): int {
    if plan == AgencyPlan then 89_90 else 49_90
  }

  predicate IsPaid(sub: Subscription, now: Time) {
    && (sub.status == Active || sub.status == Trialing)
    && (sub.periodStart.None? || sub.periodStart.value <= now) && (sub.periodEnd.None? || now < sub.periodEnd.value)
  }

  // The inviter may invite through membership m: it is theirs, active, in that agency,
  // and the plan that goes with its role is paid for.
  predicate MayInvite(db: Db, inv: Invitation, m: Id, now: Time) {
    && IsActive(db, inv.invitedByAgentId, m) && db.memberships[m].agencyId == inv.agencyId
    && exists s | s in db.subscriptions ::
         && IsPaid(db.subscriptions[s], now)
         && match db.memberships[m].role
            case Owner => db.subscriptions[s].plan == AgencyPlan && db.subscriptions[s].agencyId == Some(inv.agencyId)
            case Member => db.subscriptions[s].plan == MemberPlan && db.subscriptions[s].membershipId == Some(m)
  }

  // In which role the inviter acts: as recorded when the checkout was reserved, else
  // as their membership says now.
  ghost predicate ActsAs(db: Db, input: Input, inv: Invitation, now: Time, role: Role) {
    if input.checkoutId.Some? then
      input.checkoutId.value in db.checkouts && db.checkouts[input.checkoutId.value].inviterRole == role
    else
      exists m :: MayInvite(db, inv, m, now) && db.memberships[m].role == role
  }

  // A current accepted membership of that agent in the inviting agency that an earlier
  // AGENT invitation of it made, and the live member plan it pays with.
  predicate IsHistory(db: Db, inv: Invitation, g: Id, m: Id, i: Id) {
    && i in db.invitations && db.invitations[i].status == Accepted && db.invitations[i].agencyId == inv.agencyId
    && db.invitations[i].intendedType == Some(IntendedAgent) && db.invitations[i].acceptedPlan == Some(MemberPlan)
    && db.invitations[i].acceptedAgentId == Some(g) && db.invitations[i].acceptedMembershipId == Some(m)
  }

  predicate IsLivePlan(db: Db, s: Id, plan: Plan, agencyId: Option<Id>, membershipId: Option<Id>) {
    && s in db.subscriptions && db.subscriptions[s].plan == plan
    && (db.subscriptions[s].status == Trialing || db.subscriptions[s].status == Active
        || db.subscriptions[s].status == PastDue)
    && (agencyId.Some? ==> db.subscriptions[s].agencyId == agencyId)
    && (membershipId.Some? ==> db.subscriptions[s].membershipId == membershipId)
  }

  // ---------- what each error means ----------

  predicate ProviderReason(input: Input, e: Error) {
    match e
    case ProviderNotConfirmed => input.provider.status != Active && input.provider.status != Trialing
    case InvalidPeriod => input.provider.periodEnd <= input.provider.periodStart
    case _ => false
  }

  predicate CheckoutReason(db: Db, input: Input, e: Error) {
    && input.checkoutId.Some?
    && if input.checkoutId.value !in db.checkouts then e == CheckoutMissing
       else
         var c := db.checkouts[input.checkoutId.value];
         if c.finalized then
           && e == FinalizedCheckoutMismatch
           && !(c.invitationId == input.invitationId && c.stripeId == input.provider.stripeId
                && c.platformSubscriptionId.Some?)
         else
           && e == CheckoutMismatch
           && !(c.invitationId == input.invitationId && Normalize(c.email) == Normalize(input.invitedEmail)
                && c.userId == input.expectedUserId && c.plan == input.plan
                && c.unitAmountCents == input.unitAmountCents)
  }

  // A reserved invitation is judged by when the terms were accepted, another one by
  // the clock and by whether its inviter is still active.
  predicate IsClosed(db: Db, input: Input, inv: Invitation, now: Time) {
    || inv.status != Pending
    || (if input.checkoutId.Some? && input.checkoutId.value in db.checkouts
        then inv.expiresAt < db.checkouts[input.checkoutId.value].acceptedTermsAt
        else inv.expiresAt <= now || inv.invitedByAgentId !in db.agents || !db.agents[inv.invitedByAgentId].active)
  }

  ghost predicate InvitationReason(db: Db, input: Input, now: Time, e: Error) {
    if input.invitationId !in db.invitations then e == InvitationUnavailable
    else
      var inv := db.invitations[input.invitationId];
      || (e == InvitationUnavailable && IsClosed(db, input, inv, now))
      || (e == EmailChanged && Normalize(inv.email) != Normalize(input.invitedEmail))
      || (e == PlanMismatch
          && inv.intendedType == Some(if input.plan == AgencyPlan then IntendedAgent else IntendedAgency))
      || (e == PriceUnavailable && inv.intendedType.Some? && inv.monthlyPriceCents != Price(input.plan))
      || (e == AmountMismatch && input.unitAmountCents != Price(input.plan))
      || (e == NoAuthority && input.checkoutId.None? && forall m :: !MayInvite(db, inv, m, now))
  }

  ghost predicate AccountReason(db: Db, input: Input, e: Error) {
    match e
    case AccountChanged => FindUser(db, input.invitedEmail).Some? && forall g :: !IsInvited(db, input, g)
    case AccountUnprotected =>
      FindUser(db, input.invitedEmail).None?
        && (input.expectedUserId.Some? || input.passwordHash.None? || input.passwordHash.value == "")
    case _ => false
  }

  // Against the invited agent g.
  ghost predicate AgentReason(db: Db, input: Input, inv: Invitation, now: Time, g: Id, e: Error) {
    || (e == Managed && g in db.provisioned)
    || (e == OwnInvitation && g == inv.invitedByAgentId)
    || (e == OtherStructure && g in db.agents && db.agents[g].parentAgentId.Some?
        && db.agents[g].parentAgentId != Some(inv.invitedByAgentId))
    || (e == WouldCycle && StrictlyAbove(Parents(db), g, inv.invitedByAgentId))
    || (e == ManyMemberships && exists m, n :: m != n && IsActive(db, g, m) && IsActive(db, g, n))
    || (e == NotAvailable && ActsAs(db, input, inv, now, Member) && exists m :: IsActive(db, g, m))
    || (e == FounderMustChooseAgency && g in db.founders && input.plan == MemberPlan)
    || (e == AlreadyMember && input.plan == MemberPlan && exists m :: IsActive(db, g, m))
  }

  // Against what the acceptance would make of active membership m of that agent.
  ghost predicate MembershipReason(db: Db, input: Input, inv: Invitation, now: Time, g: Id, m: Id, e: Error) {
    && IsActive(db, g, m) && input.plan == AgencyPlan
    && var row := db.memberships[m];
    if row.role == Member then
      || (e == MemberElsewhere && row.agencyId != inv.agencyId)
      || (row.agencyId == inv.agencyId
          && (|| (e == NeedsAgencyInvitation
                  && !(ActsAs(db, input, inv, now, Owner) && inv.intendedType == Some(IntendedAgency)))
              || (e == NotPromotable && forall i :: !IsHistory(db, inv, g, m, i))
              || (e == NotPromotable && forall s :: !IsLivePlan(db, s, MemberPlan, None, Some(m)))
              || (e == MemberPlanMigration && input.checkoutId.Some?
                  && exists s ::
                       IsLivePlan(db, s, MemberPlan, None, Some(m)) && db.subscriptions[s].stripeId.Some?)))
    else
      || (e == AgencyBelowItself && row.agencyId == inv.agencyId)
      || (e == AgencyElsewhere && row.agencyId in db.agencies && db.agencies[row.agencyId].parentAgencyId.Some?
          && db.agencies[row.agencyId].parentAgencyId != Some(inv.agencyId))
      || (e == AgencyPlanMigration && input.checkoutId.Some?
          && exists s ::
               && IsLivePlan(db, s, AgencyPlan, Some(row.agencyId), None) && db.subscriptions[s].stripeId.Some?
               && db.subscriptions[s].stripeId != input.provider.stripeId)
      || (e == MembershipTaken && exists i ::
            && i in db.invitations && i != input.invitationId
            && db.invitations[i].acceptedMembershipId == Some(m))
  }

  predicate NameIsMissing(input: Input) {
    input.agencyName.None? || |Trim(input.agencyName.value)| < 2
  }

  ghost predicate Reason(db: Db, input: Input, now: Time, e: Error) {
    ProviderReason(input, e) || CheckoutReason(db, input, e) || RequestReason(db, input, now, e)
  }

  ghost predicate RequestReason(db: Db, input: Input, now: Time, e: Error) {
    || InvitationReason(db, input, now, e) || AccountReason(db, input, e)
    || (input.invitationId in db.invitations && SubjectReason(db, input, db.invitations[input.invitationId], now, e))
  }

  ghost predicate SubjectReason(db: Db, input: Input, inv: Invitation, now: Time, e: Error) {
    || (exists g :: IsInvited(db, input, g) && AgentReason(db, input, inv, now, g, e))
    || (exists g, m :: IsInvited(db, input, g) && MembershipReason(db, input, inv, now, g, m, e))
    || (e == AgencyNameMissing && input.plan == AgencyPlan && NameIsMissing(input)
        && forall g, m :: IsInvited(db, input, g) ==> !IsActive(db, g, m))
    || (e == AlreadyUsed && input.checkoutId.Some? && inv.expiresAt <= now)
  }

  // ---------- check by check ----------

  lemma CheckoutStage(db: Db, input: Input, e: Error)
    ensures CheckCheckout(db, input) == Err(e) ==> CheckoutReason(db, input, e)
    ensures CheckCheckout(db, input).Ok? ==> !CheckoutReason(db, input, e)
  {
  }

  // The reservation handed on by the first check.
  predicate Reserves(db: Db, input: Input, reservation: Reservation) {
    CheckCheckout(db, input) == Ok(Proceed(reservation))
  }

  lemma ClosedRefused(db: Db, input: Input, now: Time, reservation: Reservation)
    requires Reserves(db, input, reservation) && input.invitationId in db.invitations
    ensures CheckInvitation(db, input, now, reservation) == Some(InvitationUnavailable)
       <==> IsClosed(db, input, db.invitations[input.invitationId], now)
  {
  }

  lemma PriceRefused(db: Db, input: Input, now: Time, reservation: Reservation, e: Error)
    requires CheckInvitation(db, input, now, reservation) == Some(e) && e != InvitationUnavailable
    ensures InvitationReason(db, input, now, e)
  {
  }

  lemma InvitationRefused(db: Db, input: Input, now: Time, reservation: Reservation, e: Error)
    requires Reserves(db, input, reservation) && CheckInvitation(db, input, now, reservation) == Some(e)
    ensures InvitationReason(db, input, now, e)
  {
    if e != InvitationUnavailable {
      PriceRefused(db, input, now, reservation, e);
    } else if input.invitationId in db.invitations {
      ClosedRefused(db, input, now, reservation);
    }
  }

  lemma InvitationStands(db: Db, input: Input, now: Time, reservation: Reservation, e: Error)
    requires Reserves(db, input, reservation) && CheckInvitation(db, input, now, reservation).None?
    requires e != NoAuthority
    ensures !InvitationReason(db, input, now, e)
  {
  }

  lemma AuthorityIs(db: Db, inv: Invitation, m: Id, now: Time)
    requires m in db.memberships && AgentActive(db, inv.invitedByAgentId)
    ensures HasAuthority(db, m, inv.agencyId, inv.invitedByAgentId, now) <==> MayInvite(db, inv, m, now)
  {
  }

  lemma AuthorityStage(db: Db, input: Input, now: Time, reservation: Reservation, inv: Invitation)
    requires OneMembership(db) && Reserves(db, input, reservation)
    requires input.invitationId in db.invitations && inv == db.invitations[input.invitationId]
    requires reservation.NoReservation? ==> AgentActive(db, inv.invitedByAgentId)
    ensures InvitationReason(db, input, now, NoAuthority) <==> AuthorityRole(db, inv, now, reservation).None?
    ensures AuthorityRole(db, inv, now, reservation).Some? ==>
      forall role :: ActsAs(db, input, inv, now, role) <==> role == AuthorityRole(db, inv, now, reservation).value
  {
    if reservation.NoReservation? {
      var may := set m | m in db.memberships && HasAuthority(db, m, inv.agencyId, inv.invitedByAgentId, now);
      forall m | m in db.memberships
        ensures m in may <==> MayInvite(db, inv, m, now)
      {
        AuthorityIs(db, inv, m, now);
      }
      if First(may).Some? {
        var m := First(may).value;
        forall n | MayInvite(db, inv, n, now)
          ensures n == m
        {
          assert ActiveAs(db, m, inv.agencyId, inv.invitedByAgentId) && ActiveAs(db, n, inv.agencyId,
            inv.invitedByAgentId);
        }
        assert MayInvite(db, inv, m, now);
      }
    }
  }

  lemma AccountRefused(db: Db, input: Input, ids: NewRows, inviter: Id, e: Error)
    requires ResolveSubject(db, input, ids, inviter) == Err(e)
    ensures AccountReason(db, input, e)
  {
  }

  // What the account check hands on: an existing agent with their active memberships,
  // or a new one who hangs below the inviter.
  ghost predicate IsSubject(db: Db, inviter: Id, s: Subject) {
    && s.memberships == ActiveMemberships(db, s.agentId)
    && s.parentAgentId == (if s.created then Some(inviter) else ParentOf(Parents(db), s.agentId))
    && (s.created ==> s.agentId != inviter && s.memberships == {})
    && (!s.created ==> s.agentId in db.agents)
  }

  lemma AccountStands(db: Db, input: Input, ids: NewRows, inviter: Id, s: Subject)
    requires Linked(db) && Unused(db, ids) && inviter in db.agents
    requires ResolveSubject(db, input, ids, inviter) == Ok(s)
    ensures IsSubject(db, inviter, s)
    ensures forall g :: IsInvited(db, input, g) <==> !s.created && g == s.agentId
  {
    NoRowsYet(db, ids);
  }

  lemma AccountIsFine(db: Db, input: Input, ids: NewRows, inviter: Id, s: Subject, e: Error)
    requires ResolveSubject(db, input, ids, inviter) == Ok(s)
    ensures !AccountReason(db, input, e)
  {
    if !s.created {
      assert IsInvited(db, input, s.agentId);
    }
  }

  lemma TwoMemberships(db: Db, g: Id)
    ensures |ActiveMemberships(db, g)| > 1 <==> exists m, n :: m != n && IsActive(db, g, m) && IsActive(db, g, n)
  {
    var all := ActiveMemberships(db, g);
    if m, n :| m != n && IsActive(db, g, m) && IsActive(db, g, n) {
      assert {m, n} <= all;
      assert |all - {m, n}| == |all| - 2;
    }
    if |all| > 1 {
      var m := First(all).value;
      assert |all - {m}| == |all| - 1;
      var n := First(all - {m}).value;
      assert IsActive(db, g, m) && IsActive(db, g, n);
    }
  }

  lemma NoMembership(db: Db, g: Id)
    ensures |ActiveMemberships(db, g)| > 0 <==> exists m :: IsActive(db, g, m)
    ensures ActiveMemberships(db, g) == {} <==> forall m :: !IsActive(db, g, m)
  {
    var all := ActiveMemberships(db, g);
    if First(all).Some? {
      assert IsActive(db, g, First(all).value);
    }
    if m :| IsActive(db, g, m) {
      assert m in all;
    }
  }

  lemma AgentRefused(db: Db, input: Input, inv: Invitation, now: Time, role: Role, s: Subject, below: bool, e: Error)
    requires IsSubject(db, inv.invitedByAgentId, s) && ActsAs(db, input, inv, now, role)
    requires below ==> IsBelow(db, s.agentId, inv.invitedByAgentId)
    requires CheckSubject(db, input, inv.invitedByAgentId, role, s, below) == Some(e)
    ensures !s.created && AgentReason(db, input, inv, now, s.agentId, e)
  {
    if e == ManyMemberships || e == NotAvailable {
      MembershipsRefused(db, input, inv, now, role, s, below, e);
    } else {
      PlaceRefused(db, input, inv, now, role, s, below, e);
    }
  }

  lemma MembershipsRefused(db: Db, input: Input, inv: Invitation, now: Time, role: Role, s: Subject, below: bool,
                           e: Error)
    requires s.memberships == ActiveMemberships(db, s.agentId) && (s.created ==> s.memberships == {})
    requires ActsAs(db, input, inv, now, role) && (e == ManyMemberships || e == NotAvailable)
    requires CheckSubject(db, input, inv.invitedByAgentId, role, s, below) == Some(e)
    ensures !s.created && AgentReason(db, input, inv, now, s.agentId, e)
  {
    if e == ManyMemberships {
      TwoMemberships(db, s.agentId);
    } else {
      NoMembership(db, s.agentId);
    }
  }

  lemma PlaceRefused(db: Db, input: Input, inv: Invitation, now: Time, role: Role, s: Subject, below: bool, e: Error)
    requires s.created ==> s.agentId != inv.invitedByAgentId && s.parentAgentId == Some(inv.invitedByAgentId)
    requires !s.created ==> s.agentId in db.agents && s.parentAgentId == db.agents[s.agentId].parentAgentId
    requires below ==> IsBelow(db, s.agentId, inv.invitedByAgentId)
    requires e != ManyMemberships && e != NotAvailable
    requires CheckSubject(db, input, inv.invitedByAgentId, role, s, below) == Some(e)
    ensures !s.created && AgentReason(db, input, inv, now, s.agentId, e)
  {
  }

  lemma AgentStands(db: Db, input: Input, inv: Invitation, now: Time, role: Role, s: Subject, below: bool, e: Error)
    requires IsSubject(db, inv.invitedByAgentId, s) && (role == Owner ==> !ActsAs(db, input, inv, now, Member))
    requires IsBelow(db, s.agentId, inv.invitedByAgentId) ==> below
    requires CheckSubject(db, input, inv.invitedByAgentId, role, s, below).None?
    requires e != AlreadyMember && !s.created
    ensures !AgentReason(db, input, inv, now, s.agentId, e)
  {
    if e == ManyMemberships {
      TwoMemberships(db, s.agentId);
    } else if e == NotAvailable {
      NoMembership(db, s.agentId);
    }
  }

  lemma HistoryIs(db: Db, inv: Invitation, g: Id, m: Id)
    ensures First(PreviousInvitations(db, inv, g, m)).None? <==> forall i :: !IsHistory(db, inv, g, m, i)
  {
    var all := PreviousInvitations(db, inv, g, m);
    assert forall i :: i in all <==> IsHistory(db, inv, g, m, i);
  }

  lemma MemberPlanIs(db: Db, m: Id)
    requires OneLivePlan(db)
    ensures forall s :: IsLivePlan(db, s, MemberPlan, None, Some(m)) <==> First(LiveMemberPlans(db, m)) == Some(s)
  {
    var all := LiveMemberPlans(db, m);
    forall s
      ensures IsLivePlan(db, s, MemberPlan, None, Some(m)) <==> s in all
    {
    }
  }

  lemma AgencyPlanIs(db: Db, a: Id)
    requires OneLivePlan(db)
    ensures forall s :: IsLivePlan(db, s, AgencyPlan, Some(a), None) <==> First(LiveAgencyPlans(db, a)) == Some(s)
  {
    var all := LiveAgencyPlans(db, a);
    forall s
      ensures IsLivePlan(db, s, AgencyPlan, Some(a), None) <==> s in all
    {
    }
  }

  ghost predicate Branches(db: Db, input: Input, inv: Invitation, now: Time, role: Role, s: Subject) {
    && IsSubject(db, inv.invitedByAgentId, s) && |s.memberships| <= 1
    && (forall g :: IsInvited(db, input, g) <==> !s.created && g == s.agentId)
    && forall other :: ActsAs(db, input, inv, now, other) <==> other == role
  }

  lemma OnlyMembership(db: Db, g: Id)
    requires |ActiveMemberships(db, g)| <= 1
    ensures forall m :: IsActive(db, g, m) <==> First(ActiveMemberships(db, g)) == Some(m)
  {
    SingletonOrEmpty(ActiveMemberships(db, g));
    assert forall m :: IsActive(db, g, m) <==> m in ActiveMemberships(db, g);
  }

  lemma MemberRefused(db: Db, input: Input, inv: Invitation, now: Time, role: Role, s: Subject, m: Id, e: Error)
    requires OneLivePlan(db) && (role == Member ==> !ActsAs(db, input, inv, now, Owner)) && input.plan == AgencyPlan
    requires s.memberships <= db.memberships.Keys && First(s.memberships) == Some(m) && IsActive(db, s.agentId, m)
    requires db.memberships[m].role == Member && ChooseBranch(db, input, inv, role, s) == Err(e)
    ensures MembershipReason(db, input, inv, now, s.agentId, m, e)
  {
    HistoryIs(db, inv, s.agentId, m);
    MemberPlanIs(db, m);
  }

  lemma OwnerRefused(db: Db, input: Input, inv: Invitation, now: Time, role: Role, s: Subject, m: Id, e: Error)
    requires input.plan == AgencyPlan
    requires s.memberships <= db.memberships.Keys && First(s.memberships) == Some(m) && IsActive(db, s.agentId, m)
    requires db.memberships[m].role == Owner && ChooseBranch(db, input, inv, role, s) == Err(e)
    ensures MembershipReason(db, input, inv, now, s.agentId, m, e)
  {
  }

  lemma AgentHasReason(db: Db, input: Input, inv: Invitation, now: Time, g: Id, e: Error)
    requires IsInvited(db, input, g) && AgentReason(db, input, inv, now, g, e)
    ensures SubjectReason(db, input, inv, now, e)
  {
  }

  lemma MembershipHasReason(db: Db, input: Input, inv: Invitation, now: Time, g: Id, m: Id, e: Error)
    requires IsInvited(db, input, g) && MembershipReason(db, input, inv, now, g, m, e)
    ensures SubjectReason(db, input, inv, now, e)
  {
  }

  lemma NameHasReason(db: Db, input: Input, inv: Invitation, now: Time)
    requires input.plan == AgencyPlan && NameIsMissing(input)
    requires forall g, m :: IsInvited(db, input, g) ==> !IsActive(db, g, m)
    ensures SubjectReason(db, input, inv, now, AgencyNameMissing)
  {
  }

  lemma BranchRefused(db: Db, input: Input, inv: Invitation, now: Time, role: Role, s: Subject, e: Error)
    requires Branches(db, input, inv, now, role, s) && OneLivePlan(db)
    requires ChooseBranch(db, input, inv, role, s) == Err(e)
    ensures SubjectReason(db, input, inv, now, e)
  {
    var g := s.agentId;
    OnlyMembership(db, g);
    if First(s.memberships).None? {
      NameHasReason(db, input, inv, now);
    } else {
      var m := First(s.memberships).value;
      if input.plan == MemberPlan {
        assert IsActive(db, g, m);
        AgentHasReason(db, input, inv, now, g, e);
      } else {
        if db.memberships[m].role == Member {
          MemberRefused(db, input, inv, now, role, s, m, e);
        } else {
          OwnerRefused(db, input, inv, now, role, s, m, e);
        }
        MembershipHasReason(db, input, inv, now, g, m, e);
      }
    }
  }

  lemma MemberPromoted(db: Db, input: Input, inv: Invitation, now: Time, role: Role, s: Subject, m: Id, e: Error)
    requires OneLivePlan(db) && (role == Owner ==> ActsAs(db, input, inv, now, Owner)) && input.plan == AgencyPlan
    requires s.memberships <= db.memberships.Keys && First(s.memberships) == Some(m) && IsActive(db, s.agentId, m)
    requires db.memberships[m].role == Member && ChooseBranch(db, input, inv, role, s).Ok?
    ensures !MembershipReason(db, input, inv, now, s.agentId, m, e)
  {
    HistoryIs(db, inv, s.agentId, m);
    MemberPlanIs(db, m);
  }

  lemma OwnerReparented(db: Db, input: Input, inv: Invitation, now: Time, role: Role, s: Subject, m: Id, e: Error)
    requires e != AgencyPlanMigration && e != MembershipTaken && input.plan == AgencyPlan
    requires s.memberships <= db.memberships.Keys && First(s.memberships) == Some(m) && IsActive(db, s.agentId, m)
    requires db.memberships[m].role == Owner && ChooseBranch(db, input, inv, role, s).Ok?
    ensures !MembershipReason(db, input, inv, now, s.agentId, m, e)
  {
  }

  lemma BranchTaken(db: Db, input: Input, inv: Invitation, now: Time, role: Role, s: Subject, m: Id, e: Error)
    requires Branches(db, input, inv, now, role, s) && OneLivePlan(db)
    requires ChooseBranch(db, input, inv, role, s).Ok? && e != AgencyPlanMigration && e != MembershipTaken
    ensures !MembershipReason(db, input, inv, now, s.agentId, m, e)
  {
    OnlyMembership(db, s.agentId);
    if input.plan == AgencyPlan && IsActive(db, s.agentId, m) {
      if db.memberships[m].role == Member {
        MemberPromoted(db, input, inv, now, role, s, m, e);
      } else {
        OwnerReparented(db, input, inv, now, role, s, m, e);
      }
    }
  }

  lemma BranchNamed(db: Db, input: Input, inv: Invitation, role: Role, s: Subject)
    requires IsSubject(db, inv.invitedByAgentId, s) && |s.memberships| <= 1
    requires ChooseBranch(db, input, inv, role, s).Ok?
    ensures input.plan == MemberPlan ==> forall n :: !IsActive(db, s.agentId, n)
    ensures NameIsMissing(input) && input.plan == AgencyPlan ==>
        !s.created && exists n :: IsActive(db, s.agentId, n)
  {
    OnlyMembership(db, s.agentId);
  }

  lemma NewAgencyHasNoPlan(db: Db, ids: NewRows)
    requires Linked(db) && Unused(db, ids)
    ensures LiveAgencyPlans(db, ids.agency) == {}
  {
    forall s
      ensures s !in LiveAgencyPlans(db, ids.agency)
    {
      assert s in db.subscriptions ==> Points(db.subscriptions[s].agencyId, db.agencies);
    }
  }

  // The branch that was chosen for this subject.
  ghost predicate Chosen(db: Db, input: Input, inv: Invitation, role: Role, s: Subject, b: Branch) {
    && IsSubject(db, inv.invitedByAgentId, s) && |s.memberships| <= 1 && ChooseBranch(db, input, inv, role, s) == Ok(b)
  }

  lemma MigrationRefused(db: Db, input: Input, ids: NewRows, inv: Invitation, now: Time, role: Role, s: Subject,
                         b: Branch, e: Error)
    requires Linked(db) && Unused(db, ids) && Chosen(db, input, inv, role, s, b)
    requires b.Reparent? ==> b.membershipId in db.memberships
    requires CheckMigration(db, input, AcceptedAgency(db, ids, inv, b)) == Some(e)
    ensures b.Reparent? && MembershipReason(db, input, inv, now, s.agentId, b.membershipId, e)
  {
    NewAgencyHasNoPlan(db, ids);
    if b.Reparent? {
      var plan := ReusedPlan(db, input, db.memberships[b.membershipId].agencyId);
      assert IsLivePlan(db, plan.value, AgencyPlan, Some(db.memberships[b.membershipId].agencyId), None);
    }
  }

  lemma MigrationStands(db: Db, input: Input, ids: NewRows, inv: Invitation, now: Time, role: Role, s: Subject,
                        b: Branch, m: Id)
    requires OneLivePlan(db) && Chosen(db, input, inv, role, s, b)
    requires b.Reparent? ==> b.membershipId in db.memberships
    requires CheckMigration(db, input, AcceptedAgency(db, ids, inv, b)).None?
    ensures !MembershipReason(db, input, inv, now, s.agentId, m, AgencyPlanMigration)
  {
    OnlyMembership(db, s.agentId);
    if IsActive(db, s.agentId, m) {
      AgencyPlanIs(db, db.memberships[m].agencyId);
    }
  }

  lemma TakenIsReparent(db: Db, input: Input, ids: NewRows, inv: Invitation, now: Time, role: Role, s: Subject,
                        b: Branch)
    requires Linked(db) && Unused(db, ids) && Chosen(db, input, inv, role, s, b)
    requires IsTaken(db, input.invitationId, AcceptedMembership(ids, b))
    ensures b.Reparent? && MembershipReason(db, input, inv, now, s.agentId, b.membershipId, MembershipTaken)
  {
    var i :| i in db.invitations && i != input.invitationId
      && db.invitations[i].acceptedMembershipId == Some(AcceptedMembership(ids, b));
    assert Points(db.invitations[i].acceptedMembershipId, db.memberships);
  }

  lemma NotTaken(db: Db, input: Input, ids: NewRows, inv: Invitation, now: Time, role: Role, s: Subject, b: Branch,
                 m: Id)
    requires Chosen(db, input, inv, role, s, b) && !IsTaken(db, input.invitationId, AcceptedMembership(ids, b))
    ensures !MembershipReason(db, input, inv, now, s.agentId, m, MembershipTaken)
  {
    OnlyMembership(db, s.agentId);
  }

  // ---------- the whole transaction ----------

  lemma BranchOrMigrationRefused(db: Db, input: Input, now: Time, ids: NewRows, inv: Invitation, role: Role, s: Subject,
                                 e: Error)
    requires Linked(db) && OneLivePlan(db) && Unused(db, ids) && Branches(db, input, inv, now, role, s)
    requires
      var b := ChooseBranch(db, input, inv, role, s);
      b == Err(e)
      || (b.Ok? && (b.value.Reparent? ==> b.value.membershipId in db.memberships)
          && CheckMigration(db, input, AcceptedAgency(db, ids, inv, b.value)) == Some(e))
    ensures SubjectReason(db, input, inv, now, e)
  {
    if ChooseBranch(db, input, inv, role, s).Err? {
      BranchRefused(db, input, inv, now, role, s, e);
    } else {
      var b := ChooseBranch(db, input, inv, role, s).value;
      MigrationRefused(db, input, ids, inv, now, role, s, b, e);
      MembershipHasReason(db, input, inv, now, s.agentId, b.membershipId, e);
    }
  }

  // The checks from the authority on, for an invitation that stands.
  lemma SubjectRefused(db: Db, input: Input, now: Time, ids: NewRows, inv: Invitation, role: Role, s: Subject,
                       below: bool, e: Error)
    requires Linked(db) && OneLivePlan(db) && Unused(db, ids)
    requires IsSubject(db, inv.invitedByAgentId, s)
    requires (forall g :: IsInvited(db, input, g) <==> !s.created && g == s.agentId)
    requires forall other :: ActsAs(db, input, inv, now, other) <==> other == role
    requires below <==> IsBelow(db, s.agentId, inv.invitedByAgentId)
    requires
      var refused, b :=
        CheckSubject(db, input, inv.invitedByAgentId, role, s, below), ChooseBranch(db, input, inv, role, s);
      refused == Some(e)
      || (refused.None? && b == Err(e))
      || (refused.None? && b.Ok? && (b.value.Reparent? ==> b.value.membershipId in db.memberships)
          && CheckMigration(db, input, AcceptedAgency(db, ids, inv, b.value)) == Some(e))
    ensures SubjectReason(db, input, inv, now, e)
  {
    if CheckSubject(db, input, inv.invitedByAgentId, role, s, below).Some? {
      AgentRefused(db, input, inv, now, role, s, below, e);
      AgentHasReason(db, input, inv, now, s.agentId, e);
    } else {
      BranchOrMigrationRefused(db, input, now, ids, inv, role, s, e);
    }
  }

  // One of the checks after the authority refuses with e.
  ghost predicate RefusedLater(db: Db, input: Input, ids: NewRows, inv: Invitation, role: Role, e: Error) {
    match ResolveSubject(db, input, ids, inv.invitedByAgentId)
    case Err(f) => f == e
    case Ok(s) =>
      match CheckSubject(db, input, inv.invitedByAgentId, role, s, IsBelow(db, s.agentId, inv.invitedByAgentId))
      case Some(f) => f == e
      case None =>
        && s.memberships <= db.memberships.Keys
        && match ChooseBranch(db, input, inv, role, s)
           case Err(f) => f == e
           case Ok(b) =>
             && (b.Reparent? ==> b.membershipId in db.memberships)
             && CheckMigration(db, input, AcceptedAgency(db, ids, inv, b)) == Some(e)
  }

  lemma NoAuthorityGiven(db: Db, input: Input, now: Time, ids: NewRows, reservation: Reservation, e: Error)
    requires DecideBeforeClaim(db, input, now, ids, reservation) == Err(e)
    requires CheckInvitation(db, input, now, reservation).None?
    ensures input.invitationId in db.invitations
    ensures AuthorityRole(db, db.invitations[input.invitationId], now, reservation).None? ==> e == NoAuthority
  {
  }

  lemma DecidedLater(db: Db, input: Input, now: Time, ids: NewRows, reservation: Reservation, inv: Invitation,
                     role: Role, e: Error)
    requires DecideBeforeClaim(db, input, now, ids, reservation) == Err(e)
    requires CheckInvitation(db, input, now, reservation).None?
    requires input.invitationId in db.invitations && inv == db.invitations[input.invitationId]
    requires AuthorityRole(db, inv, now, reservation) == Some(role)
    ensures RefusedLater(db, input, ids, inv, role, e)
  {
  }

  lemma LaterRefused(db: Db, input: Input, now: Time, ids: NewRows, inv: Invitation, role: Role, e: Error)
    requires Linked(db) && OneLivePlan(db) && Unused(db, ids) && inv.invitedByAgentId in db.agents
    requires forall other :: ActsAs(db, input, inv, now, other) <==> other == role
    requires RefusedLater(db, input, ids, inv, role, e)
    ensures AccountReason(db, input, e) || SubjectReason(db, input, inv, now, e)
  {
    var subject := ResolveSubject(db, input, ids, inv.invitedByAgentId);
    if subject.Err? {
      AccountRefused(db, input, ids, inv.invitedByAgentId, e);
    } else {
      AccountStands(db, input, ids, inv.invitedByAgentId, subject.value);
      SubjectRefused(db, input, now, ids, inv, role, subject.value,
        IsBelow(db, subject.value.agentId, inv.invitedByAgentId), e);
    }
  }

  lemma CheckRefused(db: Db, input: Input, now: Time, ids: NewRows, reservation: Reservation, e: Error)
    requires Linked(db) && OneMembership(db) && OneLivePlan(db) && Unused(db, ids) && Reserves(db, input, reservation)
    requires DecideBeforeClaim(db, input, now, ids, reservation) == Err(e)
    ensures RequestReason(db, input, now, e)
  {
    if CheckInvitation(db, input, now, reservation).Some? {
      InvitationRefused(db, input, now, reservation, e);
    } else {
      var inv := db.invitations[input.invitationId];
      NoAuthorityGiven(db, input, now, ids, reservation, e);
      AuthorityStage(db, input, now, reservation, inv);
      if AuthorityRole(db, inv, now, reservation).Some? {
        var role := AuthorityRole(db, inv, now, reservation).value;
        DecidedLater(db, input, now, ids, reservation, inv, role, e);
        LaterRefused(db, input, now, ids, inv, role, e);
      }
    }
  }

  // The checks on the agent and the branch, passed.
  ghost predicate PassedLater(db: Db, input: Input, ids: NewRows, inv: Invitation, d: Decision) {
    && CheckSubject(db, input, inv.invitedByAgentId, d.inviterRole, d.subject, IsBelow(db, d.subject.agentId,
      inv.invitedByAgentId)).None?
    && d.subject.memberships <= db.memberships.Keys
    && ChooseBranch(db, input, inv, d.inviterRole, d.subject) == Ok(d.branch)
    && (d.branch.Reparent? ==> d.branch.membershipId in db.memberships)
    && CheckMigration(db, input, AcceptedAgency(db, ids, inv, d.branch)).None?
  }

  // Whatever passes the checks has passed each of them.
  ghost predicate Passed(db: Db, input: Input, now: Time, ids: NewRows, reservation: Reservation, d: Decision) {
    && CheckInvitation(db, input, now, reservation).None?
    && input.invitationId in db.invitations
    && var inv := db.invitations[input.invitationId];
    && AuthorityRole(db, inv, now, reservation) == Some(d.inviterRole)
    && ResolveSubject(db, input, ids, inv.invitedByAgentId) == Ok(d.subject)
    && PassedLater(db, input, ids, inv, d)
  }

  lemma DecisionPassed(db: Db, input: Input, now: Time, ids: NewRows, reservation: Reservation, d: Decision)
    requires DecideBeforeClaim(db, input, now, ids, reservation) == Ok(d)
    ensures Passed(db, input, now, ids, reservation, d)
  {
  }

  lemma LateClaim(db: Db, input: Input, now: Time, reservation: Reservation)
    requires Reserves(db, input, reservation) && CheckInvitation(db, input, now, reservation).None?
    ensures input.invitationId in db.invitations
    ensures
      var inv := db.invitations[input.invitationId];
      inv.status == Pending && (inv.expiresAt <= now ==> input.checkoutId.Some?)
  {
  }

  lemma TakenClaim(db: Db, input: Input, now: Time, ids: NewRows, inv: Invitation, d: Decision)
    requires Linked(db) && Unused(db, ids) && inv.invitedByAgentId in db.agents
    requires ResolveSubject(db, input, ids, inv.invitedByAgentId) == Ok(d.subject) && |d.subject.memberships| <= 1
    requires d.subject.memberships <= db.memberships.Keys
    requires ChooseBranch(db, input, inv, d.inviterRole, d.subject) == Ok(d.branch)
    requires IsTaken(db, input.invitationId, AcceptedMembership(ids, d.branch))
    ensures SubjectReason(db, input, inv, now, MembershipTaken)
  {
    AccountStands(db, input, ids, inv.invitedByAgentId, d.subject);
    TakenIsReparent(db, input, ids, inv, now, d.inviterRole, d.subject, d.branch);
    MembershipHasReason(db, input, inv, now, d.subject.agentId, d.branch.membershipId, MembershipTaken);
  }

  lemma ClaimRefused(db: Db, input: Input, now: Time, ids: NewRows, reservation: Reservation, d: Decision, e: Error)
    requires Linked(db) && Unused(db, ids) && Reserves(db, input, reservation)
    requires Passed(db, input, now, ids, reservation, d)
    requires ClaimError(db, input, now, AcceptedMembership(ids, d.branch)) == Some(e)
    ensures RequestReason(db, input, now, e)
  {
    LateClaim(db, input, now, reservation);
    if e == MembershipTaken {
      TakenClaim(db, input, now, ids, db.invitations[input.invitationId], d);
    }
  }

  // Where the transaction can refuse.
  lemma RefusedAt(db: Db, input: Input, now: Time, ids: NewRows, e: Error)
    requires Run(db, input, now, ids).1 == Err(e)
    ensures Run(db, input, now, ids).0 == db
    ensures ProviderReason(input, e) || CheckCheckout(db, input) == Err(e)
        || (CheckCheckout(db, input).Ok? && CheckCheckout(db, input).value.Proceed?)
    ensures !ProviderReason(input, e) && CheckCheckout(db, input).Ok? ==>
      var before := DecideBeforeClaim(db, input, now, ids, CheckCheckout(db, input).value.reservation);
      before == Err(e)
        || (before.Ok? && input.invitationId in db.invitations
            && ClaimError(db, input, now, AcceptedMembership(ids, before.value.branch)) == Some(e))
  {
  }

  // Every refusal says something true about the rows, and writes nothing.
  lemma RefusalHasItsReason(db: Db, input: Input, now: Time, ids: NewRows, e: Error)
    requires Inv(db) && OneLivePlan(db) && Unused(db, ids) && Run(db, input, now, ids).1 == Err(e)
    ensures Reason(db, input, now, e) && Run(db, input, now, ids).0 == db
  {
    RefusedAt(db, input, now, ids, e);
    CheckoutStage(db, input, e);
    if !ProviderReason(input, e) && CheckCheckout(db, input).Ok? {
      var reservation := CheckCheckout(db, input).value.reservation;
      var before := DecideBeforeClaim(db, input, now, ids, reservation);
      if before.Err? {
        CheckRefused(db, input, now, ids, reservation, e);
      } else {
        DecisionPassed(db, input, now, ids, reservation, before.value);
        ClaimRefused(db, input, now, ids, reservation, before.value, e);
      }
    }
  }

  lemma SubjectStands(db: Db, input: Input, now: Time, ids: NewRows, inv: Invitation, d: Decision, g: Id, m: Id,
                      e: Error)
    requires Linked(db) && OneLivePlan(db) && Unused(db, ids)
    requires Branches(db, input, inv, now, d.inviterRole, d.subject) && PassedLater(db, input, ids, inv, d)
    requires !IsTaken(db, input.invitationId, AcceptedMembership(ids, d.branch)) && IsInvited(db, input, g)
    ensures !AgentReason(db, input, inv, now, g, e) && !MembershipReason(db, input, inv, now, g, m, e)
  {
    if e == AlreadyMember {
      BranchNamed(db, input, inv, d.inviterRole, d.subject);
    } else {
      AgentStands(db, input, inv, now, d.inviterRole, d.subject,
        IsBelow(db, d.subject.agentId, inv.invitedByAgentId), e);
    }
    if e == AgencyPlanMigration {
      MigrationStands(db, input, ids, inv, now, d.inviterRole, d.subject, d.branch, m);
    } else if e == MembershipTaken {
      NotTaken(db, input, ids, inv, now, d.inviterRole, d.subject, d.branch, m);
    } else {
      BranchTaken(db, input, inv, now, d.inviterRole, d.subject, m, e);
    }
  }

  ghost predicate AgentIsClear(db: Db, input: Input, inv: Invitation, now: Time, g: Id, e: Error) {
    !AgentReason(db, input, inv, now, g, e) && forall m :: !MembershipReason(db, input, inv, now, g, m, e)
  }

  lemma NoReasonLeft(db: Db, input: Input, inv: Invitation, now: Time, e: Error)
    requires forall g :: IsInvited(db, input, g) ==> AgentIsClear(db, input, inv, now, g, e)
    requires input.plan == AgencyPlan && NameIsMissing(input) ==>
        exists g, m :: IsInvited(db, input, g) && IsActive(db, g, m)
    requires now < inv.expiresAt
    ensures !SubjectReason(db, input, inv, now, e)
  {
    assert forall g, m :: IsInvited(db, input, g) && IsActive(db, g, m) ==> IsInvited(db, input, g);
  }

  lemma NameIsGiven(db: Db, input: Input, inv: Invitation, now: Time, d: Decision)
    requires Branches(db, input, inv, now, d.inviterRole, d.subject)
    requires ChooseBranch(db, input, inv, d.inviterRole, d.subject).Ok?
    ensures input.plan == AgencyPlan && NameIsMissing(input) ==>
        exists g, m :: IsInvited(db, input, g) && IsActive(db, g, m)
  {
    BranchNamed(db, input, inv, d.inviterRole, d.subject);
  }

  lemma PassedBranches(db: Db, input: Input, now: Time, ids: NewRows, reservation: Reservation, inv: Invitation,
                       d: Decision)
    requires Linked(db) && Unused(db, ids) && Passed(db, input, now, ids, reservation, d)
    requires inv == db.invitations[input.invitationId]
    requires forall other :: ActsAs(db, input, inv, now, other) <==> other == d.inviterRole
    ensures Branches(db, input, inv, now, d.inviterRole, d.subject)
  {
    AccountStands(db, input, ids, inv.invitedByAgentId, d.subject);
  }

  lemma AgentHasNoReason(db: Db, input: Input, now: Time, ids: NewRows, inv: Invitation, d: Decision, g: Id, e: Error)
    requires Linked(db) && OneLivePlan(db) && Unused(db, ids)
    requires Branches(db, input, inv, now, d.inviterRole, d.subject) && PassedLater(db, input, ids, inv, d)
    requires !IsTaken(db, input.invitationId, AcceptedMembership(ids, d.branch)) && IsInvited(db, input, g)
    ensures AgentIsClear(db, input, inv, now, g, e)
  {
    SubjectStands(db, input, now, ids, inv, d, g, ids.membership, e);
    forall m
      ensures !MembershipReason(db, input, inv, now, g, m, e)
    {
      SubjectStands(db, input, now, ids, inv, d, g, m, e);
    }
  }

  // Nothing that concerns the invited agent speaks against a decision that passed.
  lemma SubjectHasNoReason(db: Db, input: Input, now: Time, ids: NewRows, inv: Invitation, d: Decision, e: Error)
    requires Linked(db) && OneLivePlan(db) && Unused(db, ids) && now < inv.expiresAt
    requires Branches(db, input, inv, now, d.inviterRole, d.subject) && PassedLater(db, input, ids, inv, d)
    requires !IsTaken(db, input.invitationId, AcceptedMembership(ids, d.branch))
    ensures !SubjectReason(db, input, inv, now, e)
  {
    forall g | IsInvited(db, input, g)
      ensures AgentIsClear(db, input, inv, now, g, e)
    {
      AgentHasNoReason(db, input, now, ids, inv, d, g, e);
    }
    NameIsGiven(db, input, inv, now, d);
    NoReasonLeft(db, input, inv, now, e);
  }

  lemma RequestHasNoReason(db: Db, input: Input, now: Time, ids: NewRows, reservation: Reservation, d: Decision,
                           e: Error)
    requires Linked(db) && OneMembership(db) && OneLivePlan(db) && Unused(db, ids) && Reserves(db, input, reservation)
    requires Passed(db, input, now, ids, reservation, d) && now < db.invitations[input.invitationId].expiresAt
    requires !IsTaken(db, input.invitationId, AcceptedMembership(ids, d.branch))
    ensures !RequestReason(db, input, now, e)
  {
    var inv := db.invitations[input.invitationId];
    AuthorityStage(db, input, now, reservation, inv);
    if e != NoAuthority {
      InvitationStands(db, input, now, reservation, e);
    }
    AccountIsFine(db, input, ids, inv.invitedByAgentId, d.subject, e);
    PassedBranches(db, input, now, ids, reservation, inv, d);
    SubjectHasNoReason(db, input, now, ids, inv, d, e);
  }

  lemma PassedAccepts(db: Db, input: Input, now: Time, ids: NewRows, d: Decision, after: Db, s: Id)
    requires Accepts(db, input, now, ids, d, after, s)
    ensures DecideBeforeClaim(db, input, now, ids, CheckCheckout(db, input).value.reservation) == Ok(d)
    ensures input.invitationId in db.invitations
    ensures ClaimError(db, input, now, AcceptedMembership(ids, d.branch)).None?
    ensures forall e :: !ProviderReason(input, e)
  {
  }

  // An accepted invitation has no reason against it, whichever is looked for.
  lemma AcceptanceHasNoReason(db: Db, input: Input, now: Time, ids: NewRows, d: Decision, after: Db, s: Id, e: Error)
    requires Inv(db) && OneLivePlan(db) && Unused(db, ids) && Accepts(db, input, now, ids, d, after, s)
    ensures !Reason(db, input, now, e)
  {
    var reservation := CheckCheckout(db, input).value.reservation;
    PassedAccepts(db, input, now, ids, d, after, s);
    CheckoutStage(db, input, e);
    DecisionPassed(db, input, now, ids, reservation, d);
    RequestHasNoReason(db, input, now, ids, reservation, d, e);
  }
}
