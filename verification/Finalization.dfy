/**
 Invitation finalization (lib/agency-invitation-finalization.ts).

 `Decide` lists the checks of the transaction in the order the server makes them.
 `After*` give every table at commit in closed form. `Store.Finalize` is the
 transaction: it works on a private copy, write by write, and either commits that
 copy or leaves the store untouched.
 */
module Finalization {
  import opened Wrappers
  import opened Hierarchy
  import opened Text
  import opened Tables

  // lib/plans.ts: the list price less the invitation discount.
  const INVITED_AGENT_CENTS := 5_990 - 1_000
  const INVITED_AGENCY_CENTS := 9_990 - 1_000

  datatype Error =
    | ProviderNotConfirmed | InvalidPeriod
    | CheckoutMissing | FinalizedCheckoutMismatch | CheckoutMismatch
    | InvitationUnavailable | EmailChanged | PlanMismatch | PriceUnavailable | AmountMismatch
    | NoAuthority | AccountChanged | AccountUnprotected
    | Managed | OwnInvitation | OtherStructure | WouldCycle
    | ManyMemberships | NotAvailable | FounderMustChooseAgency
    | AlreadyMember | NeedsAgencyInvitation | MemberElsewhere | NotPromotable | MemberPlanMigration
    | AgencyElsewhere | AgencyBelowItself | AgencyNameMissing | AgencyPlanMigration
    | AlreadyUsed | MembershipTaken

  type InvitedPlan = p: Plan | p != IndividualPlan witness AgencyPlan

  datatype Provider = Provider(status: Status, periodStart: Time, periodEnd: Time, stripeId: Option<Id>)

  datatype Input = Input(
    checkoutId: Option<Id>, invitationId: Id, expectedUserId: Option<Id>, invitedEmail: string,
    agencyName: Option<string>, passwordHash: Option<string>, plan: InvitedPlan, unitAmountCents: int,
      provider: Provider)

  // Identifiers and the timestamp the database supplies for inserted rows.
  datatype NewRows = NewRows(user: Id, agent: Id, membership: Id, agency: Id, subscription: Id, at: Time)

  datatype Reservation = NoReservation | Reserved(acceptedTermsAt: Time, inviterRole: Role)

  datatype Gate = Replay(subscriptionId: Id) | Proceed(reservation: Reservation)

  // The invited person: an existing agent, or the account about to be created.
  datatype Subject = Subject(agentId: Id, created: bool, parentAgentId: Option<Id>, memberships: set<Id>)

  datatype Branch =
    | Join
    | Promote(membershipId: Id, previousInvitationId: Id, memberSubscriptionId: Id)
    | Reparent(membershipId: Id)
    | Found

  datatype Decision = Decision(inviterRole: Role, subject: Subject, branch: Branch)

  // ---------- checks, in order ----------

  function ExpectedPlan(intended: Option<Intended>, selected: InvitedPlan): InvitedPlan {
    match intended
    case Some(IntendedAgent) => MemberPlan
    case Some(IntendedAgency) => AgencyPlan
    case None => selected
  }

  function ExpectedAmount(intended: Option<Intended>, plan: InvitedPlan, stored: int): Option<int> {
    var asAgency := if intended.Some? then intended.value == IntendedAgency else plan == AgencyPlan;
    var expected := if asAgency then INVITED_AGENCY_CENTS else INVITED_AGENT_CENTS;
    if intended.Some? && stored != expected then None else Some(expected)
  }

  function CheckCheckout(db: Db, input: Input): Result<Gate, Error> {
    if input.checkoutId.None? then Ok(Proceed(NoReservation))
    else if input.checkoutId.value !in db.checkouts then Err(CheckoutMissing)
    else
      var c := db.checkouts[input.checkoutId.value];
      if c.finalized then
        if c.invitationId != input.invitationId || c.stripeId != input.provider.stripeId
          || c.platformSubscriptionId.None?
        then Err(FinalizedCheckoutMismatch)
        else Ok(Replay(c.platformSubscriptionId.value))
      else if c.invitationId != input.invitationId || Normalize(c.email) != Normalize(input.invitedEmail)
        || c.userId != input.expectedUserId || c.plan != input.plan || c.unitAmountCents != input.unitAmountCents
      then Err(CheckoutMismatch)
      else Ok(Proceed(Reserved(c.acceptedTermsAt, c.inviterRole)))
  }

  predicate AgentActive(db: Db, agentId: Id) {
    agentId in db.agents && db.agents[agentId].active
  }

  // A reservation is judged by when the terms were accepted, not by the clock.
  function CheckInvitation(db: Db, input: Input, now: Time, reservation: Reservation): Option<Error> {
    if input.invitationId !in db.invitations then Some(InvitationUnavailable)
    else
      var inv := db.invitations[input.invitationId];
      if inv.status != Pending
        || (if reservation.Reserved? then reservation.acceptedTermsAt > inv.expiresAt else inv.expiresAt <= now)
        || (reservation.NoReservation? && !AgentActive(db, inv.invitedByAgentId))
      then Some(InvitationUnavailable)
      else if Normalize(inv.email) != Normalize(input.invitedEmail) then Some(EmailChanged)
      else if ExpectedPlan(inv.intendedType, input.plan) != input.plan then Some(PlanMismatch)
      else match ExpectedAmount(inv.intendedType, input.plan, inv.monthlyPriceCents)
        case None => Some(PriceUnavailable)
        case Some(amount) => if amount != input.unitAmountCents then Some(AmountMismatch) else None
  }

  // lib/agency-invitation-authority.ts
  predicate HasAuthority(db: Db, m: Id, agencyId: Id, agentId: Id, now: Time)
    requires m in db.memberships
  {
    var ms := db.memberships[m];
    && ms.agencyId == agencyId && ms.agentId == agentId && ms.endedAt.None? && AgentActive(db, agentId)
    && (if ms.role == Owner
        then exists s | s in db.subscriptions ::
          db.subscriptions[s].agencyId == Some(agencyId) && db.subscriptions[s].plan == AgencyPlan
               && Entitling(db.subscriptions[s].status) && OpenPeriod(db.subscriptions[s], now)
        else exists s | s in db.subscriptions ::
          db.subscriptions[s].membershipId == Some(m) && db.subscriptions[s].plan == MemberPlan
               && Entitling(db.subscriptions[s].status) && OpenPeriod(db.subscriptions[s], now))
  }

  function AuthorityRole(db: Db, inv: Invitation, now: Time, reservation: Reservation): Option<Role> {
    match reservation
    case Reserved(_, role) => Some(role)
    case NoReservation =>
      match First(set m | m in db.memberships && HasAuthority(db, m, inv.agencyId, inv.invitedByAgentId, now))
      case None => None
      case Some(m) => Some(db.memberships[m].role)
  }

  function FindUser(db: Db, email: string): Option<Id> {
    First(set u | u in db.users && EqualInsensitive(db.users[u].email, Normalize(email)))
  }

  function ResolveSubject(db: Db, input: Input, ids: NewRows, inviter: Id): Result<Subject, Error> {
    match FindUser(db, input.invitedEmail)
    case Some(u) =>
      var user := db.users[u];
      if input.expectedUserId != Some(u) || !user.isAgentRole || user.agentId.None?
        || !AgentActive(db, user.agentId.value)
      then Err(AccountChanged)
      else
        var g := user.agentId.value;
        Ok(Subject(g, false, db.agents[g].parentAgentId, ActiveMemberships(db, g)))
    case None =>
      if input.expectedUserId.Some? || input.passwordHash.None? || input.passwordHash.value == ""
        then Err(AccountUnprotected)
      else Ok(Subject(ids.agent, true, Some(inviter), {}))
  }

  function CheckSubject(db: Db, input: Input, inviter: Id, role: Role, s: Subject,
                        inviterIsBelow: bool): Option<Error> {
    if !s.created && s.agentId in db.provisioned then Some(Managed)
    else if s.agentId == inviter then Some(OwnInvitation)
    else if s.parentAgentId.Some? && s.parentAgentId.value != inviter then Some(OtherStructure)
    else if !s.created && inviterIsBelow then Some(WouldCycle)
    else if |s.memberships| > 1 then Some(ManyMemberships)
    else if role == Member && |s.memberships| > 0 then Some(NotAvailable)
    else if !s.created && s.agentId in db.founders && input.plan == MemberPlan then Some(FounderMustChooseAgency)
    else None
  }

  function PreviousInvitations(db: Db, inv: Invitation, g: Id, m: Id): set<Id> {
    set i | i in db.invitations && db.invitations[i].agencyId == inv.agencyId && db.invitations[i].status == Accepted
      && db.invitations[i].intendedType == Some(IntendedAgent) && db.invitations[i].acceptedAgentId == Some(g)
      && db.invitations[i].acceptedPlan == Some(MemberPlan) && db.invitations[i].acceptedMembershipId == Some(m)
  }

  predicate LiveMemberPlan(sub: Subscription, m: Id) {
    sub.membershipId == Some(m) && sub.plan == MemberPlan && Live(sub.status)
  }

  predicate LiveAgencyPlan(sub: Subscription, a: Id) {
    sub.agencyId == Some(a) && sub.plan == AgencyPlan && Live(sub.status)
  }

  predicate LiveIndividualPlan(sub: Subscription, g: Id) {
    sub.agentId == Some(g) && sub.plan == IndividualPlan && Live(sub.status)
  }

  function LiveMemberPlans(db: Db, m: Id): set<Id> {
    set s | s in db.subscriptions && LiveMemberPlan(db.subscriptions[s], m)
  }

  function LiveAgencyPlans(db: Db, a: Id): set<Id> {
    set s | s in db.subscriptions && LiveAgencyPlan(db.subscriptions[s], a)
  }

  function ChooseBranch(db: Db, input: Input, inv: Invitation, role: Role, s: Subject): Result<Branch, Error>
    requires forall m :: m in s.memberships ==> m in db.memberships
  {
    if input.plan == MemberPlan then
      if s.memberships != {} then Err(AlreadyMember) else Ok(Join)
    else match First(s.memberships)
      case None =>
        if input.agencyName.None? || |Trim(input.agencyName.value)| < 2 then Err(AgencyNameMissing) else Ok(Found)
      case Some(m) =>
        var ms := db.memberships[m];
        var direct := ms.role == Member && ms.agencyId == inv.agencyId;
        var promotion := role == Owner && direct && inv.intendedType == Some(IntendedAgency);
        if ms.role == Member && !promotion then Err(if direct then NeedsAgencyInvitation else MemberElsewhere)
        else if promotion then
          var previous, plan := First(PreviousInvitations(db, inv, s.agentId, m)), First(LiveMemberPlans(db, m));
          if previous.None? || plan.None? then Err(NotPromotable)
          else if input.checkoutId.Some? && db.subscriptions[plan.value].stripeId.Some? then Err(MemberPlanMigration)
          else Ok(Promote(m, previous.value, plan.value))
        else
          var parent := ParentOf(AgencyParents(db), ms.agencyId);
          if parent.Some? && parent.value != inv.agencyId then Err(AgencyElsewhere)
          else if ms.agencyId == inv.agencyId then Err(AgencyBelowItself)
          else Ok(Reparent(m))
  }

  function AcceptedMembership(ids: NewRows, branch: Branch): Id {
    if branch.Reparent? then branch.membershipId else ids.membership
  }

  function AcceptedAgency(db: Db, ids: NewRows, inv: Invitation, branch: Branch): Id
    requires branch.Reparent? ==> branch.membershipId in db.memberships
  {
    match branch
    case Join => inv.agencyId
    case Reparent(m) => db.memberships[m].agencyId
    case _ => ids.agency
  }

  // The live agency plan that is updated in place instead of inserting a new row.
  function ReusedPlan(db: Db, input: Input, agencyId: Id): Option<Id> {
    if input.plan == AgencyPlan then First(LiveAgencyPlans(db, agencyId)) else None
  }

  function CheckMigration(db: Db, input: Input, agencyId: Id): Option<Error> {
    var reused := ReusedPlan(db, input, agencyId);
    if input.checkoutId.Some? && reused.Some? && reused.value in db.subscriptions
      && db.subscriptions[reused.value].stripeId.Some?
      && db.subscriptions[reused.value].stripeId != input.provider.stripeId
    then Some(AgencyPlanMigration) else None
  }

  // `getDownlineIds(hierarchy, agent.id).includes(invitation.invitedBy.id)`
  ghost predicate IsBelow(db: Db, above: Id, below: Id) {
    exists n: nat :: n >= 1 && UpN(Parents(db), below, n) == Some(above)
  }

  ghost function DecideBeforeClaim(db: Db, input: Input, now: Time, ids: NewRows,
                                   reservation: Reservation): Result<Decision, Error> {
    match CheckInvitation(db, input, now, reservation)
    case Some(e) => Err(e)
    case None =>
      var inv := db.invitations[input.invitationId];
      match AuthorityRole(db, inv, now, reservation)
      case None => Err(NoAuthority)
      case Some(role) =>
        match ResolveSubject(db, input, ids, inv.invitedByAgentId)
        case Err(e) => Err(e)
        case Ok(s) =>
          match CheckSubject(db, input, inv.invitedByAgentId, role, s, IsBelow(db, s.agentId, inv.invitedByAgentId))
          case Some(e) => Err(e)
          case None =>
            match ChooseBranch(db, input, inv, role, s)
            case Err(e) => Err(e)
            case Ok(branch) =>
              match CheckMigration(db, input, AcceptedAgency(db, ids, inv, branch))
              case Some(e) => Err(e)
              case None => Ok(Decision(role, s, branch))
  }

  // The unique index on `acceptedMembershipId` (prisma/schema.prisma).
  predicate IsTaken(db: Db, invitationId: Id, membershipId: Id) {
    exists i :: i in db.invitations && i != invitationId && db.invitations[i].acceptedMembershipId == Some(membershipId)
  }

  // Why the claiming update would not go through.
  function ClaimError(db: Db, input: Input, now: Time, membershipId: Id): Option<Error>
    requires input.invitationId in db.invitations
  {
    var inv := db.invitations[input.invitationId];
    if inv.status != Pending || inv.expiresAt <= now then Some(AlreadyUsed)
    else if IsTaken(db, input.invitationId, membershipId) then Some(MembershipTaken)
    else None
  }

  // The claim at the end requires an unexpired invitation even when a reservation
  // let an expired one pass the first check, and a membership no other invitation has.
  ghost function Decide(db: Db, input: Input, now: Time, ids: NewRows,
                        reservation: Reservation): Result<Decision, Error> {
    var r := DecideBeforeClaim(db, input, now, ids, reservation);
    if r.Err? then r
    else match ClaimError(db, input, now, AcceptedMembership(ids, r.value.branch))
      case Some(e) => Err(e)
      case None => r
  }

  // ---------- tables at commit ----------

  function UsersAfter(db: Db, input: Input, ids: NewRows, d: Decision): map<Id, User> {
    if d.subject.created then db.users[ids.user := User(Normalize(input.invitedEmail), true, Some(ids.agent))]
      else db.users
  }

  function NewAgent(input: Input, inviter: Id): Agent {
    Agent(true, Some(inviter), input.plan == AgencyPlan, input.plan == AgencyPlan)
  }

  function AgentsAfter(db: Db, input: Input, inviter: Id, d: Decision): map<Id, Agent> {
    var g := d.subject.agentId;
    var was := if g in db.agents && !d.subject.created then db.agents[g] else NewAgent(input, inviter);
    db.agents[g := was.(parentAgentId := Some(inviter),
                        ownerRank := was.ownerRank || input.plan == AgencyPlan,
                        agencyScope := input.plan == AgencyPlan)]
  }

  function MembershipsAfter(db: Db, now: Time, ids: NewRows, inv: Invitation, d: Decision): map<Id, Membership> {
    var added := Membership(inv.agencyId, d.subject.agentId, Member, Some(inv.invitedByAgentId), ids.at, None);
    match d.branch
    case Join => db.memberships[ids.membership := added]
    case Found => db.memberships[ids.membership := added.(agencyId := ids.agency, role := Owner)]
    case Reparent(_) => db.memberships
    case Promote(m, _, _) =>
      if m in db.memberships
      then db.memberships[m := db.memberships[m].(endedAt := Some(now))][ids.membership :=
        added.(agencyId := ids.agency, role := Owner)]
      else db.memberships
  }

  function AgenciesAfter(db: Db, input: Input, ids: NewRows, inv: Invitation, d: Decision): map<Id, Agency> {
    var name := if input.agencyName.Some? then input.agencyName.value else "";
    match d.branch
    case Join => db.agencies
    case Reparent(m) =>
      if m in db.memberships && db.memberships[m].agencyId in db.agencies
      then var a := db.memberships[m].agencyId; db.agencies[a := db.agencies[a].(parentAgencyId := Some(inv.agencyId))]
      else db.agencies
    case _ => db.agencies[ids.agency := Agency(name, Some(inv.agencyId))]
  }

  // Plans that stop: the promoted member's plan and any individual plan.
  predicate Stops(d: Decision, id: Id, sub: Subscription) {
    (d.branch.Promote? && id == d.branch.memberSubscriptionId) || LiveIndividualPlan(sub, d.subject.agentId)
  }

  function Renewed(sub: Subscription, input: Input): Subscription {
    sub.(status := input.provider.status, unitAmountCents := input.unitAmountCents,
         periodStart := Some(input.provider.periodStart), periodEnd := Some(input.provider.periodEnd),
         stripeId := input.provider.stripeId)
  }

  function NewSubscription(input: Input, ids: NewRows, agencyId: Id, membershipId: Id): Subscription {
    Subscription(input.plan, None,
                 if input.plan == AgencyPlan then Some(agencyId) else None,
                 if input.plan == AgencyPlan then None else Some(membershipId),
                 input.provider.status, input.unitAmountCents,
                 Some(input.provider.periodStart), Some(input.provider.periodEnd), ids.at, input.provider.stripeId)
  }

  function SubscriptionIdAfter(db: Db, input: Input, ids: NewRows, agencyId: Id): Id {
    match ReusedPlan(db, input, agencyId) case Some(s) => s case None => ids.subscription
  }

  function SubscriptionsAfter(db: Db, input: Input, ids: NewRows, d: Decision, agencyId: Id,
                              membershipId: Id): map<Id, Subscription> {
    var kept := map s | s in db.subscriptions ::
      if Stops(d, s, db.subscriptions[s]) then db.subscriptions[s].(status := Canceled) else db.subscriptions[s];
    match ReusedPlan(db, input, agencyId)
    case Some(s) => if s in kept then kept[s := Renewed(kept[s], input)] else kept
    case None => kept[ids.subscription := NewSubscription(input, ids, agencyId, membershipId)]
  }

  function AcceptedInvitation(db: Db, input: Input, now: Time, inv: Invitation, d: Decision,
                              membershipId: Id): Invitation {
    var g := d.subject.agentId;
    var onboarding := d.subject.created || (g in db.onboardingInProgress && db.onboardingInProgress[g]);
    inv.(status := Accepted, acceptedAt := Some(now), acceptedAgentId := Some(g), acceptedPlan := Some(input.plan),
         acceptedMembershipId := Some(membershipId), isCurrentCommercial := true,
         intendedType := Some(if input.plan == AgencyPlan then IntendedAgency else IntendedAgent),
         monthlyPriceCents := input.unitAmountCents,
         stage := if onboarding then Onboarding else ActiveStage, stageUpdatedAt := now)
  }

  function Superseded(inv: Invitation, g: Id): Invitation {
    if inv.acceptedAgentId == Some(g) && inv.isCurrentCommercial then inv.(isCurrentCommercial := false) else inv
  }

  function InvitationsAfter(db: Db, input: Input, now: Time, d: Decision, membershipId: Id): map<Id, Invitation> {
    map i | i in db.invitations ::
      var row := Superseded(db.invitations[i], d.subject.agentId);
      if i == input.invitationId then AcceptedInvitation(db, input, now, row, d, membershipId)
      else if d.branch.Promote? && i == d.branch.previousInvitationId && row.stage != Paused
      then row.(stage := Paused, stageUpdatedAt := now)
      else row
  }

  function FoundersAfter(db: Db, input: Input, d: Decision, agencyId: Id): map<Id, Founder> {
    var g := d.subject.agentId;
    if !d.subject.created && g in db.founders && input.plan == AgencyPlan
    then db.founders[g := db.founders[g].(isAgencyAccount := true, agencyId := Some(agencyId))]
    else db.founders
  }

  function CheckoutsAfter(db: Db, input: Input, userId: Id, subscriptionId: Id): map<Id, Checkout> {
    if input.checkoutId.Some? && input.checkoutId.value in db.checkouts
    then db.checkouts[input.checkoutId.value :=
      db.checkouts[input.checkoutId.value].(finalized := true, userId := Some(userId),
        stripeId := input.provider.stripeId, platformSubscriptionId := Some(subscriptionId))]
    else db.checkouts
  }

  function UserIdOf(db: Db, input: Input, ids: NewRows): Id {
    match FindUser(db, input.invitedEmail) case Some(u) => u case None => ids.user
  }

  function After(db: Db, input: Input, now: Time, ids: NewRows, d: Decision): Db
    requires input.invitationId in db.invitations
    requires d.branch.Reparent? ==> d.branch.membershipId in db.memberships
  {
    var inv := db.invitations[input.invitationId];
    var agencyId, membershipId := AcceptedAgency(db, ids, inv, d.branch), AcceptedMembership(ids, d.branch);
    Db(UsersAfter(db, input, ids, d),
       AgentsAfter(db, input, inv.invitedByAgentId, d),
       if d.subject.created then db.onboardingInProgress[d.subject.agentId := true] else db.onboardingInProgress,
       FoundersAfter(db, input, d, agencyId),
       db.provisioned,
       MembershipsAfter(db, now, ids, inv, d),
       AgenciesAfter(db, input, ids, inv, d),
       SubscriptionsAfter(db, input, ids, d, agencyId, membershipId),
       InvitationsAfter(db, input, now, d, membershipId),
       CheckoutsAfter(db, input, UserIdOf(db, input, ids), SubscriptionIdAfter(db, input, ids, agencyId)))
  }

  datatype Outcome = Outcome(platformSubscriptionId: Id, createdAccount: bool)

  // The whole transaction: the next tables and what the caller is told.
  ghost function Run(db: Db, input: Input, now: Time, ids: NewRows): (Db, Result<Outcome, Error>) {
    if input.provider.status != Active && input.provider.status != Trialing then (db, Err(ProviderNotConfirmed))
    else if input.provider.periodEnd <= input.provider.periodStart then (db, Err(InvalidPeriod))
    else match CheckCheckout(db, input)
      case Err(e) => (db, Err(e))
      case Ok(Replay(s)) => (db, Ok(Outcome(s, false)))
      case Ok(Proceed(reservation)) =>
        match Decide(db, input, now, ids, reservation)
        case Err(e) => (db, Err(e))
        case Ok(d) =>
          var agencyId := AcceptedAgency(db, ids, db.invitations[input.invitationId], d.branch);
          (After(db, input, now, ids, d), Ok(Outcome(SubscriptionIdAfter(db, input, ids, agencyId), d.subject.created)))
  }
}
