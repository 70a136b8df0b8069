/** The commercial rows that invitation finalization writes and the access resolvers read. */
module Tables {
  import opened Wrappers
  import opened Hierarchy

  datatype Role = Owner | Member

  datatype Plan = IndividualPlan | AgencyPlan | MemberPlan

  datatype Status = Trialing | Active | PastDue | Canceled | Expired

  datatype Intended = IntendedAgent | IntendedAgency

  datatype InvitationStatus = Pending | Accepted | Revoked | TimedOut

  datatype Stage = Prospect | Invited | Onboarding | ActiveStage | Paused | OtherStage

  datatype User = User(email: string, isAgentRole: bool, agentId: Option<Id>)

  datatype Agent = Agent(active: bool, parentAgentId: Option<Id>, ownerRank: bool, agencyScope: bool)

  datatype Founder = Founder(isAgencyAccount: bool, agencyId: Option<Id>, trialStartedAt: Time, trialEndsAt: Time)

  datatype Provisioned = Provisioned(paymentRequiredAt: Option<Time>, subscriptionId: Id)

  datatype Membership = Membership(
    agencyId: Id, agentId: Id, role: Role, invitedByAgentId: Option<Id>, joinedAt: Time, endedAt: Option<Time>)

  datatype Agency = Agency(name: string, parentAgencyId: Option<Id>)

  // The commercial subject is the triple of optional ids, exactly one of which is set.
  datatype Subscription = Subscription(
    plan: Plan, agentId: Option<Id>, agencyId: Option<Id>, membershipId: Option<Id>,
    status: Status, unitAmountCents: int, periodStart: Option<Time>, periodEnd: Option<Time>,
    createdAt: Time, stripeId: Option<Id>)

  datatype Invitation = Invitation(
    agencyId: Id, email: string, invitedByAgentId: Id, status: InvitationStatus, intendedType: Option<Intended>,
    monthlyPriceCents: int, stage: Stage, stageUpdatedAt: Time, expiresAt: Time, createdAt: Time,
    acceptedAt: Option<Time>, acceptedAgentId: Option<Id>, acceptedPlan: Option<Plan>, acceptedMembershipId: Option<Id>,
    isCurrentCommercial: bool)

  datatype Checkout = Checkout(
    invitationId: Id, email: string, userId: Option<Id>, plan: Plan, inviterRole: Role, finalized: bool,
    unitAmountCents: int, acceptedTermsAt: Time, stripeId: Option<Id>, platformSubscriptionId: Option<Id>)

  datatype Db = Db(
    users: map<Id, User>,
    agents: map<Id, Agent>,
    onboardingInProgress: map<Id, bool>,   // by agent
    founders: map<Id, Founder>,            // by agent
    provisioned: map<Id, Provisioned>,     // by agent
    memberships: map<Id, Membership>,
    agencies: map<Id, Agency>,
    subscriptions: map<Id, Subscription>,
    invitations: map<Id, Invitation>,
    checkouts: map<Id, Checkout>)

  predicate Live(s: Status) {
    s == Trialing || s == Active || s == PastDue
  }

  predicate Entitling(s: Status) {
    s == Trialing || s == Active
  }

  // A null bound does not restrict (activeSubscriptionPeriodWhere, isEntitlingSubscription).
  predicate OpenPeriod(s: Subscription, now: Time) {
    && (s.periodStart.None? || s.periodStart.value <= now)
    && (s.periodEnd.None? || s.periodEnd.value > now)
  }

  function ActiveMemberships(db: Db, agentId: Id): set<Id> {
    set m | m in db.memberships && db.memberships[m].agentId == agentId && db.memberships[m].endedAt.None?
  }

  ghost predicate IsOwner(db: Db, agencyId: Id, agentId: Id) {
    exists m :: m in db.memberships && db.memberships[m].agencyId == agencyId && db.memberships[m].agentId == agentId
             && db.memberships[m].role == Owner && db.memberships[m].endedAt.None?
  }

  function Parents(db: Db): map<Id, Option<Id>> {
    map a | a in db.agents :: db.agents[a].parentAgentId
  }

  function AgencyParents(db: Db): map<Id, Option<Id>> {
    map a | a in db.agencies :: db.agencies[a].parentAgencyId
  }

  ghost predicate Points<T>(id: Option<Id>, rows: map<Id, T>) {
    id.Some? ==> id.value in rows
  }

  // The foreign keys of the schema.
  ghost predicate Linked(db: Db) {
    && (forall u :: u in db.users ==> Points(db.users[u].agentId, db.agents))
    && (forall a :: a in db.agents ==> Points(db.agents[a].parentAgentId, db.agents))
    && (forall a :: a in db.agencies ==> Points(db.agencies[a].parentAgencyId, db.agencies))
    && (forall m :: m in db.memberships ==>
      db.memberships[m].agencyId in db.agencies && db.memberships[m].agentId in db.agents)
    && (forall s :: s in db.subscriptions ==>
          && Points(db.subscriptions[s].agentId, db.agents)
          && Points(db.subscriptions[s].agencyId, db.agencies)
          && Points(db.subscriptions[s].membershipId, db.memberships))
    && (forall i :: i in db.invitations ==>
          && db.invitations[i].agencyId in db.agencies && db.invitations[i].invitedByAgentId in db.agents
          && Points(db.invitations[i].acceptedAgentId, db.agents)
          && Points(db.invitations[i].acceptedMembershipId, db.memberships))
    && (forall g :: g in db.founders ==> g in db.agents && Points(db.founders[g].agencyId, db.agencies))
    && (forall g :: g in db.provisioned ==> g in db.agents && db.provisioned[g].subscriptionId in db.subscriptions)
    && (forall g :: g in db.onboardingInProgress ==> g in db.agents)
  }
}
