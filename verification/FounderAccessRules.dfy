/**
 Who has access when, written out on the rows: which evidence decides about an agent,
 and exactly which plan rows then make the state PAID or TRIAL.
 */
module FounderAccessRules {
  import opened Wrappers
  import opened Tables
  import opened FounderAccess

  // ---------- a current row among the newest 25 ----------

  predicate IsCurrent(sub: Subscription, status: Status, now: Time) {
    && sub.status == status && sub.periodStart.Some? && sub.periodEnd.Some?
    && sub.periodStart.value <= now < sub.periodEnd.value
  }

  ghost predicate CurrentRow(db: Db, rows: set<Id>, status: Status, now: Time, s: Id)
    requires rows <= db.subscriptions.Keys
  {
    s in rows && IsCurrent(db.subscriptions[s], status, now) && |NewerRows(db, rows, s)| < 25
  }

  ghost predicate HasCurrent(db: Db, rows: set<Id>, status: Status, now: Time)
    requires rows <= db.subscriptions.Keys
  {
    exists s :: CurrentRow(db, rows, status, now, s)
  }

  lemma FoundIff(db: Db, rows: set<Id>, status: Status, now: Time)
    requires rows <= db.subscriptions.Keys
    ensures FindFirst(db, Take25(NewestFirst(db, rows)), status, now).Some? <==> HasCurrent(db, rows, status, now)
  {
    var list := Take25(NewestFirst(db, rows));
    if FindFirst(db, list, status, now).Some? {
      var s := FindFirst(db, list, status, now).value;
      assert s in NewestFirst(db, rows);
      InTake25(db, rows, s);
      assert CurrentRow(db, rows, status, now, s);
    }
    if s :| CurrentRow(db, rows, status, now, s) {
      InTake25(db, rows, s);
      FindFirstIsExists(db, list, status, now, s);
    }
  }

  // ---------- the newest current row is the one reported ----------

  ghost predicate SortedRows(db: Db, list: seq<Id>)
    requires Fetched(db, list)
  {
    forall i, j :: 0 <= i < j < |list| ==> Newer(db, list[i], list[j])
  }

  lemma {:induction false} NewestFirstIsSorted(db: Db, rows: set<Id>)
    requires rows <= db.subscriptions.Keys
    ensures SortedRows(db, NewestFirst(db, rows))
    decreases rows
  {
    var list := NewestFirst(db, rows);
    if list != [] {
      NewestFirstIsSorted(db, rows - {list[0]});
      forall j | 1 <= j < |list|
        ensures Newer(db, list[0], list[j])
      {
        var s := list[1..][j - 1];
        assert s in NewestFirst(db, rows - {list[0]});
        HeadIsNewest(db, rows, s);
      }
    }
  }

  lemma {:induction false} FindFirstIsFirst(db: Db, list: seq<Id>, status: Status, now: Time, j: int)
    requires Fetched(db, list) && SortedRows(db, list) && 0 <= j < |list|
    requires IsCurrent(db.subscriptions[list[j]], status, now)
    ensures
      var found := FindFirst(db, list, status, now);
      found.Some? && (found.value == list[j] || Newer(db, found.value, list[j]))
  {
    if !IsCurrent(db.subscriptions[list[0]], status, now) {
      FindFirstIsFirst(db, list[1..], status, now, j - 1);
    }
  }

  // Of several current rows of that status the one created last is found, the larger
  // id at a tie.
  lemma FoundIsNewest(db: Db, rows: set<Id>, status: Status, now: Time, t: Id)
    requires rows <= db.subscriptions.Keys && CurrentRow(db, rows, status, now, t)
    ensures
      var found := FindFirst(db, Take25(NewestFirst(db, rows)), status, now);
      && found.Some? && CurrentRow(db, rows, status, now, found.value)
      && db.subscriptions[found.value].createdAt >= db.subscriptions[t].createdAt
      && (db.subscriptions[found.value].createdAt == db.subscriptions[t].createdAt ==> found.value >= t)
  {
    var list := Take25(NewestFirst(db, rows));
    NewestFirstIsSorted(db, rows);
    InTake25(db, rows, t);
    var j :| 0 <= j < |list| && list[j] == t;
    FindFirstIsFirst(db, list, status, now, j);
    var s := FindFirst(db, list, status, now).value;
    assert s in NewestFirst(db, rows);
    InTake25(db, rows, s);
  }

  // PAID by a current ACTIVE row, TRIAL by a current TRIALING one where a trial may
  // run, and by the newest such row; otherwise neither.
  ghost predicate DecidedBy(db: Db, rows: set<Id>, mayTry: bool, now: Time, r: Resolution)
    requires rows <= db.subscriptions.Keys
  {
    && (r.state == Paid <==> HasCurrent(db, rows, Active, now))
    && (r.state == Trial <==> !HasCurrent(db, rows, Active, now) && HasCurrent(db, rows, Trialing, now) && mayTry)
    && (r.HasAccess() <==> r.state == Paid || r.state == Trial)
    && (r.state == Paid ==> ShowsNewest(db, rows, Active, now, r))
    && (r.state == Trial ==> ShowsNewest(db, rows, Trialing, now, r))
    && (!r.HasAccess() ==> ShowsLast(db, rows, r.subscription))
  }

  // The row created last, if there is any.
  ghost predicate ShowsLast(db: Db, rows: set<Id>, shown: Option<Subscription>)
    requires rows <= db.subscriptions.Keys
  {
    match shown
    case None => rows == {}
    case Some(sub) =>
      && (exists s :: s in rows && sub == db.subscriptions[s])
      && forall t :: t in rows ==> db.subscriptions[t].createdAt <= sub.createdAt
  }

  lemma HeadShowsLast(db: Db, rows: set<Id>, list: seq<Id>)
    requires rows <= db.subscriptions.Keys
    requires list == NewestFirst(db, rows) || list == Take25(NewestFirst(db, rows))
    ensures ShowsLast(db, rows, Head(db, list))
  {
    forall t | t in rows
      ensures list != [] && list[0] in rows
      ensures db.subscriptions[t].createdAt <= db.subscriptions[list[0]].createdAt
    {
      HeadIsNewest(db, rows, t);
    }
  }

  ghost predicate ShowsNewest(db: Db, rows: set<Id>, status: Status, now: Time, r: Resolution)
    requires rows <= db.subscriptions.Keys
  {
    exists s ::
      && CurrentRow(db, rows, status, now, s) && r.subscription == Some(db.subscriptions[s])
      && forall t :: CurrentRow(db, rows, status, now, t) ==>
           db.subscriptions[s].createdAt >= db.subscriptions[t].createdAt
  }

  lemma FoundShowsNewest(db: Db, rows: set<Id>, status: Status, now: Time, r: Resolution)
    requires rows <= db.subscriptions.Keys
    requires
      var found := FindFirst(db, Take25(NewestFirst(db, rows)), status, now);
      found.Some? && r.subscription == Some(db.subscriptions[found.value])
    ensures ShowsNewest(db, rows, status, now, r)
  {
    var s := FindFirst(db, Take25(NewestFirst(db, rows)), status, now).value;
    FoundIff(db, rows, status, now);
    forall t | CurrentRow(db, rows, status, now, t)
      ensures CurrentRow(db, rows, status, now, s)
      ensures db.subscriptions[s].createdAt >= db.subscriptions[t].createdAt
    {
      FoundIsNewest(db, rows, status, now, t);
    }
  }

  lemma ListDecides(db: Db, rows: set<Id>, mayTry: bool, now: Time, r: Resolution)
    requires rows <= db.subscriptions.Keys
    requires
      var list := Take25(NewestFirst(db, rows));
      var paid, trial := FindFirst(db, list, Active, now), FindFirst(db, list, Trialing, now);
      if paid.Some? then r.state == Paid && r.subscription == Some(db.subscriptions[paid.value])
      else if trial.Some? && mayTry then r.state == Trial && r.subscription == Some(db.subscriptions[trial.value])
      else r.state == Lapsed && r.subscription == Head(db, list)
    ensures DecidedBy(db, rows, mayTry, now, r)
  {
    HeadShowsLast(db, rows, Take25(NewestFirst(db, rows)));
    FoundIff(db, rows, Active, now);
    FoundIff(db, rows, Trialing, now);
    if r.state == Paid {
      FoundShowsNewest(db, rows, Active, now, r);
    } else if r.state == Trial {
      FoundShowsNewest(db, rows, Trialing, now, r);
    }
  }

  // ---------- invitations ----------

  // Plan row s pays for what the invitation made of the agent: the member plan of the
  // accepted membership in the inviting agency, or the agency plan of the agency the
  // agent owns, a child of the inviting one. The membership has to be active.
  predicate PaysForInvitation(db: Db, inv: Invitation, g: Id, s: Id) {
    && s in db.subscriptions && inv.acceptedAgentId == Some(g) && inv.acceptedPlan == Some(db.subscriptions[s].plan)
    && inv.acceptedMembershipId.Some? && inv.acceptedMembershipId.value in db.memberships
    && var m := db.memberships[inv.acceptedMembershipId.value];
    && m.agentId == g && m.endedAt.None?
    && match db.subscriptions[s].plan
       case IndividualPlan => false
       case MemberPlan =>
         m.role == Member && m.agencyId == inv.agencyId && db.subscriptions[s].membershipId == inv.acceptedMembershipId
       case AgencyPlan =>
         && m.role == Owner && m.agencyId in db.agencies && db.agencies[m.agencyId].parentAgencyId == Some(inv.agencyId)
         && db.subscriptions[s].agencyId == Some(m.agencyId)
  }

  function InvitationRows(db: Db, inv: Invitation, g: Id): set<Id> {
    set s | s in db.subscriptions && PaysForInvitation(db, inv, g, s)
  }

  lemma InvitationRowsAre(db: Db, inv: Invitation, g: Id)
    ensures SubjectRows(db, InvitationSubject(db, inv, g)) == InvitationRows(db, inv, g)
  {
  }

  lemma InvitationDecidedBy(db: Db, inv: Invitation, g: Id, now: Time)
    ensures DecidedBy(db, InvitationRows(db, inv, g), true, now, ResolveInvitation(db, inv, g, now))
    ensures ResolveInvitation(db, inv, g, now).source == FromInvitation
    ensures ResolveInvitation(db, inv, g, now).trialEndsAt.None?
    ensures ResolveInvitation(db, inv, g, now).requiredPlan
         == match inv.acceptedPlan case Some(IndividualPlan) => None case plan => plan
  {
    InvitationRowsAre(db, inv, g);
    if !InvitationSubject(db, inv, g).NoSubject? {
      ListDecides(db, InvitationRows(db, inv, g), true, now, ResolveInvitation(db, inv, g, now));
    }
  }

  // ---------- founders ----------

  predicate PaysForFounder(db: Db, f: Founder, g: Id, s: Id) {
    && s in db.subscriptions
    && match db.subscriptions[s].plan
       case IndividualPlan => !f.isAgencyAccount && db.subscriptions[s].agentId == Some(g)
       case AgencyPlan => f.isAgencyAccount && f.agencyId.Some? && db.subscriptions[s].agencyId == f.agencyId
       case MemberPlan => false
  }

  function RowsOfFounder(db: Db, f: Founder, g: Id): set<Id> {
    set s | s in db.subscriptions && PaysForFounder(db, f, g, s)
  }

  // The free month of a founder, exactly 30 days, is running.
  predicate InFreeMonth(f: Founder, now: Time) {
    f.trialEndsAt == f.trialStartedAt + 30 * 24 * 60 * 60 * 1_000 && f.trialStartedAt <= now < f.trialEndsAt
  }

  // A founder is PAID exactly while one of the newest 25 rows of their own plan is
  // ACTIVE and current, also after the free month, and on TRIAL only inside it. An
  // enrollment that contradicts itself gives nothing.
  lemma FounderDecidedBy(db: Db, f: Founder, g: Id, now: Time)
    ensures f.isAgencyAccount == f.agencyId.Some? ==>
        DecidedBy(db, RowsOfFounder(db, f, g), InFreeMonth(f, now), now, ResolveFounder(db, f, g, now))
    ensures f.isAgencyAccount != f.agencyId.Some? ==> !ResolveFounder(db, f, g, now).HasAccess()
    ensures ResolveFounder(db, f, g, now).source == FromFounder
    ensures ResolveFounder(db, f, g, now).trialEndsAt == Some(f.trialEndsAt)
    ensures ResolveFounder(db, f, g, now).requiredPlan == Some(if f.isAgencyAccount then AgencyPlan else IndividualPlan)
  {
    assert RowsOfFounder(db, f, g) == FounderRows(db, f, g);
    if f.isAgencyAccount == f.agencyId.Some? {
      ListDecides(db, RowsOfFounder(db, f, g), InFreeMonth(f, now), now, ResolveFounder(db, f, g, now));
    }
  }

  // ---------- administrative provisioning ----------

  // The plan of active membership m of the agent, as the owner or as a member.
  predicate PlanThrough(db: Db, sub: Subscription, g: Id, m: Id) {
    && m in ActiveMemberships(db, g)
    && match sub.plan
       case IndividualPlan => false
       case AgencyPlan => db.memberships[m].role == Owner && sub.agencyId == Some(db.memberships[m].agencyId)
       case MemberPlan => db.memberships[m].role == Member && sub.membershipId == Some(m)
  }

  // The plan is the agent's own: theirs individually, or through an active membership.
  ghost predicate OwnPlan(db: Db, sub: Subscription, g: Id) {
    (sub.plan == IndividualPlan && sub.agentId == Some(g)) || exists m :: PlanThrough(db, sub, g, m)
  }

  lemma OwnPlanIff(db: Db, sub: Subscription, g: Id)
    ensures ProvisionedFor(db, sub, g) <==> OwnPlan(db, sub, g)
  {
    match sub.plan {
      case IndividualPlan =>
      case AgencyPlan =>
        if ProvisionedFor(db, sub, g) {
          var m :| m in db.memberships && db.memberships[m].agencyId == sub.agencyId.value
            && db.memberships[m].agentId == g && db.memberships[m].role == Owner && db.memberships[m].endedAt.None?;
          assert PlanThrough(db, sub, g, m);
        }
      case MemberPlan =>
        if ProvisionedFor(db, sub, g) {
          assert PlanThrough(db, sub, g, sub.membershipId.value);
        }
    }
  }

  // An administrative hold blocks a trial but not a paid plan.
  lemma ProvisioningDecidedBy(db: Db, p: Provisioned, g: Id, now: Time)
    requires p.subscriptionId in db.subscriptions
    ensures
      var r, sub := ResolveProvisioned(db, p, g, now), db.subscriptions[p.subscriptionId];
      && (r.state == Paid <==> OwnPlan(db, sub, g) && IsCurrent(sub, Active, now))
      && (r.state == Trial <==> OwnPlan(db, sub, g) && IsCurrent(sub, Trialing, now) && p.paymentRequiredAt.None?)
      && (r.HasAccess() <==> r.state == Paid || r.state == Trial)
      && r.source == FromProvisioning && r.subscription == Some(sub) && r.requiredPlan == Some(sub.plan)
      && r.trialEndsAt == if sub.status == Trialing then sub.periodEnd else None
  {
    OwnPlanIff(db, db.subscriptions[p.subscriptionId], g);
  }

  // ---------- which evidence decides ----------

  predicate IsCommercial(db: Db, g: Id, i: Id) {
    && i in db.invitations && db.invitations[i].status == Accepted && db.invitations[i].isCurrentCommercial
    && db.invitations[i].acceptedAgentId == Some(g)
  }

  // Accepted later (a missing time counts as latest), else created later, else larger id.
  predicate ComesFirst(a: Invitation, i: Id, b: Invitation, j: Id) {
    if a.acceptedAt != b.acceptedAt
      then a.acceptedAt.None? || (b.acceptedAt.Some? && a.acceptedAt.value > b.acceptedAt.value)
    else if a.createdAt != b.createdAt then a.createdAt > b.createdAt
    else i > j
  }

  ghost predicate Governs(db: Db, g: Id, i: Id) {
    && IsCommercial(db, g, i)
    && forall j :: IsCommercial(db, g, j) && j != i ==> ComesFirst(db.invitations[i], i, db.invitations[j], j)
  }

  lemma GovernsIsLatest(db: Db, g: Id, i: Id)
    ensures Governs(db, g, i) <==> IsLatest(db, CommercialInvitations(db, g), i)
  {
    assert forall j :: j in CommercialInvitations(db, g) <==> IsCommercial(db, g, j);
  }

  // The latest accepted current invitation, if there is one; else provisioning, else
  // the founder enrollment; whoever has none of them keeps their account as it was.
  lemma EvidenceInOrder(db: Db, g: Id, now: Time)
    ensures (exists i :: IsCommercial(db, g, i)) ==> exists i :: Governs(db, g, i)
    ensures forall i :: Governs(db, g, i) ==> Resolve(db, g, now) == ResolveInvitation(db, db.invitations[i], g, now)
    ensures (forall i :: !IsCommercial(db, g, i)) ==>
      Resolve(db, g, now) ==
        if g in db.provisioned && db.provisioned[g].subscriptionId in db.subscriptions
          then ResolveProvisioned(db, db.provisioned[g], g, now)
        else if g in db.founders then ResolveFounder(db, db.founders[g], g, now)
        else Resolution(Legacy, FromLegacy, None, None, None)
  {
    var rows := CommercialInvitations(db, g);
    if i0 :| IsCommercial(db, g, i0) {
      assert i0 in rows;
      LatestDecides(db, g, now);
      var i :| IsLatest(db, rows, i);
      GovernsIsLatest(db, g, i);
    } else {
      assert forall i :: i in rows ==> IsCommercial(db, g, i);
    }
    forall i | Governs(db, g, i)
      ensures Resolve(db, g, now) == ResolveInvitation(db, db.invitations[i], g, now)
    {
      GovernsIsLatest(db, g, i);
      LatestResolves(db, g, i, now);
    }
  }
}
