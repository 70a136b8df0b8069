/** Agency capabilities and the data boundary of one agent (lib/agent-access.ts). */
module AgentAccess {
  import opened Wrappers
  import opened Tables
  import opened FounderAccess
  import Rules = FounderAccessRules

  datatype Kind = Individual | AgencyMember | AgencyOwner

  // The order of the boundary carries no authority, so it is a set here.
  datatype Access = Access(
    isActive: bool, kind: Kind, agencyId: Option<Id>, subscription: Option<Subscription>,
    canManageTeam: bool, canViewTeamData: bool, canInviteAgents: bool,
    canViewTeamSubscriptions: bool, canViewAgencyNationalLife: bool, scope: set<Id>)

  predicate IsEntitling(s: Option<Subscription>, now: Time) {
    s.Some? && Entitling(s.value.status) && OpenPeriod(s.value, now)
  }

  // A newer canceled row never hides a current one.
  function SelectSubscription(db: Db, list: seq<Id>, now: Time): Option<Subscription>
    requires Fetched(db, list)
  {
    match FirstEntitling(db, list, now)
    case Some(s) => Some(s)
    case None => Head(db, list)
  }

  function FirstEntitling(db: Db, list: seq<Id>, now: Time): Option<Subscription>
    requires Fetched(db, list)
  {
    if list == [] then None
    else if IsEntitling(Some(db.subscriptions[list[0]]), now) then Some(db.subscriptions[list[0]])
    else FirstEntitling(db, list[1..], now)
  }

  function IndividualAccess(agentId: Id, subscription: Option<Subscription>, isActive: bool): Access {
    Access(isActive, Individual, None, subscription, false, false, false, false, false, {agentId})
  }

  function AgencyAccess(agentId: Id, kind: Kind, agencyId: Id, subscription: Option<Subscription>, entitled: bool,
                        scope: set<Id>): Access {
    var owner := kind == AgencyOwner && entitled;
    Access(true, kind, Some(agencyId), subscription, owner, owner, entitled, owner, owner,
      if owner then scope else {agentId})
  }

  ghost predicate IsNewestMembership(db: Db, agentId: Id, m: Id) {
    && m in ActiveMemberships(db, agentId)
    && forall n :: n in ActiveMemberships(db, agentId) && n != m ==>
         || db.memberships[m].joinedAt > db.memberships[n].joinedAt
         || (db.memberships[m].joinedAt == db.memberships[n].joinedAt && m > n)
  }

  function MemberRows(db: Db, m: Id): set<Id> {
    set s | s in db.subscriptions && db.subscriptions[s].membershipId == Some(m)
      && db.subscriptions[s].plan == MemberPlan
  }

  function AgencyRows(db: Db, a: Id): set<Id> {
    set s | s in db.subscriptions && db.subscriptions[s].agencyId == Some(a) && db.subscriptions[s].plan == AgencyPlan
  }

  function IndividualRows(db: Db, g: Id): set<Id> {
    set s | s in db.subscriptions && db.subscriptions[s].agentId == Some(g)
      && db.subscriptions[s].plan == IndividualPlan
  }

  // An active member, of an active agent, whose own member plan is current.
  predicate MemberEntitled(db: Db, m: Id, agencyId: Id, now: Time)
    requires m in db.memberships
  {
    var row := db.memberships[m];
    && row.agencyId == agencyId && row.role == Member && row.endedAt.None?
    && row.agentId in db.agents && db.agents[row.agentId].active
    && exists s :: s in MemberRows(db, m) && IsEntitling(Some(db.subscriptions[s]), now)
  }

  function EntitledMembers(db: Db, agencyId: Id, now: Time): set<Id> {
    set m | m in db.memberships && MemberEntitled(db, m, agencyId, now) :: db.memberships[m].agentId
  }

  // What membership m, as the newest active one, gives its agent.
  function Granted(db: Db, agentId: Id, m: Id, now: Time): Access
    requires m in db.memberships
  {
    var agencyId := db.memberships[m].agencyId;
    if db.memberships[m].role == Member then
      var plan := SelectSubscription(db, NewestFirst(db, MemberRows(db, m)), now);
      AgencyAccess(agentId, AgencyMember, agencyId, plan, IsEntitling(plan, now), {agentId})
    else
      var plan := SelectSubscription(db, NewestFirst(db, AgencyRows(db, agencyId)), now);
      AgencyAccess(agentId, AgencyOwner, agencyId, plan, IsEntitling(plan, now),
        {agentId} + EntitledMembers(db, agencyId, now))
  }

  ghost function Resolve(db: Db, agentId: Id, now: Time): Access {
    if agentId !in db.agents || !db.agents[agentId].active then IndividualAccess(agentId, None, false)
    else if exists m :: IsNewestMembership(db, agentId, m) then
      var m :| IsNewestMembership(db, agentId, m);
      Granted(db, agentId, m, now)
    else
      IndividualAccess(agentId, SelectSubscription(db, NewestFirst(db, IndividualRows(db, agentId)), now), true)
  }

  lemma NewestMembershipGrants(db: Db, g: Id, m: Id, now: Time)
    requires g in db.agents && db.agents[g].active && IsNewestMembership(db, g, m)
    ensures Resolve(db, g, now) == Granted(db, g, m, now)
  {
    assert forall n :: IsNewestMembership(db, g, n) ==> n == m;
  }

  // However many older or newer rows there are, one current row entitles.
  lemma {:induction false} CurrentRowEntitles(db: Db, list: seq<Id>, now: Time)
    requires Fetched(db, list)
    ensures FirstEntitling(db, list, now).Some? ==> IsEntitling(FirstEntitling(db, list, now), now)
    ensures FirstEntitling(db, list, now).Some?
        <==> exists i :: 0 <= i < |list| && IsEntitling(Some(db.subscriptions[list[i]]), now)
  {
    if list != [] {
      CurrentRowEntitles(db, list[1..], now);
      if i :| 0 <= i < |list| && IsEntitling(Some(db.subscriptions[list[i]]), now) {
        assert i > 0 ==> list[1..][i - 1] == list[i];
      }
    }
  }

  lemma SelectedEntitlesIff(db: Db, rows: set<Id>, now: Time)
    requires rows <= db.subscriptions.Keys
    ensures IsEntitling(SelectSubscription(db, NewestFirst(db, rows), now), now)
       <==> exists s :: s in rows && IsEntitling(Some(db.subscriptions[s]), now)
  {
  }

  ghost predicate PaysFor(db: Db, m: Id, s: Id, now: Time)
    requires m in db.memberships
  {
    && s in (if db.memberships[m].role == Owner then AgencyRows(db, db.memberships[m].agencyId) else MemberRows(db, m))
    && IsEntitling(Some(db.subscriptions[s]), now)
  }

  lemma GrantNeedsAPlan(db: Db, g: Id, m: Id, now: Time)
    requires m in db.memberships && Granted(db, g, m, now).canInviteAgents
    ensures exists s :: PaysFor(db, m, s, now)
  {
    var rows := if db.memberships[m].role == Owner then AgencyRows(db, db.memberships[m].agencyId)
      else MemberRows(db, m);
    SelectedEntitlesIff(db, rows, now);
    var s :| s in rows && IsEntitling(Some(db.subscriptions[s]), now);
    assert PaysFor(db, m, s, now);
  }

  // Fail closed: without a current plan for the exact role there is no capability,
  // and without team management nobody else's data.
  lemma CapabilitiesNeedAPlan(db: Db, g: Id, now: Time)
    ensures
      var a := Resolve(db, g, now);
      && (a.canInviteAgents ==> a.isActive && exists m, s :: m in ActiveMemberships(db, g) && PaysFor(db, m, s, now))
      && (a.canManageTeam <==> a.canInviteAgents && a.kind == AgencyOwner)
      && (!a.canManageTeam ==> a.scope == {g})
      && a.canManageTeam == a.canViewTeamData == a.canViewTeamSubscriptions == a.canViewAgencyNationalLife
  {
    if Resolve(db, g, now).canInviteAgents {
      var m :| IsNewestMembership(db, g, m);
      NewestMembershipGrants(db, g, m, now);
      GrantNeedsAPlan(db, g, m, now);
    }
  }

  // ---------- the capabilities, on the rows ----------

  // A row that pays at this instant; a missing bound does not restrict.
  predicate Pays(sub: Subscription, now: Time) {
    && (sub.status == Active || sub.status == Trialing)
    && (sub.periodStart.None? || sub.periodStart.value <= now) && (sub.periodEnd.None? || now < sub.periodEnd.value)
  }

  // Membership m has a plan of its own kind that pays: the agency's plan for an owner,
  // the membership's own for a member.
  predicate HasPlan(db: Db, m: Id, now: Time)
    requires m in db.memberships
  {
    exists s | s in db.subscriptions ::
      && Pays(db.subscriptions[s], now)
      && match db.memberships[m].role
         case Owner =>
           db.subscriptions[s].plan == AgencyPlan && db.subscriptions[s].agencyId == Some(db.memberships[m].agencyId)
         case Member =>
           db.subscriptions[s].plan == MemberPlan && db.subscriptions[s].membershipId == Some(m)
  }

  lemma EntitlesIffHasPlan(db: Db, m: Id, now: Time)
    requires m in db.memberships
    ensures
      var rows := if db.memberships[m].role == Owner then AgencyRows(db, db.memberships[m].agencyId)
        else MemberRows(db, m);
      HasPlan(db, m, now) <==> exists s :: s in rows && IsEntitling(Some(db.subscriptions[s]), now)
  {
  }

  // x works in the agency as a member with a current plan of their own.
  ghost predicate PaidMember(db: Db, agencyId: Id, x: Id, now: Time) {
    exists n ::
      && n in db.memberships && db.memberships[n].agentId == x && db.memberships[n].agencyId == agencyId
      && db.memberships[n].role == Member && db.memberships[n].endedAt.None?
      && x in db.agents && db.agents[x].active && HasPlan(db, n, now)
  }

  lemma EntitledMembersAre(db: Db, agencyId: Id, now: Time, x: Id)
    ensures x in EntitledMembers(db, agencyId, now) <==> PaidMember(db, agencyId, x, now)
  {
    forall n | n in db.memberships
      ensures db.memberships[n].role == Member ==>
        (HasPlan(db, n, now) <==> exists s :: s in MemberRows(db, n) && IsEntitling(Some(db.subscriptions[s]), now))
    {
      EntitlesIffHasPlan(db, n, now);
    }
  }

  lemma GrantedIs(db: Db, g: Id, m: Id, now: Time)
    requires m in db.memberships
    ensures
      var a := Granted(db, g, m, now);
      && a.isActive && a.agencyId == Some(db.memberships[m].agencyId)
      && a.kind == (if db.memberships[m].role == Owner then AgencyOwner else AgencyMember)
      && (a.canInviteAgents <==> HasPlan(db, m, now))
      && (a.canInviteAgents ==> a.subscription.Some? && Pays(a.subscription.value, now))
      && (a.canManageTeam <==> db.memberships[m].role == Owner && HasPlan(db, m, now))
      && (if a.canManageTeam then a.scope == {g} + EntitledMembers(db, db.memberships[m].agencyId, now)
          else a.scope == {g})
  {
    EntitlesIffHasPlan(db, m, now);
    SelectedEntitlesIff(db,
      if db.memberships[m].role == Owner then AgencyRows(db, db.memberships[m].agencyId) else MemberRows(db, m), now);
  }

  lemma {:induction false} FirstEntitlingIsFirst(db: Db, list: seq<Id>, now: Time, j: int)
    requires Fetched(db, list) && Rules.SortedRows(db, list) && 0 <= j < |list| && Pays(db.subscriptions[list[j]], now)
    ensures FirstEntitling(db, list, now).Some?
    ensures FirstEntitling(db, list, now).value.createdAt >= db.subscriptions[list[j]].createdAt
  {
    if !Pays(db.subscriptions[list[0]], now) {
      FirstEntitlingIsFirst(db, list[1..], now, j - 1);
    }
  }

  // The plan shown: of the rows that pay the one created last, and if none does the one
  // created last of all.
  lemma SelectedIs(db: Db, rows: set<Id>, now: Time)
    requires rows <= db.subscriptions.Keys
    ensures
      var shown := SelectSubscription(db, NewestFirst(db, rows), now);
      if exists s :: s in rows && Pays(db.subscriptions[s], now) then
        && shown.Some? && Pays(shown.value, now)
        && forall t :: t in rows && Pays(db.subscriptions[t], now) ==>
             db.subscriptions[t].createdAt <= shown.value.createdAt
      else Rules.ShowsLast(db, rows, shown)
  {
    var list := NewestFirst(db, rows);
    Rules.NewestFirstIsSorted(db, rows);
    Rules.HeadShowsLast(db, rows, list);
    CurrentRowEntitles(db, list, now);
    forall t | t in rows && Pays(db.subscriptions[t], now)
      ensures FirstEntitling(db, list, now).Some?
      ensures FirstEntitling(db, list, now).value.createdAt >= db.subscriptions[t].createdAt
    {
      var j :| 0 <= j < |list| && list[j] == t;
      FirstEntitlingIsFirst(db, list, now, j);
    }
  }

  // The membership that counts: the one joined last, the larger id at a tie.
  ghost predicate JoinedLast(db: Db, g: Id, m: Id) {
    && m in ActiveMemberships(db, g)
    && forall n :: n in ActiveMemberships(db, g) && n != m ==>
         db.memberships[n].joinedAt < db.memberships[m].joinedAt
           || (db.memberships[n].joinedAt == db.memberships[m].joinedAt && n < m)
  }

  // An active agent may invite exactly while the plan of their membership pays, and
  // manage the team and see its data exactly if that membership is an owner's; the
  // boundary then holds every paid member of the agency, themselves, and nobody else.
  lemma CapabilitiesIff(db: Db, g: Id, m: Id, now: Time)
    requires g in db.agents && db.agents[g].active && JoinedLast(db, g, m)
    ensures
      var a, row := Resolve(db, g, now), db.memberships[m];
      && a.isActive && a.agencyId == Some(row.agencyId)
      && a.kind == (if row.role == Owner then AgencyOwner else AgencyMember)
      && (a.canInviteAgents <==> HasPlan(db, m, now))
      && (a.canInviteAgents ==> a.subscription.Some? && Pays(a.subscription.value, now))
      && (a.canManageTeam <==> row.role == Owner && HasPlan(db, m, now))
      && forall x :: x in a.scope <==> x == g || (a.canManageTeam && PaidMember(db, row.agencyId, x, now))
  {
    assert IsNewestMembership(db, g, m);
    NewestMembershipGrants(db, g, m, now);
    GrantedIs(db, g, m, now);
    forall x {
      EntitledMembersAre(db, db.memberships[m].agencyId, now, x);
    }
  }

  // Whoever has no active membership is on their own, and an inactive agent has nothing.
  lemma WithoutMembership(db: Db, g: Id, now: Time)
    requires g !in db.agents || !db.agents[g].active || ActiveMemberships(db, g) == {}
    ensures
      var a := Resolve(db, g, now);
      && (a.isActive <==> g in db.agents && db.agents[g].active)
      && a.kind == Individual && a.agencyId.None? && !a.canInviteAgents && !a.canManageTeam && a.scope == {g}
  {
  }
}
