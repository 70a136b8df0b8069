/**
 The commercial boundary (lib/founder-access.ts): decisions over fetched rows at one instant.
 */
module FounderAccess {
  import opened Wrappers
  import opened Hierarchy
  import opened Tables

  const TRIAL_MS := 2_592_000 * 1_000
  const NEWEST_ROWS := 25

  datatype State = Legacy | Trial | Paid | Lapsed

  datatype Source = FromLegacy | FromFounder | FromInvitation | FromProvisioning

  datatype Resolution = Resolution(
    state: State, source: Source, requiredPlan: Option<Plan>, trialEndsAt: Option<Time>,
      subscription: Option<Subscription>)
  {
    predicate HasAccess() {
      state == Legacy || state == Trial || state == Paid
    }
  }

  // ---------- newest-first queries ----------

  predicate Newer(db: Db, s: Id, t: Id)
    requires s in db.subscriptions && t in db.subscriptions
  {
    || db.subscriptions[s].createdAt > db.subscriptions[t].createdAt
    || (db.subscriptions[s].createdAt == db.subscriptions[t].createdAt && s > t)
  }

  lemma {:induction false} NewestExists(db: Db, rows: set<Id>)
    requires exists s :: s in rows
    requires rows <= db.subscriptions.Keys
    ensures exists s :: s in rows && forall t :: t in rows && t != s ==> Newer(db, s, t)
  {
    var s :| s in rows;
    if t0 :| t0 in rows - {s} {
      NewestExists(db, rows - {s});
      var t :| t in rows - {s} && forall u :: u in rows - {s} && u != t ==> Newer(db, t, u);
      var newest := if Newer(db, s, t) then s else t;
      forall u | u in rows && u != newest
        ensures Newer(db, newest, u)
      {
        assert u == s || u in rows - {s};
      }
    } else {
      assert forall u :: u in rows ==> u == s || u in rows - {s};
    }
  }

  // `orderBy: [{ createdAt: 'desc' }, { id: 'desc' }]`
  function NewestFirst(db: Db, rows: set<Id>): (list: seq<Id>)
    requires rows <= db.subscriptions.Keys
    ensures forall s :: s in list <==> s in rows
    decreases rows
  {
    if exists s :: s in rows then
      NewestExists(db, rows);
      var newest :| newest in rows && forall t :: t in rows && t != newest ==> Newer(db, newest, t);
      [newest] + NewestFirst(db, rows - {newest})
    else []
  }

  function Take25(list: seq<Id>): seq<Id> {
    if |list| <= NEWEST_ROWS then list else list[..NEWEST_ROWS]
  }

  predicate Fetched(db: Db, list: seq<Id>) {
    forall i :: 0 <= i < |list| ==> list[i] in db.subscriptions
  }

  function FindFirst(db: Db, list: seq<Id>, status: Status, now: Time): (r: Option<Id>)
    requires Fetched(db, list)
    ensures r.Some? ==> r.value in list && r.value in db.subscriptions
    ensures r.Some? ==> db.subscriptions[r.value].status == status && WithinPeriod(db.subscriptions[r.value], now)
  {
    if list == [] then None
    else
      if db.subscriptions[list[0]].status == status && WithinPeriod(db.subscriptions[list[0]], now) then Some(list[0])
      else FindFirst(db, list[1..], status, now)
  }

  // Here both bounds must be present.
  predicate WithinPeriod(s: Subscription, now: Time) {
    s.periodStart.Some? && s.periodEnd.Some? && s.periodStart.value <= now < s.periodEnd.value
  }

  lemma {:induction false} FindFirstIsExists(db: Db, list: seq<Id>, status: Status, now: Time, s: Id)
    requires Fetched(db, list)
    requires s in list && s in db.subscriptions && db.subscriptions[s].status == status
    requires WithinPeriod(db.subscriptions[s], now)
    ensures FindFirst(db, list, status, now).Some?
  {
    if s != list[0] {
      FindFirstIsExists(db, list[1..], status, now, s);
    }
  }

  // The rows of the subject that come before s.
  function NewerRows(db: Db, rows: set<Id>, s: Id): set<Id>
    requires rows <= db.subscriptions.Keys && s in db.subscriptions
  {
    set t | t in rows && Newer(db, t, s)
  }

  lemma {:induction false} ListedOnce(db: Db, rows: set<Id>)
    requires rows <= db.subscriptions.Keys
    ensures Distinct(NewestFirst(db, rows))
    decreases rows
  {
    var list := NewestFirst(db, rows);
    if list != [] {
      ListedOnce(db, rows - {list[0]});
      forall i | 1 <= i < |list|
        ensures list[i] != list[0]
      {
        var s: Id := list[1..][i - 1];
        assert s in NewestFirst(db, rows - {list[0]});
      }
    }
  }

  lemma HeadIsNewest(db: Db, rows: set<Id>, s: Id)
    requires rows <= db.subscriptions.Keys && s in rows
    ensures NewestFirst(db, rows) != [] && NewestFirst(db, rows)[0] in rows
    ensures s == NewestFirst(db, rows)[0] || Newer(db, NewestFirst(db, rows)[0], s)
    ensures NewestFirst(db, rows)[1..] == NewestFirst(db, rows - {NewestFirst(db, rows)[0]})
  {
  }

  lemma NoneBeforeHead(db: Db, rows: set<Id>, s: Id)
    requires rows <= db.subscriptions.Keys && s in rows && s == NewestFirst(db, rows)[0]
    ensures NewerRows(db, rows, s) == {}
  {
    forall t | t in rows
      ensures !Newer(db, t, s)
    {
      HeadIsNewest(db, rows, t);
    }
  }

  lemma HeadIsOneOfTheNewer(db: Db, rows: set<Id>, s: Id)
    requires rows <= db.subscriptions.Keys && s in rows && s != NewestFirst(db, rows)[0]
    ensures
      var newest := NewestFirst(db, rows)[0];
      newest in rows && |NewerRows(db, rows, s)| == |NewerRows(db, rows - {newest}, s)| + 1
  {
    var newest := NewestFirst(db, rows)[0];
    HeadIsNewest(db, rows, s);
    assert NewerRows(db, rows, s) == NewerRows(db, rows - {newest}, s) + {newest};
  }

  // A row is listed right after the rows that are newer.
  lemma {:induction false} RankInList(db: Db, rows: set<Id>, s: Id)
    requires rows <= db.subscriptions.Keys && s in rows
    ensures |NewerRows(db, rows, s)| < |NewestFirst(db, rows)|
    ensures NewestFirst(db, rows)[|NewerRows(db, rows, s)|] == s
    decreases rows
  {
    var newest := NewestFirst(db, rows)[0];
    HeadIsNewest(db, rows, s);
    if s == newest {
      NoneBeforeHead(db, rows, s);
    } else {
      HeadIsOneOfTheNewer(db, rows, s);
      RankInList(db, rows - {newest}, s);
    }
  }

  // A row makes the newest-25 cut exactly when fewer than 25 rows of its subject are
  // newer: created later, or at the same time with a larger id.
  lemma InTake25(db: Db, rows: set<Id>, s: Id)
    requires rows <= db.subscriptions.Keys && s in rows
    ensures
      s in Take25(NewestFirst(db, rows)) <==>
      |set t | t in rows
         && (db.subscriptions[t].createdAt > db.subscriptions[s].createdAt
             || (db.subscriptions[t].createdAt == db.subscriptions[s].createdAt && t > s))| < 25
    ensures s in Take25(NewestFirst(db, rows)) <==> |NewerRows(db, rows, s)| < NEWEST_ROWS
  {
    assert NewerRows(db, rows, s) == set t | t in rows
      && (db.subscriptions[t].createdAt > db.subscriptions[s].createdAt
          || (db.subscriptions[t].createdAt == db.subscriptions[s].createdAt && t > s));
    RankInList(db, rows, s);
    ListedOnce(db, rows);
    var list, rank := NewestFirst(db, rows), |NewerRows(db, rows, s)|;
    if |list| > NEWEST_ROWS && s in list[..NEWEST_ROWS] {
      var i :| 0 <= i < NEWEST_ROWS && list[..NEWEST_ROWS][i] == s;
      assert list[i] == s && list[rank] == s;
    }
    if rank < NEWEST_ROWS {
      assert Take25(list)[rank] == s;
    }
  }

  // ---------- accepted invitation ----------

  datatype SubjectPlan = NoSubject | OfMembership(membershipId: Id) | OfAgency(agencyId: Id)

  function InvitationSubject(db: Db, inv: Invitation, agentId: Id): SubjectPlan {
    if inv.acceptedMembershipId.None? || inv.acceptedMembershipId.value !in db.memberships then NoSubject
    else
      var id := inv.acceptedMembershipId.value;
      var m := db.memberships[id];
      if m.endedAt.Some? || m.agentId != agentId || inv.acceptedAgentId != Some(agentId) then NoSubject
      else if inv.acceptedPlan == Some(MemberPlan) then
        if m.role == Member && m.agencyId == inv.agencyId then OfMembership(id) else NoSubject
      else if inv.acceptedPlan == Some(AgencyPlan) then
        if m.role == Owner && m.agencyId in db.agencies && db.agencies[m.agencyId].parentAgencyId == Some(inv.agencyId)
        then OfAgency(m.agencyId) else NoSubject
      else NoSubject
  }

  function SubjectRows(db: Db, subject: SubjectPlan): set<Id> {
    match subject
    case NoSubject => {}
    case OfMembership(m) =>
      set s | s in db.subscriptions && db.subscriptions[s].membershipId == Some(m)
              && db.subscriptions[s].plan == MemberPlan
    case OfAgency(a) =>
      set s | s in db.subscriptions && db.subscriptions[s].agencyId == Some(a)
              && db.subscriptions[s].plan == AgencyPlan
  }

  function Head(db: Db, list: seq<Id>): Option<Subscription> {
    if list != [] && list[0] in db.subscriptions then Some(db.subscriptions[list[0]]) else None
  }

  function InvitationPlan(inv: Invitation): Option<Plan> {
    if inv.acceptedPlan == Some(AgencyPlan) || inv.acceptedPlan == Some(MemberPlan) then inv.acceptedPlan else None
  }

  function ResolveInvitation(db: Db, inv: Invitation, agentId: Id, now: Time): Resolution {
    var subject := InvitationSubject(db, inv, agentId);
    if subject.NoSubject? then Resolution(Lapsed, FromInvitation, InvitationPlan(inv), None, None)
    else
      var list := Take25(NewestFirst(db, SubjectRows(db, subject)));
      var paid, trial := FindFirst(db, list, Active, now), FindFirst(db, list, Trialing, now);
      if paid.Some? then Resolution(Paid, FromInvitation, InvitationPlan(inv), None, Some(db.subscriptions[paid.value]))
      else if trial.Some?
        then Resolution(Trial, FromInvitation, InvitationPlan(inv), None, Some(db.subscriptions[trial.value]))
      else Resolution(Lapsed, FromInvitation, InvitationPlan(inv), None, Head(db, list))
  }

  // ---------- administrative provisioning ----------

  ghost predicate ProvisionedFor(db: Db, sub: Subscription, agentId: Id) {
    match sub.plan
    case IndividualPlan => sub.agentId == Some(agentId)
    case AgencyPlan => sub.agencyId.Some? && IsOwner(db, sub.agencyId.value, agentId)
    case MemberPlan =>
      && sub.membershipId.Some? && sub.membershipId.value in db.memberships
      && db.memberships[sub.membershipId.value].agentId == agentId
      && db.memberships[sub.membershipId.value].role == Member && db.memberships[sub.membershipId.value].endedAt.None?
  }

  ghost function ResolveProvisioned(db: Db, p: Provisioned, agentId: Id, now: Time): Resolution
    requires p.subscriptionId in db.subscriptions
  {
    var sub := db.subscriptions[p.subscriptionId];
    var valid, current := ProvisionedFor(db, sub, agentId), WithinPeriod(sub, now);
    var trialEnd := if sub.status == Trialing then sub.periodEnd else None;
    var state :=
      if valid && sub.status == Active && current then Paid
      else if p.paymentRequiredAt.Some? then Lapsed
      else if valid && sub.status == Trialing && current then Trial
      else Lapsed;
    Resolution(state, FromProvisioning, Some(sub.plan), trialEnd, Some(sub))
  }

  // ---------- founders ----------

  predicate WithinFounderTrial(f: Founder, now: Time) {
    f.trialEndsAt - f.trialStartedAt == TRIAL_MS && f.trialStartedAt <= now < f.trialEndsAt
  }

  function FounderRows(db: Db, f: Founder, agentId: Id): set<Id> {
    if f.isAgencyAccount then
      set s | s in db.subscriptions && f.agencyId.Some? && db.subscriptions[s].agencyId == f.agencyId
              && db.subscriptions[s].plan == AgencyPlan
    else
      set s | s in db.subscriptions && db.subscriptions[s].agentId == Some(agentId)
              && db.subscriptions[s].plan == IndividualPlan
  }

  function ResolveFounder(db: Db, f: Founder, agentId: Id, now: Time): Resolution {
    var plan := Some(if f.isAgencyAccount then AgencyPlan else IndividualPlan);
    if f.isAgencyAccount != f.agencyId.Some? then Resolution(Lapsed, FromFounder, plan, Some(f.trialEndsAt), None)
    else
      var list := Take25(NewestFirst(db, FounderRows(db, f, agentId)));
      var paid, trial := FindFirst(db, list, Active, now), FindFirst(db, list, Trialing, now);
      if paid.Some? then Resolution(Paid, FromFounder, plan, Some(f.trialEndsAt), Some(db.subscriptions[paid.value]))
      else if trial.Some? && WithinFounderTrial(f, now)
        then Resolution(Trial, FromFounder, plan, Some(f.trialEndsAt), Some(db.subscriptions[trial.value]))
      else Resolution(Lapsed, FromFounder, plan, Some(f.trialEndsAt), Head(db, list))
  }

  // ---------- the resolver ----------

  function CommercialInvitations(db: Db, agentId: Id): set<Id> {
    set i | i in db.invitations && db.invitations[i].acceptedAgentId == Some(agentId)
      && db.invitations[i].status == Accepted && db.invitations[i].isCurrentCommercial
  }

  // In a descending order a missing value comes first.
  predicate AcceptedLater(a: Invitation, b: Invitation) {
    b.acceptedAt.Some? && (a.acceptedAt.None? || a.acceptedAt.value > b.acceptedAt.value)
  }

  // Latest acceptance first, then latest creation, then largest id.
  predicate Later(db: Db, i: Id, j: Id)
    requires i in db.invitations && j in db.invitations
  {
    var a, b := db.invitations[i], db.invitations[j];
    || AcceptedLater(a, b)
    || (a.acceptedAt == b.acceptedAt && (a.createdAt > b.createdAt || (a.createdAt == b.createdAt && i > j)))
  }

  ghost predicate IsLatest(db: Db, rows: set<Id>, i: Id)
    requires rows <= db.invitations.Keys
  {
    i in rows && forall j :: j in rows && j != i ==> Later(db, i, j)
  }

  ghost function Resolve(db: Db, agentId: Id, now: Time): Resolution {
    var accepted := CommercialInvitations(db, agentId);
    if exists i :: IsLatest(db, accepted, i) then
      var i :| IsLatest(db, accepted, i);
      ResolveInvitation(db, db.invitations[i], agentId, now)
    else if agentId in db.provisioned && db.provisioned[agentId].subscriptionId in db.subscriptions
      then ResolveProvisioned(db, db.provisioned[agentId], agentId, now)
    else if agentId in db.founders then ResolveFounder(db, db.founders[agentId], agentId, now)
    else Resolution(Legacy, FromLegacy, None, None, None)
  }

  lemma {:induction false} LatestExists(db: Db, rows: set<Id>)
    requires rows <= db.invitations.Keys && exists i :: i in rows
    ensures exists i :: IsLatest(db, rows, i)
  {
    var i :| i in rows;
    if j0 :| j0 in rows - {i} {
      LatestExists(db, rows - {i});
      var j :| IsLatest(db, rows - {i}, j);
      var best := if Later(db, i, j) then i else j;
      forall k | k in rows && k != best
        ensures Later(db, best, k)
      {
        assert k == i || k in rows - {i};
      }
      assert IsLatest(db, rows, best);
    } else {
      assert forall k :: k in rows ==> k == i || k in rows - {i};
      assert IsLatest(db, rows, i);
    }
  }

  lemma LatestResolves(db: Db, g: Id, i: Id, now: Time)
    requires IsLatest(db, CommercialInvitations(db, g), i)
    ensures Resolve(db, g, now) == ResolveInvitation(db, db.invitations[i], g, now)
  {
  }

  // An agent with any current accepted invitation is resolved by the latest one,
  // whatever administrative or founder rows there are.
  lemma LatestDecides(db: Db, g: Id, now: Time)
    requires exists i :: i in CommercialInvitations(db, g)
    ensures exists i :: IsLatest(db, CommercialInvitations(db, g), i)
    ensures forall i :: IsLatest(db, CommercialInvitations(db, g), i) ==>
        Resolve(db, g, now) == ResolveInvitation(db, db.invitations[i], g, now)
  {
    LatestExists(db, CommercialInvitations(db, g));
    forall i | IsLatest(db, CommercialInvitations(db, g), i)
      ensures Resolve(db, g, now) == ResolveInvitation(db, db.invitations[i], g, now)
    {
      LatestResolves(db, g, i, now);
    }
  }

  // ---------- access is always backed by a plan ----------

  // A plan row that is current at `now` and says what the resolution says.
  ghost predicate Backs(db: Db, s: Id, r: Resolution, now: Time) {
    && s in db.subscriptions && r.subscription == Some(db.subscriptions[s]) && WithinPeriod(db.subscriptions[s], now)
    && (r.state == Paid <==> db.subscriptions[s].status == Active)
    && (r.state == Trial <==> db.subscriptions[s].status == Trialing)
  }

  lemma InvitationIsBacked(db: Db, inv: Invitation, g: Id, now: Time)
    requires ResolveInvitation(db, inv, g, now).HasAccess()
    ensures exists s ::
        s in SubjectRows(db, InvitationSubject(db, inv, g)) && Backs(db, s, ResolveInvitation(db, inv, g, now), now)
  {
    var rows := SubjectRows(db, InvitationSubject(db, inv, g));
    var list := Take25(NewestFirst(db, rows));
    assert forall s :: s in list ==> s in NewestFirst(db, rows);
    var paid, trial := FindFirst(db, list, Active, now), FindFirst(db, list, Trialing, now);
    var s := if paid.Some? then paid.value else trial.value;
    assert s in rows && Backs(db, s, ResolveInvitation(db, inv, g, now), now);
  }

  lemma FounderIsBacked(db: Db, f: Founder, g: Id, now: Time)
    requires ResolveFounder(db, f, g, now).HasAccess()
    ensures exists s :: s in FounderRows(db, f, g) && Backs(db, s, ResolveFounder(db, f, g, now), now)
    ensures ResolveFounder(db, f, g, now).state == Trial ==> WithinFounderTrial(f, now)
  {
    var rows := FounderRows(db, f, g);
    var list := Take25(NewestFirst(db, rows));
    assert forall s :: s in list ==> s in NewestFirst(db, rows);
    var paid, trial := FindFirst(db, list, Active, now), FindFirst(db, list, Trialing, now);
    var s := if paid.Some? then paid.value else trial.value;
    assert s in rows && Backs(db, s, ResolveFounder(db, f, g, now), now);
  }

  // An administrative hold blocks a trial but not a paid plan.
  lemma ProvisioningIsBacked(db: Db, p: Provisioned, g: Id, now: Time)
    requires p.subscriptionId in db.subscriptions
    ensures
      var r, sub := ResolveProvisioned(db, p, g, now), db.subscriptions[p.subscriptionId];
      var unblocked := sub.status == Active || (sub.status == Trialing && p.paymentRequiredAt.None?);
      && (r.HasAccess() ==> ProvisionedFor(db, sub, g) && Backs(db, p.subscriptionId, r, now))
      && (r.HasAccess() <==> ProvisionedFor(db, sub, g) && WithinPeriod(sub, now) && unblocked)
  {
  }

  // Whoever is not a grandfathered account has access only through a plan row that
  // is current at that very instant.
  lemma AccessIsBacked(db: Db, g: Id, now: Time)
    requires Resolve(db, g, now).HasAccess() && Resolve(db, g, now).source != FromLegacy
    ensures exists s :: Backs(db, s, Resolve(db, g, now), now)
  {
    var rows := CommercialInvitations(db, g);
    if i0 :| IsLatest(db, rows, i0) {
      var i :| IsLatest(db, rows, i) && Resolve(db, g, now) == ResolveInvitation(db, db.invitations[i], g, now);
      InvitationIsBacked(db, db.invitations[i], g, now);
    } else if g in db.provisioned && db.provisioned[g].subscriptionId in db.subscriptions {
      ProvisioningIsBacked(db, db.provisioned[g], g, now);
    } else {
      FounderIsBacked(db, db.founders[g], g, now);
    }
  }
}
