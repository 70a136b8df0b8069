/** An acceptance leaves everybody else's commercial access and capabilities as they were. */
module FinalizationOthers {
  import opened Wrappers
  import opened Hierarchy
  import opened ParentGraph
  import opened Tables
  import opened Finalization
  import opened FinalizationStore
  import opened FinalizationInvariant
  import opened FinalizationRuns
  import opened FounderAccess
  import Agent = AgentAccess

  // ---------- the resolvers depend on the fetched rows only ----------

  ghost predicate SamePlanRows(db: Db, after: Db, rows: set<Id>) {
    && rows <= db.subscriptions.Keys && rows <= after.subscriptions.Keys
    && forall s :: s in rows ==> after.subscriptions[s] == db.subscriptions[s]
  }

  lemma SameHead(db: Db, after: Db, rows: set<Id>, s: Id)
    requires SamePlanRows(db, after, rows) && s in rows
    ensures NewestFirst(db, rows) != [] && NewestFirst(after, rows) != []
    ensures NewestFirst(after, rows)[0] == NewestFirst(db, rows)[0] && NewestFirst(db, rows)[0] in rows
  {
    HeadIsNewest(db, rows, s);
    HeadIsNewest(after, rows, s);
    HeadIsNewest(db, rows, NewestFirst(after, rows)[0]);
    HeadIsNewest(after, rows, NewestFirst(db, rows)[0]);
  }

  lemma {:induction false} SameNewestFirst(db: Db, after: Db, rows: set<Id>)
    requires SamePlanRows(db, after, rows)
    ensures NewestFirst(after, rows) == NewestFirst(db, rows)
    decreases rows
  {
    if s :| s in rows {
      var newest := NewestFirst(db, rows)[0];
      SameHead(db, after, rows, s);
      SameNewestFirst(db, after, rows - {newest});
      HeadIsNewest(db, rows, s);
      HeadIsNewest(after, rows, s);
      assert NewestFirst(db, rows) == [newest] + NewestFirst(db, rows)[1..];
      assert NewestFirst(after, rows) == [newest] + NewestFirst(after, rows)[1..];
    }
  }

  lemma {:induction false} SameFindFirst(db: Db, after: Db, list: seq<Id>, status: Status, now: Time)
    requires Fetched(db, list) && Fetched(after, list)
    requires forall i :: 0 <= i < |list| ==> after.subscriptions[list[i]] == db.subscriptions[list[i]]
    ensures FindFirst(after, list, status, now) == FindFirst(db, list, status, now)
    ensures Agent.FirstEntitling(after, list, now) == Agent.FirstEntitling(db, list, now)
  {
    if list != [] {
      SameFindFirst(db, after, list[1..], status, now);
    }
  }

  lemma SameQuery(db: Db, after: Db, rows: set<Id>, now: Time)
    requires SamePlanRows(db, after, rows)
    ensures
      var list := Take25(NewestFirst(db, rows));
      && Take25(NewestFirst(after, rows)) == list && Fetched(db, list) && Fetched(after, list)
      && FindFirst(after, list, Active, now) == FindFirst(db, list, Active, now)
      && FindFirst(after, list, Trialing, now) == FindFirst(db, list, Trialing, now)
      && (forall i :: 0 <= i < |list| ==> after.subscriptions[list[i]] == db.subscriptions[list[i]])
    ensures Agent.SelectSubscription(after, NewestFirst(after, rows), now)
        == Agent.SelectSubscription(db, NewestFirst(db, rows), now)
  {
    SameNewestFirst(db, after, rows);
    var all := NewestFirst(db, rows);
    forall i | 0 <= i < |all|
      ensures after.subscriptions[all[i]] == db.subscriptions[all[i]]
    {
      var s: Id := all[i];
      assert s in all && s in rows;
    }
    SameFindFirst(db, after, all, Active, now);
    SameFindFirst(db, after, Take25(all), Active, now);
    SameFindFirst(db, after, Take25(all), Trialing, now);
  }

  // ---------- what an acceptance leaves alone ----------

  predicate HasMembership(memberships: map<Id, Membership>, m: Id, h: Id) {
    m in memberships && memberships[m].agentId == h
  }

  lemma OtherMembership(db: Db, input: Input, now: Time, ids: NewRows, d: Decision, h: Id, m: Id)
    requires Unused(db, ids) && Facts(db, input, ids, d) && h != d.subject.agentId
    ensures
      var after := MembershipsAfter(db, now, ids, db.invitations[input.invitationId], d);
      && (HasMembership(after, m, h) <==> HasMembership(db.memberships, m, h))
      && (HasMembership(after, m, h) ==> after[m] == db.memberships[m])
  {
  }

  // A plan row that changed was, and stays, the invited agent's.
  ghost predicate PlanOf(db: Db, sub: Subscription, g: Id) {
    || (sub.plan == IndividualPlan && sub.agentId == Some(g))
    || (sub.plan == AgencyPlan && sub.agencyId.Some? && IsOwner(db, sub.agencyId.value, g))
    || (sub.plan == MemberPlan && sub.membershipId.Some? && sub.membershipId.value in db.memberships
        && db.memberships[sub.membershipId.value].agentId == g)
  }

  lemma ReparentedOwns(db: Db, input: Input, ids: NewRows, d: Decision)
    requires Facts(db, input, ids, d) && d.branch.Reparent?
    ensures IsOwner(db, db.memberships[d.branch.membershipId].agencyId, d.subject.agentId)
  {
    assert d.branch.membershipId in ActiveMemberships(db, d.subject.agentId);
  }

  // Why a plan row changes: it stops, or it is the agency plan that is renewed.
  lemma ChangedPlans(db: Db, input: Input, ids: NewRows, d: Decision, a: Id, m: Id, s: Id)
    requires ids.subscription !in db.subscriptions && s in db.subscriptions
    requires SubscriptionsAfter(db, input, ids, d, a, m)[s] != db.subscriptions[s]
    ensures Stops(d, s, db.subscriptions[s]) || s in LiveAgencyPlans(db, a)
  {
  }

  lemma ChangedPlansAreTheSubjects(db: Db, input: Input, now: Time, ids: NewRows, d: Decision, s: Id)
    requires Linked(db) && Unused(db, ids) && Facts(db, input, ids, d)
    requires s in db.subscriptions && After(db, input, now, ids, d).subscriptions[s] != db.subscriptions[s]
    ensures PlanOf(db, db.subscriptions[s], d.subject.agentId)
  {
    var a := AcceptedAgency(db, ids, db.invitations[input.invitationId], d.branch);
    ChangedPlans(db, input, ids, d, a, AcceptedMembership(ids, d.branch), s);
    if d.branch.Reparent? {
      ReparentedOwns(db, input, ids, d);
    } else if d.branch.Promote? {
      assert d.branch.membershipId in ActiveMemberships(db, d.subject.agentId);
    }
  }

  lemma AddedPlanIsTheSubjects(db: Db, input: Input, now: Time, ids: NewRows, d: Decision, s: Id)
    requires Linked(db) && Unused(db, ids) && Facts(db, input, ids, d)
    requires s in After(db, input, now, ids, d).subscriptions && s !in db.subscriptions
    ensures
      var after := After(db, input, now, ids, d);
      PlanOf(after, after.subscriptions[s], d.subject.agentId) && after.subscriptions[s].plan != IndividualPlan
  {
    var after, m := After(db, input, now, ids, d), AcceptedMembership(ids, d.branch);
    MembershipAfter(db, input, now, ids, d);
    assert m in ActiveMemberships(after, d.subject.agentId);
    assert input.plan == AgencyPlan ==> IsOwner(after, after.memberships[m].agencyId, d.subject.agentId);
  }

  lemma OneSubject(db: Db, sub: Subscription, g: Id, h: Id)
    requires OneOwner(db) && PlanOf(db, sub, g) && PlanOf(db, sub, h)
    ensures g == h
  {
  }

  lemma KeptPlanSubject(db: Db, input: Input, now: Time, ids: NewRows, d: Decision, h: Id, s: Id)
    requires Linked(db) && Unused(db, ids) && Facts(db, input, ids, d) && h != d.subject.agentId
    requires s in db.subscriptions
    ensures
      var after := After(db, input, now, ids, d);
      s in after.subscriptions && (PlanOf(after, after.subscriptions[s], h) ==> PlanOf(db, db.subscriptions[s], h))
  {
    var after, inv := After(db, input, now, ids, d), db.invitations[input.invitationId];
    SubscriptionSubjects(db, input, ids, d, AcceptedAgency(db, ids, inv, d.branch), AcceptedMembership(ids, d.branch),
      s);
    var row := db.subscriptions[s];
    if row.agencyId.Some? {
      OwnersAfter(db, input, now, ids, d, row.agencyId.value, h);
    }
    if row.membershipId.Some? {
      OtherMembership(db, input, now, ids, d, h, row.membershipId.value);
    }
  }

  // The plan rows of another agent are the same rows before and after.
  lemma OtherPlan(db: Db, input: Input, now: Time, ids: NewRows, d: Decision, h: Id, s: Id)
    requires Inv(db) && Unused(db, ids) && Facts(db, input, ids, d) && h != d.subject.agentId
    ensures
      var after := After(db, input, now, ids, d);
      && (s in db.subscriptions && PlanOf(db, db.subscriptions[s], h) ==>
        s in after.subscriptions && after.subscriptions[s] == db.subscriptions[s])
      && (s in after.subscriptions && PlanOf(after, after.subscriptions[s], h) ==>
        s in db.subscriptions && after.subscriptions[s] == db.subscriptions[s])
  {
    var after, g := After(db, input, now, ids, d), d.subject.agentId;
    if s in db.subscriptions {
      KeptPlanSubject(db, input, now, ids, d, h, s);
      if after.subscriptions[s] != db.subscriptions[s] {
        ChangedPlansAreTheSubjects(db, input, now, ids, d, s);
        if PlanOf(db, db.subscriptions[s], h) {
          OneSubject(db, db.subscriptions[s], g, h);
        }
      }
    } else if s in after.subscriptions {
      AddedPlanIsTheSubjects(db, input, now, ids, d, s);
      OneOwnerKept(db, input, now, ids, d);
      if PlanOf(after, after.subscriptions[s], h) {
        OneSubject(after, after.subscriptions[s], g, h);
      }
    }
  }

  // ---------- the frame ----------

  ghost predicate SameStructure(db: Db, after: Db, h: Id) {
    && (forall m :: HasMembership(after.memberships, m, h) <==> HasMembership(db.memberships, m, h))
    && (forall m :: HasMembership(db.memberships, m, h) ==> after.memberships[m] == db.memberships[m])
    && (forall a :: IsOwner(after, a, h) <==> IsOwner(db, a, h))
    && (forall a :: IsOwner(db, a, h) ==>
          a in db.agencies && a in after.agencies && after.agencies[a].parentAgencyId == db.agencies[a].parentAgencyId)
  }

  ghost predicate SamePlans(db: Db, after: Db, h: Id) {
    && (forall s :: s in db.subscriptions && PlanOf(db, db.subscriptions[s], h) ==>
          s in after.subscriptions && after.subscriptions[s] == db.subscriptions[s])
    && (forall s :: s in after.subscriptions && PlanOf(after, after.subscriptions[s], h) ==>
          s in db.subscriptions && after.subscriptions[s] == db.subscriptions[s])
  }

  ghost predicate SameInvitations(db: Db, after: Db, h: Id) {
    && CommercialInvitations(after, h) == CommercialInvitations(db, h)
    && forall i :: i in CommercialInvitations(db, h) ==>
      i in after.invitations && after.invitations[i] == db.invitations[i]
  }

  // Everything about h that the two resolvers read.
  ghost predicate Untouched(db: Db, after: Db, h: Id) {
    && SameStructure(db, after, h) && SamePlans(db, after, h) && SameInvitations(db, after, h)
    && after.provisioned == db.provisioned && db.subscriptions.Keys <= after.subscriptions.Keys
    && (h in after.founders <==> h in db.founders) && (h in db.founders ==> after.founders[h] == db.founders[h])
    && (AgentActive(after, h) <==> AgentActive(db, h))
  }

  lemma OtherAgency(db: Db, input: Input, now: Time, ids: NewRows, d: Decision, h: Id, a: Id)
    requires Inv(db) && Unused(db, ids) && Facts(db, input, ids, d) && h != d.subject.agentId
    ensures
      var after := After(db, input, now, ids, d);
      && (IsOwner(after, a, h) <==> IsOwner(db, a, h))
      && (IsOwner(db, a, h) ==>
        a in db.agencies && a in after.agencies && after.agencies[a].parentAgencyId == db.agencies[a].parentAgencyId)
  {
    var after := After(db, input, now, ids, d);
    OwnersAfter(db, input, now, ids, d, a, h);
    RowsOnlyAdded(db, input, now, ids, d);
    if IsOwner(db, a, h) && ParentOf(AgencyParents(after), a) != ParentOf(AgencyParents(db), a) {
      AttachedOwnerIsSubject(db, input, now, ids, d, a, h);
    }
  }

  lemma OtherStructure(db: Db, input: Input, now: Time, ids: NewRows, d: Decision, h: Id)
    requires Inv(db) && Unused(db, ids) && Facts(db, input, ids, d) && h != d.subject.agentId
    ensures SameStructure(db, After(db, input, now, ids, d), h)
  {
    forall m {
      OtherMembership(db, input, now, ids, d, h, m);
    }
    forall a {
      OtherAgency(db, input, now, ids, d, h, a);
    }
  }

  lemma OtherInvitation(db: Db, input: Input, now: Time, ids: NewRows, d: Decision, h: Id, i: Id)
    requires Facts(db, input, ids, d) && h != d.subject.agentId
    ensures
      var after := After(db, input, now, ids, d);
      i in CommercialInvitations(after, h) <==> i in CommercialInvitations(db, h)
    ensures
      var after := After(db, input, now, ids, d);
      i in CommercialInvitations(db, h) ==> i in after.invitations && after.invitations[i] == db.invitations[i]
  {
    if i in db.invitations {
      InvitationSubjects(db, input, now, d, AcceptedMembership(ids, d.branch), i);
    }
  }

  lemma OtherInvitations(db: Db, input: Input, now: Time, ids: NewRows, d: Decision, h: Id)
    requires Facts(db, input, ids, d) && h != d.subject.agentId
    ensures SameInvitations(db, After(db, input, now, ids, d), h)
  {
    forall i {
      OtherInvitation(db, input, now, ids, d, h, i);
    }
  }

  lemma OtherPlans(db: Db, input: Input, now: Time, ids: NewRows, d: Decision, h: Id)
    requires Inv(db) && Unused(db, ids) && Facts(db, input, ids, d) && h != d.subject.agentId
    ensures SamePlans(db, After(db, input, now, ids, d), h)
  {
    forall s {
      OtherPlan(db, input, now, ids, d, h, s);
    }
  }

  lemma OtherAccounts(db: Db, input: Input, now: Time, ids: NewRows, d: Decision, h: Id)
    requires Linked(db) && Facts(db, input, ids, d) && h != d.subject.agentId
    ensures
      var after := After(db, input, now, ids, d);
      && after.provisioned == db.provisioned && db.subscriptions.Keys <= after.subscriptions.Keys
      && (h in after.founders <==> h in db.founders) && (h in db.founders ==> after.founders[h] == db.founders[h])
      && (AgentActive(after, h) <==> AgentActive(db, h))
  {
    RowsOnlyAdded(db, input, now, ids, d);
  }

  lemma OthersUntouched(db: Db, input: Input, now: Time, ids: NewRows, d: Decision, h: Id)
    requires Inv(db) && Unused(db, ids) && Facts(db, input, ids, d) && h != d.subject.agentId
    ensures Untouched(db, After(db, input, now, ids, d), h)
  {
    OtherStructure(db, input, now, ids, d, h);
    OtherInvitations(db, input, now, ids, d, h);
    OtherPlans(db, input, now, ids, d, h);
    OtherAccounts(db, input, now, ids, d, h);
  }

  // ---------- commercial access ----------

  lemma SameMemberRows(db: Db, after: Db, h: Id, m: Id)
    requires SameStructure(db, after, h) && SamePlans(db, after, h) && HasMembership(db.memberships, m, h)
    ensures Agent.MemberRows(after, m) == Agent.MemberRows(db, m) && SamePlanRows(db, after, Agent.MemberRows(db, m))
  {
    assert HasMembership(after.memberships, m, h);
    forall s
      ensures s in Agent.MemberRows(after, m) <==> s in Agent.MemberRows(db, m)
    {
      assert s in Agent.MemberRows(db, m) ==> PlanOf(db, db.subscriptions[s], h);
      assert s in Agent.MemberRows(after, m) ==> PlanOf(after, after.subscriptions[s], h);
    }
  }

  lemma SameAgencyRows(db: Db, after: Db, h: Id, a: Id)
    requires SameStructure(db, after, h) && SamePlans(db, after, h) && IsOwner(db, a, h)
    ensures Agent.AgencyRows(after, a) == Agent.AgencyRows(db, a) && SamePlanRows(db, after, Agent.AgencyRows(db, a))
  {
    assert IsOwner(after, a, h);
    forall s
      ensures s in Agent.AgencyRows(after, a) <==> s in Agent.AgencyRows(db, a)
    {
      assert s in Agent.AgencyRows(db, a) ==> PlanOf(db, db.subscriptions[s], h);
      assert s in Agent.AgencyRows(after, a) ==> PlanOf(after, after.subscriptions[s], h);
    }
  }

  lemma SameIndividualRows(db: Db, after: Db, h: Id)
    requires SamePlans(db, after, h)
    ensures Agent.IndividualRows(after, h) == Agent.IndividualRows(db, h)
    ensures SamePlanRows(db, after, Agent.IndividualRows(db, h))
  {
    forall s
      ensures s in Agent.IndividualRows(after, h) <==> s in Agent.IndividualRows(db, h)
    {
      assert s in Agent.IndividualRows(db, h) ==> PlanOf(db, db.subscriptions[s], h);
      assert s in Agent.IndividualRows(after, h) ==> PlanOf(after, after.subscriptions[s], h);
    }
  }

  lemma SameSubject(db: Db, after: Db, h: Id, inv: Invitation)
    requires Linked(db) && SameStructure(db, after, h) && Points(inv.acceptedMembershipId, db.memberships)
    ensures InvitationSubject(after, inv, h) == InvitationSubject(db, inv, h)
    ensures
      match InvitationSubject(db, inv, h)
      case NoSubject => true
      case OfMembership(m) => HasMembership(db.memberships, m, h)
      case OfAgency(a) => IsOwner(db, a, h)
  {
    if inv.acceptedMembershipId.Some? {
      var m := inv.acceptedMembershipId.value;
      assert HasMembership(after.memberships, m, h) <==> HasMembership(db.memberships, m, h);
      if HasMembership(db.memberships, m, h) && db.memberships[m].role == Owner && db.memberships[m].endedAt.None? {
        assert IsOwner(db, db.memberships[m].agencyId, h);
      }
    }
  }

  lemma SameSubjectRows(db: Db, after: Db, h: Id, subject: SubjectPlan)
    requires SameStructure(db, after, h) && SamePlans(db, after, h)
    requires match subject
      case NoSubject => true
      case OfMembership(m) => HasMembership(db.memberships, m, h)
      case OfAgency(a) => IsOwner(db, a, h)
    ensures SubjectRows(after, subject) == SubjectRows(db, subject) && SamePlanRows(db, after, SubjectRows(db, subject))
  {
    match subject {
      case NoSubject =>
      case OfMembership(m) => SameMemberRows(db, after, h, m);
      case OfAgency(a) => SameAgencyRows(db, after, h, a);
    }
  }

  // The answer depends on the subject and its rows only.
  lemma SameAnswer(db: Db, after: Db, h: Id, inv: Invitation, t: Time)
    requires InvitationSubject(after, inv, h) == InvitationSubject(db, inv, h)
    requires SubjectRows(after, InvitationSubject(db, inv, h)) == SubjectRows(db, InvitationSubject(db, inv, h))
    requires SamePlanRows(db, after, SubjectRows(db, InvitationSubject(db, inv, h)))
    ensures ResolveInvitation(after, inv, h, t) == ResolveInvitation(db, inv, h, t)
  {
    SameQuery(db, after, SubjectRows(db, InvitationSubject(db, inv, h)), t);
  }

  lemma SameInvitationAccess(db: Db, after: Db, h: Id, inv: Invitation, t: Time)
    requires Linked(db) && SameStructure(db, after, h) && SamePlans(db, after, h)
    requires Points(inv.acceptedMembershipId, db.memberships)
    ensures ResolveInvitation(after, inv, h, t) == ResolveInvitation(db, inv, h, t)
  {
    SameSubject(db, after, h, inv);
    SameSubjectRows(db, after, h, InvitationSubject(db, inv, h));
    SameAnswer(db, after, h, inv, t);
  }

  lemma SameFounderRows(db: Db, after: Db, h: Id, f: Founder)
    requires SameStructure(db, after, h) && SamePlans(db, after, h)
    requires f.isAgencyAccount == f.agencyId.Some? && (f.agencyId.Some? ==> IsOwner(db, f.agencyId.value, h))
    ensures FounderRows(after, f, h) == FounderRows(db, f, h) && SamePlanRows(db, after, FounderRows(db, f, h))
  {
    if f.isAgencyAccount {
      SameAgencyRows(db, after, h, f.agencyId.value);
      assert FounderRows(after, f, h) == Agent.AgencyRows(after, f.agencyId.value);
      assert FounderRows(db, f, h) == Agent.AgencyRows(db, f.agencyId.value);
    } else {
      SameIndividualRows(db, after, h);
      assert FounderRows(after, f, h) == Agent.IndividualRows(after, h);
      assert FounderRows(db, f, h) == Agent.IndividualRows(db, h);
    }
  }

  lemma SameFounderAnswer(db: Db, after: Db, h: Id, f: Founder, t: Time)
    requires FounderRows(after, f, h) == FounderRows(db, f, h) && SamePlanRows(db, after, FounderRows(db, f, h))
    ensures ResolveFounder(after, f, h, t) == ResolveFounder(db, f, h, t)
  {
    SameQuery(db, after, FounderRows(db, f, h), t);
  }

  lemma SameFounderAccess(db: Db, after: Db, h: Id, t: Time)
    requires Untouched(db, after, h) && FoundersOwn(db) && h in db.founders
    ensures ResolveFounder(after, db.founders[h], h, t) == ResolveFounder(db, db.founders[h], h, t)
  {
    var f := db.founders[h];
    if f.isAgencyAccount == f.agencyId.Some? {
      SameFounderRows(db, after, h, f);
      SameFounderAnswer(db, after, h, f, t);
    }
  }

  // A provisioned plan that is somebody else's resolves to LAPSED before and after.
  lemma SameProvisionedAccess(db: Db, after: Db, h: Id, p: Provisioned, t: Time)
    requires SameStructure(db, after, h) && SamePlans(db, after, h)
    requires p.subscriptionId in db.subscriptions && p.subscriptionId in after.subscriptions
    ensures ResolveProvisioned(after, p, h, t).state == ResolveProvisioned(db, p, h, t).state
  {
    var row, now := db.subscriptions[p.subscriptionId], after.subscriptions[p.subscriptionId];
    if ProvisionedFor(db, row, h) || ProvisionedFor(after, now, h) {
      assert PlanOf(db, row, h) || PlanOf(after, now, h);
      assert row == now;
      if row.membershipId.Some? {
        assert HasMembership(after.memberships, row.membershipId.value, h)
          <==> HasMembership(db.memberships, row.membershipId.value, h);
      }
    }
  }

  lemma SameLatest(db: Db, after: Db, h: Id, i: Id)
    requires SameInvitations(db, after, h)
    ensures
      var rows := CommercialInvitations(db, h);
      && rows <= db.invitations.Keys && rows <= after.invitations.Keys
      && (IsLatest(after, rows, i) <==> IsLatest(db, rows, i))
  {
  }

  lemma SameAccess(db: Db, after: Db, h: Id, t: Time)
    requires Linked(db) && FoundersOwn(db) && Untouched(db, after, h)
    ensures Resolve(after, h, t).state == Resolve(db, h, t).state
    ensures Resolve(after, h, t).source == Resolve(db, h, t).source
  {
    var rows := CommercialInvitations(db, h);
    forall i {
      SameLatest(db, after, h, i);
    }
    if i :| IsLatest(db, rows, i) {
      LatestResolves(db, h, i, t);
      LatestResolves(after, h, i, t);
      SameInvitationAccess(db, after, h, db.invitations[i], t);
    } else if h in db.provisioned {
      SameProvisionedAccess(db, after, h, db.provisioned[h], t);
    } else if h in db.founders {
      SameFounderAccess(db, after, h, t);
    }
  }

  // Nobody but the invited agent sees a different access state or source, at any instant.
  lemma OthersKeepAccess(db: Db, input: Input, now: Time, ids: NewRows, d: Decision, after: Db, s: Id, h: Id, t: Time)
    requires Good(db) && Unused(db, ids) && Accepts(db, input, now, ids, d, after, s) && h != d.subject.agentId
    ensures Resolve(after, h, t).state == Resolve(db, h, t).state
    ensures Resolve(after, h, t).source == Resolve(db, h, t).source
  {
    AcceptsFacts(db, input, now, ids, d, after, s);
    OthersUntouched(db, input, now, ids, d, h);
    SameAccess(db, after, h, t);
  }

  // ---------- capabilities ----------

  predicate EntitledAs(db: Db, m: Id, agencyId: Id, x: Id, t: Time) {
    HasMembership(db.memberships, m, x) && Agent.MemberEntitled(db, m, agencyId, t)
  }

  lemma EntitledMembersAre(db: Db, agencyId: Id, t: Time, x: Id)
    ensures x in Agent.EntitledMembers(db, agencyId, t) <==> exists m :: EntitledAs(db, m, agencyId, x, t)
  {
    if x in Agent.EntitledMembers(db, agencyId, t) {
      var m :| m in db.memberships && Agent.MemberEntitled(db, m, agencyId, t) && db.memberships[m].agentId == x;
      assert EntitledAs(db, m, agencyId, x, t);
    }
    if m :| EntitledAs(db, m, agencyId, x, t) {
      assert db.memberships[m].agentId == x;
    }
  }

  lemma SameEntitledMember(db: Db, after: Db, m: Id, agencyId: Id, x: Id, t: Time)
    requires Untouched(db, after, x)
    ensures EntitledAs(after, m, agencyId, x, t) <==> EntitledAs(db, m, agencyId, x, t)
  {
  }

  // Entitlement of a member depends on the member's own rows.
  lemma SameColleague(db: Db, after: Db, agencyId: Id, t: Time, x: Id)
    requires Untouched(db, after, x)
    ensures x in Agent.EntitledMembers(after, agencyId, t) <==> x in Agent.EntitledMembers(db, agencyId, t)
  {
    EntitledMembersAre(db, agencyId, t, x);
    EntitledMembersAre(after, agencyId, t, x);
    forall m {
      SameEntitledMember(db, after, m, agencyId, x, t);
    }
  }

  lemma SameMemberships(db: Db, after: Db, h: Id, m: Id)
    requires SameStructure(db, after, h)
    ensures ActiveMemberships(after, h) == ActiveMemberships(db, h)
    ensures m in ActiveMemberships(db, h) ==> after.memberships[m] == db.memberships[m]
    ensures Agent.IsNewestMembership(after, h, m) <==> Agent.IsNewestMembership(db, h, m)
  {
    forall n
      ensures n in ActiveMemberships(after, h) <==> n in ActiveMemberships(db, h)
      ensures n in ActiveMemberships(db, h) ==> after.memberships[n] == db.memberships[n]
    {
      assert HasMembership(after.memberships, n, h) <==> HasMembership(db.memberships, n, h);
    }
  }

  // The same access, except that the boundary may differ in g.
  predicate SameBut(a: Agent.Access, b: Agent.Access, g: Id) {
    b == a.(scope := b.scope) && b.scope - {g} == a.scope - {g}
  }

  lemma SameGrant(db: Db, after: Db, g: Id, h: Id, m: Id, t: Time)
    requires forall x :: x != g ==> Untouched(db, after, x)
    requires h != g && m in ActiveMemberships(db, h) && m in after.memberships
    requires after.memberships[m] == db.memberships[m]
    ensures SameBut(Agent.Granted(db, h, m, t), Agent.Granted(after, h, m, t), g)
  {
    var agencyId := db.memberships[m].agencyId;
    assert Untouched(db, after, h);
    if db.memberships[m].role == Member {
      SameMemberRows(db, after, h, m);
      SameQuery(db, after, Agent.MemberRows(db, m), t);
    } else {
      assert IsOwner(db, agencyId, h);
      SameAgencyRows(db, after, h, agencyId);
      SameQuery(db, after, Agent.AgencyRows(db, agencyId), t);
      forall x | x != g
        ensures x in Agent.EntitledMembers(after, agencyId, t) <==> x in Agent.EntitledMembers(db, agencyId, t)
      {
        SameColleague(db, after, agencyId, t, x);
      }
    }
  }

  lemma SameCapabilities(db: Db, after: Db, g: Id, h: Id, t: Time)
    requires forall x :: x != g ==> Untouched(db, after, x)
    requires h != g
    ensures SameBut(Agent.Resolve(db, h, t), Agent.Resolve(after, h, t), g)
  {
    assert Untouched(db, after, h);
    forall m {
      SameMemberships(db, after, h, m);
    }
    if AgentActive(db, h) {
      if m :| Agent.IsNewestMembership(db, h, m) {
        Agent.NewestMembershipGrants(db, h, m, t);
        Agent.NewestMembershipGrants(after, h, m, t);
        SameGrant(db, after, g, h, m, t);
      } else {
        SameIndividualRows(db, after, h);
        SameQuery(db, after, Agent.IndividualRows(db, h), t);
      }
    }
  }

  // Only an owner's boundary can change, and only by the invited agent coming or going.
  lemma OthersKeepCapabilities(db: Db, input: Input, now: Time, ids: NewRows, d: Decision, after: Db, s: Id, h: Id,
                               t: Time)
    requires Good(db) && Unused(db, ids) && Accepts(db, input, now, ids, d, after, s) && h != d.subject.agentId
    ensures SameBut(Agent.Resolve(db, h, t), Agent.Resolve(after, h, t), d.subject.agentId)
  {
    AcceptsFacts(db, input, now, ids, d, after, s);
    forall x | x != d.subject.agentId {
      OthersUntouched(db, input, now, ids, d, x);
    }
    SameCapabilities(db, after, d.subject.agentId, h, t);
  }

  // Nobody ever sees the data of an agent who is not at or below them.
  lemma BoundaryIsBelow(db: Db, h: Id, t: Time, x: Id)
    requires Inv(db) && x in Agent.Resolve(db, h, t).scope
    ensures AtOrAbove(Parents(db), h, x)
  {
    assert UpN(Parents(db), h, 0) == Some(h);
    if m :| Agent.IsNewestMembership(db, h, m) {
      if AgentActive(db, h) && x != h {
        Agent.NewestMembershipGrants(db, h, m, t);
        var agencyId := db.memberships[m].agencyId;
        EntitledMembersAre(db, agencyId, t, x);
        var n :| EntitledAs(db, n, agencyId, x, t);
        assert ActiveAs(db, n, agencyId, x) && IsOwner(db, agencyId, h);
      }
    }
  }
}
