/**
 The finalization transaction as the server runs it: reads, checks, and one write
 after another on a private copy of the tables, committed at the end or dropped.
 */
module FinalizationStore {
  import opened Wrappers
  import opened Hierarchy
  import opened Text
  import opened Tables
  import opened Finalization

  // Identifiers handed out by the database are new.
  ghost predicate Unused(db: Db, ids: NewRows) {
    && ids.user !in db.users && ids.agent !in db.agents && ids.membership !in db.memberships
    && ids.agency !in db.agencies && ids.subscription !in db.subscriptions
  }

  // `findMany({ select: { id, parentAgentId } })`: every agent row once, in some order.
  method HierarchyRows(db: Db) returns (rows: seq<AgentNode>)
    ensures UniqueIds(rows) && ParentMap(rows) == Parents(db)
  {
    rows := [];
    var rest := db.agents.Keys;
    while rest != {}
      invariant rest <= db.agents.Keys && UniqueIds(rows)
      invariant ParentMap(rows) == map a | a in db.agents && a !in rest :: db.agents[a].parentAgentId
      invariant forall i :: 0 <= i < |rows| ==> rows[i].id !in rest
      decreases rest
    {
      var next := First(rest);
      var a := next.value;
      var longer := rows + [AgentNode(a, db.agents[a].parentAgentId)];
      assert longer[..|longer| - 1] == rows;
      rows, rest := longer, rest - {a};
    }
  }

  // The cycle guard: the downline listing contains the inviter exactly when the
  // inviter is below the invited agent.
  method InviterIsBelow(db: Db, agentId: Id, inviter: Id) returns (below: bool)
    ensures below <==> IsBelow(db, agentId, inviter)
  {
    var rows := HierarchyRows(db);
    var downline := GetDownlineIds(rows, agentId);
    below := inviter in downline;
    DownlineIsShortestPaths(rows, agentId);
    var entries := Downline(rows, agentId);
    if below {
      var i :| 0 <= i < |downline| && downline[i] == inviter;
      assert entries[i] in entries;
      ReachIsClimb(rows, agentId, inviter, entries[i].level);
    }
    if IsBelow(db, agentId, inviter) {
      ghost var n: nat :| n >= 1 && UpN(Parents(db), inviter, n) == Some(agentId);
      ReachIsClimb(rows, agentId, inviter, n);
      ghost var e :| e in entries && e.id == inviter;
      ghost var i :| 0 <= i < |entries| && entries[i] == e;
      assert downline[i] == inviter;
    }
  }

  // What the checks establish about the rows the writes touch.
  ghost predicate Grounded(db: Db, input: Input, ids: NewRows, d: Decision) {
    && input.invitationId in db.invitations && db.invitations[input.invitationId].status == Pending
    && (if d.subject.created then d.subject.agentId == ids.agent else d.subject.agentId in db.agents)
    && (d.branch.Promote? ==>
          && d.branch.membershipId in db.memberships
          && d.branch.memberSubscriptionId in db.subscriptions
          && LiveMemberPlan(db.subscriptions[d.branch.memberSubscriptionId], d.branch.membershipId)
          && d.branch.previousInvitationId in db.invitations
          && db.invitations[d.branch.previousInvitationId].status == Accepted)
    && (d.branch.Reparent? ==>
      d.branch.membershipId in db.memberships && db.memberships[d.branch.membershipId].agencyId in db.agencies)
  }

  lemma SubjectGrounded(db: Db, input: Input, ids: NewRows, inviter: Id, s: Subject)
    requires ResolveSubject(db, input, ids, inviter) == Ok(s)
    ensures if s.created then s.agentId == ids.agent else s.agentId in db.agents
    ensures forall m :: m in s.memberships ==> m in db.memberships
  {
  }

  lemma BranchGrounded(db: Db, input: Input, inv: Invitation, role: Role, s: Subject, b: Branch)
    requires Linked(db) && (forall m :: m in s.memberships ==> m in db.memberships)
    requires ChooseBranch(db, input, inv, role, s) == Ok(b)
    ensures b.Promote? ==>
      && b.membershipId in db.memberships
      && b.memberSubscriptionId in LiveMemberPlans(db, b.membershipId)
      && b.previousInvitationId in PreviousInvitations(db, inv, s.agentId, b.membershipId)
    ensures b.Reparent? ==> b.membershipId in db.memberships && db.memberships[b.membershipId].agencyId in db.agencies
  {
  }

  lemma DecisionGrounded(db: Db, input: Input, now: Time, ids: NewRows, reservation: Reservation)
    requires Linked(db)
    requires DecideBeforeClaim(db, input, now, ids, reservation).Ok?
    ensures Grounded(db, input, ids, DecideBeforeClaim(db, input, now, ids, reservation).value)
  {
    var d := DecideBeforeClaim(db, input, now, ids, reservation).value;
    var inv := db.invitations[input.invitationId];
    SubjectGrounded(db, input, ids, inv.invitedByAgentId, d.subject);
    BranchGrounded(db, input, inv, d.inviterRole, d.subject, d.branch);
  }

  // Stopping member and individual plans does not change which agency plan is live.
  lemma ReusedAfterStops(db: Db, stopped: Db, input: Input, agencyId: Id)
    requires stopped.subscriptions.Keys == db.subscriptions.Keys
    requires forall s :: s in db.subscriptions ==>
      || stopped.subscriptions[s] == db.subscriptions[s]
      || (db.subscriptions[s].plan != AgencyPlan
        && stopped.subscriptions[s] == db.subscriptions[s].(status := Canceled))
    ensures ReusedPlan(stopped, input, agencyId) == ReusedPlan(db, input, agencyId)
  {
    forall s
      ensures s in LiveAgencyPlans(stopped, agencyId) <==> s in LiveAgencyPlans(db, agencyId)
    {
    }
    assert LiveAgencyPlans(stopped, agencyId) == LiveAgencyPlans(db, agencyId);
  }

  // One database transaction: each method is one write of the source.
  class Transaction {
    var db: Db

    constructor (start: Db)
      ensures db == start
    {
      db := start;
    }

    method CreateAccount(input: Input, ids: NewRows, inviter: Id)
      modifies this
      ensures db == old(db).(users :=
          old(db).users[ids.user := User(Normalize(input.invitedEmail), true, Some(ids.agent))],
                             agents := old(db).agents[ids.agent := NewAgent(input, inviter)])
    {
      db := db.(users := db.users[ids.user := User(Normalize(input.invitedEmail), true, Some(ids.agent))]);
      db := db.(agents := db.agents[ids.agent := NewAgent(input, inviter)]);
    }

    method AddMembership(id: Id, row: Membership)
      modifies this
      ensures db == old(db).(memberships := old(db).memberships[id := row])
    {
      db := db.(memberships := db.memberships[id := row]);
    }

    method EndMembership(id: Id, now: Time)
      requires id in db.memberships
      modifies this
      ensures db == old(db).(memberships := old(db).memberships[id := old(db).memberships[id].(endedAt := Some(now))])
    {
      db := db.(memberships := db.memberships[id := db.memberships[id].(endedAt := Some(now))]);
    }

    method AddAgency(id: Id, row: Agency)
      modifies this
      ensures db == old(db).(agencies := old(db).agencies[id := row])
    {
      db := db.(agencies := db.agencies[id := row]);
    }

    method AttachAgency(id: Id, parent: Id)
      requires id in db.agencies
      modifies this
      ensures db == old(db).(agencies := old(db).agencies[id := old(db).agencies[id].(parentAgencyId := Some(parent))])
    {
      db := db.(agencies := db.agencies[id := db.agencies[id].(parentAgencyId := Some(parent))]);
    }

    method AttachAgent(id: Id, inviter: Id, plan: InvitedPlan)
      requires id in db.agents
      modifies this
      ensures db == old(db).(agents := old(db).agents[id := old(db).agents[id].(
        parentAgentId := Some(inviter), ownerRank := old(db).agents[id].ownerRank
          || plan == AgencyPlan, agencyScope := plan == AgencyPlan)])
    {
      var row := db.agents[id].(parentAgentId := Some(inviter), agencyScope := plan == AgencyPlan);
      if plan == AgencyPlan {
        row := row.(ownerRank := true);
      }
      db := db.(agents := db.agents[id := row]);
    }

    method CancelPlan(id: Id)
      requires id in db.subscriptions
      modifies this
      ensures db == old(db).(subscriptions :=
          old(db).subscriptions[id := old(db).subscriptions[id].(status := Canceled)])
    {
      db := db.(subscriptions := db.subscriptions[id := db.subscriptions[id].(status := Canceled)]);
    }

    // `updateMany` over the agent's live individual plans.
    method CancelIndividualPlans(agentId: Id)
      modifies this
      ensures db == old(db).(subscriptions := map s | s in old(db).subscriptions ::
        if LiveIndividualPlan(old(db).subscriptions[s], agentId) then old(db).subscriptions[s].(status := Canceled)
          else old(db).subscriptions[s])
    {
      db := db.(subscriptions := map s | s in db.subscriptions ::
        if LiveIndividualPlan(db.subscriptions[s], agentId) then db.subscriptions[s].(status := Canceled)
          else db.subscriptions[s]);
    }

    method PutSubscription(id: Id, row: Subscription)
      modifies this
      ensures db == old(db).(subscriptions := old(db).subscriptions[id := row])
    {
      db := db.(subscriptions := db.subscriptions[id := row]);
    }

    // Clears the flag on the agent's former invitations, then claims this one if it
    // is still pending and unexpired and the unique index on the membership allows it.
    method ClaimInvitation(input: Input, now: Time, d: Decision, membershipId: Id) returns (refused: Option<Error>)
      requires input.invitationId in db.invitations
      modifies this
      ensures refused == ClaimError(old(db), input, now, membershipId)
      ensures refused.None? ==> db == old(db).(invitations := map i | i in old(db).invitations ::
        var row := Superseded(old(db).invitations[i], d.subject.agentId);
        if i == input.invitationId then AcceptedInvitation(old(db), input, now, row, d, membershipId) else row)
    {
      var g := d.subject.agentId;
      var cleared := map i | i in db.invitations :: Superseded(db.invitations[i], g);
      var row := cleared[input.invitationId];
      if row.status != Pending || row.expiresAt <= now {
        refused := Some(AlreadyUsed);
      } else if IsTaken(db, input.invitationId, membershipId) {
        refused := Some(MembershipTaken);
      } else {
        refused := None;
        db := db.(invitations :=
          cleared[input.invitationId := AcceptedInvitation(db, input, now, row, d, membershipId)]);
      }
    }

    method PauseHistory(id: Id, now: Time)
      requires id in db.invitations
      modifies this
      ensures db == old(db).(invitations :=
          old(db).invitations[id := old(db).invitations[id].(stage := Paused, stageUpdatedAt := now)])
    {
      db := db.(invitations := db.invitations[id := db.invitations[id].(stage := Paused, stageUpdatedAt := now)]);
    }

    method StartOnboarding(agentId: Id)
      modifies this
      ensures db == old(db).(onboardingInProgress := old(db).onboardingInProgress[agentId := true])
    {
      db := db.(onboardingInProgress := db.onboardingInProgress[agentId := true]);
    }

    method MoveFounder(agentId: Id, agencyId: Id)
      requires agentId in db.founders
      modifies this
      ensures db == old(db).(founders := old(db).founders[agentId :=
        old(db).founders[agentId].(isAgencyAccount := true, agencyId := Some(agencyId))])
    {
      db := db.(founders :=
        db.founders[agentId := db.founders[agentId].(isAgencyAccount := true, agencyId := Some(agencyId))]);
    }

    method FinalizeCheckout(input: Input, userId: Id, subscriptionId: Id)
      modifies this
      ensures db == old(db).(checkouts := CheckoutsAfter(old(db), input, userId, subscriptionId))
    {
      if input.checkoutId.Some? && input.checkoutId.value in db.checkouts {
        var row := db.checkouts[input.checkoutId.value].(finalized := true, userId := Some(userId));
        row := row.(stripeId := input.provider.stripeId, platformSubscriptionId := Some(subscriptionId));
        db := db.(checkouts := db.checkouts[input.checkoutId.value := row]);
      }
    }

    // The structural branch; afterwards the membership and agency tables are final.
    method Attach(start: Db, input: Input, now: Time, ids: NewRows, inv: Invitation, d: Decision)
      requires db.memberships == start.memberships && db.agencies == start.agencies
      requires db.subscriptions == start.subscriptions
      requires d.branch.Promote? ==>
          d.branch.membershipId in db.memberships && d.branch.memberSubscriptionId in db.subscriptions
      requires d.branch.Reparent? ==>
          d.branch.membershipId in db.memberships && db.memberships[d.branch.membershipId].agencyId in db.agencies
      modifies this
      ensures db == old(db).(
        memberships := MembershipsAfter(start, now, ids, inv, d),
        agencies := AgenciesAfter(start, input, ids, inv, d),
        subscriptions := if d.branch.Promote? then start.subscriptions[d.branch.memberSubscriptionId :=
          start.subscriptions[d.branch.memberSubscriptionId].(status := Canceled)] else start.subscriptions)
    {
      var name := if input.agencyName.Some? then input.agencyName.value else "";
      var member := Membership(inv.agencyId, d.subject.agentId, Member, Some(inv.invitedByAgentId), ids.at, None);
      match d.branch {
        case Join =>
          AddMembership(ids.membership, member);
        case Promote(m, _, plan) =>
          CancelPlan(plan);
          EndMembership(m, now);
          AddAgency(ids.agency, Agency(name, Some(inv.agencyId)));
          AddMembership(ids.membership, member.(agencyId := ids.agency, role := Owner));
        case Reparent(m) =>
          AttachAgency(db.memberships[m].agencyId, inv.agencyId);
        case Found =>
          AddAgency(ids.agency, Agency(name, Some(inv.agencyId)));
          AddMembership(ids.membership, member.(agencyId := ids.agency, role := Owner));
      }
    }

    // Account first, hierarchy edge last, as in the source; the branch sits between them.
    method OpenAccount(input: Input, ids: NewRows, inviter: Id, d: Decision)
      modifies this
      ensures db == old(db).(
        users := UsersAfter(old(db), input, ids, d),
        agents := if d.subject.created then old(db).agents[ids.agent := NewAgent(input, inviter)] else old(db).agents)
    {
      if d.subject.created {
        CreateAccount(input, ids, inviter);
      }
    }

    method WriteEdge(start: Db, input: Input, ids: NewRows, inviter: Id, d: Decision)
      requires if d.subject.created then d.subject.agentId == ids.agent else d.subject.agentId in start.agents
      requires db.agents == if d.subject.created then start.agents[ids.agent := NewAgent(input, inviter)]
          else start.agents
      modifies this
      ensures db == old(db).(agents := AgentsAfter(start, input, inviter, d))
    {
      AttachAgent(d.subject.agentId, inviter, input.plan);
      assert db.agents == AgentsAfter(start, input, inviter, d);
    }

    // The individual plans stop; the accepted subject's plan is renewed or inserted.
    method WritePlans(start: Db, input: Input, ids: NewRows, d: Decision, agencyId: Id, membershipId: Id)
      returns (subscriptionId: Id)
      requires d.branch.Promote? ==>
        var id := d.branch.memberSubscriptionId;
        && id in start.subscriptions && LiveMemberPlan(start.subscriptions[id], d.branch.membershipId)
        && db.subscriptions == start.subscriptions[id := start.subscriptions[id].(status := Canceled)]
      requires !d.branch.Promote? ==> db.subscriptions == start.subscriptions
      modifies this
      ensures db == old(db).(subscriptions := SubscriptionsAfter(start, input, ids, d, agencyId, membershipId))
      ensures subscriptionId == SubscriptionIdAfter(start, input, ids, agencyId)
    {
      CancelIndividualPlans(d.subject.agentId);
      assert db.subscriptions == map s | s in start.subscriptions ::
        if Stops(d, s, start.subscriptions[s]) then start.subscriptions[s].(status := Canceled)
          else start.subscriptions[s];
      ReusedAfterStops(start, db, input, agencyId);
      var reused := ReusedPlan(db, input, agencyId);
      if reused.Some? {
        subscriptionId := reused.value;
        PutSubscription(subscriptionId, Renewed(db.subscriptions[subscriptionId], input));
      } else {
        subscriptionId := ids.subscription;
        PutSubscription(subscriptionId, NewSubscription(input, ids, agencyId, membershipId));
      }
    }

    method WriteClaim(start: Db, input: Input, now: Time, ids: NewRows, d: Decision, userId: Id, subscriptionId: Id)
      returns (refused: Option<Error>)
      requires Grounded(start, input, ids, d)
      requires db.invitations == start.invitations && db.checkouts == start.checkouts
      requires d.subject.created || db.onboardingInProgress == start.onboardingInProgress
      modifies this
      ensures refused == ClaimError(start, input, now, AcceptedMembership(ids, d.branch))
      ensures refused.None? ==> db == old(db).(
        invitations := InvitationsAfter(start, input, now, d, AcceptedMembership(ids, d.branch)),
        checkouts := CheckoutsAfter(start, input, userId, subscriptionId))
    {
      refused := ClaimInvitation(input, now, d, AcceptedMembership(ids, d.branch));
      if refused.None? {
        if d.branch.Promote? && db.invitations[d.branch.previousInvitationId].stage != Paused {
          PauseHistory(d.branch.previousInvitationId, now);
        }
        assert db.invitations == InvitationsAfter(start, input, now, d, AcceptedMembership(ids, d.branch));
        FinalizeCheckout(input, userId, subscriptionId);
      }
    }
  }

  class Store {
    var db: Db

    constructor (db: Db)
      ensures this.db == db
    {
      this.db := db;
    }

    method Finalize(input: Input, now: Time, ids: NewRows) returns (r: Result<Outcome, Error>)
      requires Linked(db) && Unused(db, ids)
      modifies this
      ensures (db, r) == Run(old(db), input, now, ids)
    {
      if input.provider.status != Active && input.provider.status != Trialing { return Err(ProviderNotConfirmed); }
      if input.provider.periodEnd <= input.provider.periodStart { return Err(InvalidPeriod); }
      var gate := CheckCheckout(db, input);
      if gate.Err? { return Err(gate.error); }
      if gate.value.Replay? { return Ok(Outcome(gate.value.subscriptionId, false)); }
      var decided := DecideInOrder(input, now, ids, gate.value.reservation);
      if decided.Err? { return Err(decided.error); }
      DecisionGrounded(db, input, now, ids, gate.value.reservation);
      var next, subscriptionId, refused := Write(input, now, ids, decided.value);
      if refused.Some? { return Err(refused.value); }
      db := next;
      return Ok(Outcome(subscriptionId, decided.value.subject.created));
    }

    // Every check before the first write that could be refused.
    method DecideInOrder(input: Input, now: Time, ids: NewRows, reservation: Reservation)
      returns (r: Result<Decision, Error>)
      requires Linked(db) && Unused(db, ids)
      ensures r == DecideBeforeClaim(db, input, now, ids, reservation)
    {
      var refused := CheckInvitation(db, input, now, reservation);
      if refused.Some? { return Err(refused.value); }
      var inv := db.invitations[input.invitationId];
      var role := AuthorityRole(db, inv, now, reservation);
      if role.None? { return Err(NoAuthority); }
      var subject := ResolveSubject(db, input, ids, inv.invitedByAgentId);
      if subject.Err? { return Err(subject.error); }
      var s := subject.value;
      var below := InviterIsBelow(db, s.agentId, inv.invitedByAgentId);
      refused := CheckSubject(db, input, inv.invitedByAgentId, role.value, s, below);
      if refused.Some? { return Err(refused.value); }
      var branch := ChooseBranch(db, input, inv, role.value, s);
      if branch.Err? { return Err(branch.error); }
      refused := CheckMigration(db, input, AcceptedAgency(db, ids, inv, branch.value));
      if refused.Some? { return Err(refused.value); }
      return Ok(Decision(role.value, s, branch.value));
    }

    // Account, structural branch and hierarchy edge.
    method WriteStructure(input: Input, now: Time, ids: NewRows, d: Decision) returns (tx: Transaction)
      requires Grounded(db, input, ids, d)
      ensures fresh(tx)
      ensures
        var inv := db.invitations[input.invitationId];
        tx.db == db.(users := UsersAfter(db, input, ids, d),
                     agents := AgentsAfter(db, input, inv.invitedByAgentId, d),
                     memberships := MembershipsAfter(db, now, ids, inv, d),
                     agencies := AgenciesAfter(db, input, ids, inv, d),
                     subscriptions := if d.branch.Promote? then db.subscriptions[d.branch.memberSubscriptionId :=
                       db.subscriptions[d.branch.memberSubscriptionId].(status := Canceled)] else db.subscriptions)
    {
      var inv := db.invitations[input.invitationId];
      tx := new Transaction(db);
      tx.OpenAccount(input, ids, inv.invitedByAgentId, d);
      tx.Attach(db, input, now, ids, inv, d);
      tx.WriteEdge(db, input, ids, inv.invitedByAgentId, d);
    }

    method WriteSubject(input: Input, now: Time, ids: NewRows, d: Decision)
      returns (tx: Transaction, subscriptionId: Id)
      requires Grounded(db, input, ids, d)
      ensures fresh(tx)
      ensures tx.db == After(db, input, now, ids, d).(invitations := db.invitations, checkouts := db.checkouts)
      ensures subscriptionId
          == SubscriptionIdAfter(db, input, ids, AcceptedAgency(db, ids, db.invitations[input.invitationId], d.branch))
    {
      var inv := db.invitations[input.invitationId];
      var g, agencyId := d.subject.agentId, AcceptedAgency(db, ids, inv, d.branch);
      tx := WriteStructure(input, now, ids, d);
      subscriptionId := tx.WritePlans(db, input, ids, d, agencyId, AcceptedMembership(ids, d.branch));
      if d.subject.created {
        tx.StartOnboarding(g);
      } else if g in tx.db.founders && input.plan == AgencyPlan {
        tx.MoveFounder(g, agencyId);
      }
    }

    method Write(input: Input, now: Time, ids: NewRows, d: Decision)
      returns (next: Db, subscriptionId: Id, refused: Option<Error>)
      requires Grounded(db, input, ids, d)
      ensures refused == ClaimError(db, input, now, AcceptedMembership(ids, d.branch))
      ensures refused.None? ==> next == After(db, input, now, ids, d)
      ensures subscriptionId
          == SubscriptionIdAfter(db, input, ids, AcceptedAgency(db, ids, db.invitations[input.invitationId], d.branch))
    {
      var tx;
      tx, subscriptionId := WriteSubject(input, now, ids, d);
      refused := tx.WriteClaim(db, input, now, ids, d, UserIdOf(db, input, ids), subscriptionId);
      next := tx.db;
    }
  }
}
