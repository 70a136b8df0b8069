/**
 A paid reservation against the expiry of its invitation. The first check judges a
 reservation by when the terms were accepted; the claim at the end judges it by the
 clock. This file says exactly which confirmed requests fall between the two.
 */
module FinalizationReservations {
  import opened Wrappers
  import opened Hierarchy
  import opened ParentGraph
  import opened Text
  import opened Tables
  import opened Finalization
  import opened FinalizationStore
  import opened FinalizationInvariant
  import opened FinalizationRuns

  // Everything the transaction checks before the claim lets this request through.
  ghost predicate PassesChecks(db: Db, input: Input, now: Time, ids: NewRows, d: Decision) {
    && Entitling(input.provider.status) && input.provider.periodStart < input.provider.periodEnd
    && CheckCheckout(db, input).Ok? && CheckCheckout(db, input).value.Proceed?
    && DecideBeforeClaim(db, input, now, ids, CheckCheckout(db, input).value.reservation) == Ok(d)
  }

  // With a reservation none of those checks looks at the clock.
  lemma ReservedChecksIgnoreTheClock(db: Db, input: Input, now: Time, later: Time, ids: NewRows, d: Decision)
    requires input.checkoutId.Some?
    ensures PassesChecks(db, input, now, ids, d) <==> PassesChecks(db, input, later, ids, d)
  {
  }

  // Without one they leave nothing for the claim to refuse on account of the time.
  lemma DirectRequestsAreInTime(db: Db, input: Input, now: Time, ids: NewRows, d: Decision)
    requires input.checkoutId.None? && PassesChecks(db, input, now, ids, d)
    ensures now < db.invitations[input.invitationId].expiresAt
  {
  }

  // A request that passes the checks is accepted exactly when the invitation has not
  // expired at that moment (and no other invitation has the membership); otherwise
  // nothing is written.
  lemma AcceptedIffUnexpired(db: Db, input: Input, now: Time, ids: NewRows, d: Decision)
    requires PassesChecks(db, input, now, ids, d)
    ensures input.invitationId in db.invitations
    ensures
      var r, inTime := Run(db, input, now, ids), now < db.invitations[input.invitationId].expiresAt;
      var taken := IsTaken(db, input.invitationId, AcceptedMembership(ids, d.branch));
      && (r.1.Ok? <==> inTime && !taken)
      && (!inTime ==> r == (db, Err(AlreadyUsed)))
      && (inTime && taken ==> r == (db, Err(MembershipTaken)))
  {
  }

  // What fails at the claim on account of the time is always a reservation: exactly
  // those that are confirmed at or after the expiry.
  lemma ExpiresAtClaimIffReserved(db: Db, input: Input, now: Time, ids: NewRows, d: Decision)
    requires PassesChecks(db, input, now, ids, d)
    ensures input.invitationId in db.invitations
    ensures Run(db, input, now, ids).1 == Err(AlreadyUsed)
       <==> input.checkoutId.Some? && db.invitations[input.invitationId].expiresAt <= now
  {
    AcceptedIffUnexpired(db, input, now, ids, d);
    if input.checkoutId.None? {
      DirectRequestsAreInTime(db, input, now, ids, d);
    }
  }

  lemma PassingAccepts(db: Db, input: Input, now: Time, ids: NewRows, d: Decision)
    requires PassesChecks(db, input, now, ids, d) && (d.branch.Reparent? ==> d.branch.membershipId in db.memberships)
    requires input.invitationId in db.invitations && now < db.invitations[input.invitationId].expiresAt
    requires !IsTaken(db, input.invitationId, AcceptedMembership(ids, d.branch))
    ensures
      var agencyId := AcceptedAgency(db, ids, db.invitations[input.invitationId], d.branch);
      Accepts(db, input, now, ids, d, After(db, input, now, ids, d), SubscriptionIdAfter(db, input, ids, agencyId))
  {
  }

  // So one and the same confirmation of a reservation is accepted before the expiry
  // and refused from then on.
  lemma SameConfirmationEarlyAndLate(db: Db, input: Input, early: Time, late: Time, ids: NewRows, d: Decision)
    requires input.checkoutId.Some? && PassesChecks(db, input, early, ids, d)
    requires !IsTaken(db, input.invitationId, AcceptedMembership(ids, d.branch))
    requires input.invitationId in db.invitations && early < db.invitations[input.invitationId].expiresAt <= late
    ensures Run(db, input, early, ids).1.Ok? && Run(db, input, late, ids) == (db, Err(AlreadyUsed))
  {
    ReservedChecksIgnoreTheClock(db, input, early, late, ids, d);
    AcceptedIffUnexpired(db, input, early, ids, d);
    AcceptedIffUnexpired(db, input, late, ids, d);
  }

  // ---------- along a run ----------

  predicate ExpiresAt(db: Db, i: Id, at: Time) {
    i in db.invitations && db.invitations[i].expiresAt == at
  }

  lemma StepKeepsExpiry(db: Db, action: Action, i: Id, at: Time)
    requires Linked(db) && Enabled(db, action) && ExpiresAt(db, i, at)
    ensures ExpiresAt(Apply(db, action), i, at)
  {
    if action.Finalize? && Apply(db, action) != db {
      var d := TakenFacts(db, action.input, action.now, action.ids);
      InvitationSubjects(db, action.input, action.now, d, AcceptedMembership(action.ids, d.branch), i);
    }
  }

  lemma RunStepKeepsExpiry(run: seq<Db>, actions: seq<Action>, j: nat, id: Id, at: Time)
    requires IsRun(run, actions) && j < |actions| && ExpiresAt(run[j], id, at)
    ensures ExpiresAt(run[j + 1], id, at)
  {
    RunStep(run, actions, j);
    StepKeepsExpiry(run[j], actions[j], id, at);
  }

  lemma {:induction false} ExpiryIsFixed(run: seq<Db>, actions: seq<Action>, i: nat, j: nat, id: Id)
    requires IsRun(run, actions) && i <= j < |run| && id in run[i].invitations
    ensures ExpiresAt(run[j], id, run[i].invitations[id].expiresAt)
    decreases j
  {
    if i < j {
      ExpiryIsFixed(run, actions, i, j - 1, id);
      RunStepKeepsExpiry(run, actions, j - 1, id, run[i].invitations[id].expiresAt);
    }
  }

  // Whatever was reserved and paid in the meantime, no state of a run accepts an
  // invitation at or after the expiry it was created with: a confirmation that
  // arrives then writes nothing, and is answered with an error unless it is a replay.
  lemma NeverAcceptedLate(run: seq<Db>, actions: seq<Action>, i: nat, j: nat, input: Input, now: Time, ids: NewRows)
    requires IsRun(run, actions) && i <= j < |run| && input.invitationId in run[i].invitations
    requires run[i].invitations[input.invitationId].expiresAt <= now
    ensures Run(run[j], input, now, ids).0 == run[j]
    ensures Run(run[j], input, now, ids).1.Ok? ==>
        CheckCheckout(run[j], input).Ok? && CheckCheckout(run[j], input).value.Replay?
  {
    ExpiryIsFixed(run, actions, i, j, input.invitationId);
  }

  // ---------- it happens ----------

  // One owner with one agency.
  const OWNER_ONLY := Db(
    map[], map[1 := Agent(true, None, true, true)], map[], map[], map[],
    map[20 := Membership(10, 1, Owner, None, 0, None)], map[10 := Agency("agency", None)], map[], map[], map[])

  // Open until 100 ...
  const INVITATION := Invitation(
    10, "b@x", 1, Pending, Some(IntendedAgent), INVITED_AGENT_CENTS, Invited, 0, 100, 0, None, None, None, None, false)

  // ... reserved at 50 ...
  const CHECKOUT := Checkout(30, "b@x", None, MemberPlan, Owner, false, INVITED_AGENT_CENTS, 50, None, None)

  // ... and confirmed as paid.
  const CONFIRMATION := Input(
    Some(40), 30, None, "b@x", None, Some("hash"), MemberPlan, INVITED_AGENT_CENTS, Provider(Active, 60, 1060, Some(7)))

  const NEW_ROWS := NewRows(51, 52, 53, 54, 55, 120)

  const INVITED_DB := OWNER_ONLY.(invitations := map[30 := INVITATION])

  const RESERVED_DB := INVITED_DB.(checkouts := map[40 := CHECKOUT])

  lemma OwnerOnlyHasOneOwner()
    ensures Linked(OWNER_ONLY) && OneOwner(OWNER_ONLY) && OneMembership(OWNER_ONLY)
  {
    assert 20 in OWNER_ONLY.memberships && IsOwner(OWNER_ONLY, 10, 1);
  }

  lemma OwnerOnlyIsAcyclic()
    ensures Acyclic(Parents(OWNER_ONLY)) && OwnersAbove(OWNER_ONLY)
  {
    var parents := Parents(OWNER_ONLY);
    forall x, n: nat | n >= 1
      ensures UpN(parents, x, n) == None
    {
      assert ParentOf(parents, x) == None;
    }
    assert UpN(parents, 1, 0) == Some(1);
  }

  lemma OwnerOnlyIsGood()
    ensures Good(OWNER_ONLY)
  {
    OwnerOnlyHasOneOwner();
    OwnerOnlyIsAcyclic();
    assert OneLivePlan(OWNER_ONLY);
  }

  lemma ConfirmationPassesChecks(now: Time)
    ensures
      var d := Decision(Owner, Subject(52, true, Some(1), {}), Join);
      PassesChecks(RESERVED_DB, CONFIRMATION, now, NEW_ROWS, d)
        && !IsTaken(RESERVED_DB, 30, AcceptedMembership(NEW_ROWS, d.branch))
  {
    assert FindUser(RESERVED_DB, "b@x") == None;
  }

  lemma ConfirmationOutcomes()
    ensures Run(RESERVED_DB, CONFIRMATION, 120, NEW_ROWS) == (RESERVED_DB, Err(AlreadyUsed))
    ensures Run(RESERVED_DB, CONFIRMATION, 99, NEW_ROWS).1.Ok?
  {
    ConfirmationPassesChecks(99);
    SameConfirmationEarlyAndLate(RESERVED_DB, CONFIRMATION, 99, 120, NEW_ROWS,
      Decision(Owner, Subject(52, true, Some(1), {}), Join));
  }

  lemma StepsToTheRefusal()
    ensures IsStep(OWNER_ONLY, Invite(30, INVITATION), INVITED_DB)
    ensures IsStep(INVITED_DB, Reserve(40, CHECKOUT), RESERVED_DB)
  {
    assert ActiveAs(OWNER_ONLY, 20, 10, 1);
  }

  lemma TheRefusal()
    ensures IsStep(RESERVED_DB, Finalize(CONFIRMATION, 120, NEW_ROWS), RESERVED_DB)
  {
    ConfirmationOutcomes();
  }

  lemma Extended(run: seq<Db>, actions: seq<Action>, action: Action, next: Db)
    requires IsRun(run, actions) && IsStep(run[|run| - 1], action, next)
    ensures IsRun(run + [next], actions + [action])
  {
    var longer := actions + [action];
    forall i | 0 <= i < |longer|
      ensures IsStep((run + [next])[i], longer[i], (run + [next])[i + 1])
    {
      if i < |actions| {
        assert IsStep(run[i], actions[i], run[i + 1]);
      }
    }
  }

  // Invited, reserved and paid in time, confirmed at 120: refused, though at 99 the
  // very same confirmation would have been accepted.
  lemma PaidInTimeYetRefused()
    ensures
      IsRun([OWNER_ONLY, INVITED_DB, RESERVED_DB, RESERVED_DB],
            [Invite(30, INVITATION), Reserve(40, CHECKOUT), Finalize(CONFIRMATION, 120, NEW_ROWS)])
    ensures CHECKOUT.acceptedTermsAt <= INVITATION.expiresAt
    ensures Run(RESERVED_DB, CONFIRMATION, 120, NEW_ROWS) == (RESERVED_DB, Err(AlreadyUsed))
    ensures Run(RESERVED_DB, CONFIRMATION, 99, NEW_ROWS).1.Ok?
  {
    OwnerOnlyIsGood();
    ConfirmationOutcomes();
    StepsToTheRefusal();
    TheRefusal();
    Extended([OWNER_ONLY], [], Invite(30, INVITATION), INVITED_DB);
    Extended([OWNER_ONLY, INVITED_DB], [Invite(30, INVITATION)], Reserve(40, CHECKOUT), RESERVED_DB);
    Extended([OWNER_ONLY, INVITED_DB, RESERVED_DB], [Invite(30, INVITATION), Reserve(40, CHECKOUT)],
      Finalize(CONFIRMATION, 120, NEW_ROWS), RESERVED_DB);
  }
}
