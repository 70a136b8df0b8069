/** What an acceptance settles stays settled: one membership, one current invitation, one place in the hierarchy. */
module FinalizationSettled {
  import opened Wrappers
  import opened Hierarchy
  import opened ParentGraph
  import opened Tables
  import opened Finalization
  import opened FinalizationStore
  import opened FinalizationInvariant
  import opened FinalizationRuns
  import opened FinalizationOthers

  // Agent g has exactly one active membership and exactly one current commercial
  // invitation, which was accepted with that membership.
  predicate Settled(db: Db, g: Id, m: Id, i: Id) {
    && ActiveMemberships(db, g) == {m} && CurrentInvitations(db, g) == {i}
    && i in db.invitations && db.invitations[i].status == Accepted && db.invitations[i].acceptedMembershipId == Some(m)
  }

  ghost predicate IsSettled(db: Db, g: Id) {
    exists m, i :: Settled(db, g, m, i)
  }

  predicate PlacedUnder(db: Db, g: Id, p: Id) {
    ParentOf(Parents(db), g) == Some(p)
  }

  ghost predicate SettledUnder(db: Db, g: Id, p: Id) {
    IsSettled(db, g) && PlacedUnder(db, g, p)
  }

  // ---------- one request ----------

  lemma SubjectIsSettled(db: Db, input: Input, now: Time, ids: NewRows, d: Decision)
    requires Facts(db, input, ids, d)
    ensures Settled(After(db, input, now, ids, d), d.subject.agentId, AcceptedMembership(ids, d.branch),
        input.invitationId)
  {
    MembershipAfter(db, input, now, ids, d);
    InvitationAfter(db, input, now, ids, d);
  }

  lemma OtherMemberships(db: Db, input: Input, now: Time, ids: NewRows, d: Decision, h: Id)
    requires Unused(db, ids) && Facts(db, input, ids, d) && h != d.subject.agentId
    ensures ActiveMemberships(After(db, input, now, ids, d), h) == ActiveMemberships(db, h)
  {
    forall m
      ensures m in ActiveMemberships(After(db, input, now, ids, d), h) <==> m in ActiveMemberships(db, h)
    {
      OtherMembership(db, input, now, ids, d, h, m);
    }
  }

  lemma OtherCurrentInvitation(db: Db, input: Input, now: Time, ids: NewRows, d: Decision, h: Id, i: Id)
    requires Facts(db, input, ids, d) && h != d.subject.agentId
    requires i in CurrentInvitations(db, h) ==> db.invitations[i].status == Accepted
    ensures i in CurrentInvitations(After(db, input, now, ids, d), h) <==> i in CurrentInvitations(db, h)
    ensures
      var after := After(db, input, now, ids, d);
      i in CurrentInvitations(db, h) ==>
        SameAcceptance(db.invitations[i], after.invitations[i]) && after.invitations[i].status == Accepted
  {
    if i in db.invitations {
      InvitationSubjects(db, input, now, d, AcceptedMembership(ids, d.branch), i);
    }
  }

  lemma OthersStaySettled(db: Db, input: Input, now: Time, ids: NewRows, d: Decision, h: Id, m: Id, i: Id)
    requires Unused(db, ids) && Facts(db, input, ids, d) && h != d.subject.agentId && Settled(db, h, m, i)
    ensures Settled(After(db, input, now, ids, d), h, m, i)
  {
    OtherMemberships(db, input, now, ids, d, h);
    assert i in CurrentInvitations(db, h);
    forall j
      ensures j in CurrentInvitations(After(db, input, now, ids, d), h) <==> j in CurrentInvitations(db, h)
    {
      OtherCurrentInvitation(db, input, now, ids, d, h, j);
    }
    OtherCurrentInvitation(db, input, now, ids, d, h, i);
  }

  lemma FinalizeKeepsSettled(db: Db, input: Input, now: Time, ids: NewRows, d: Decision, h: Id)
    requires Unused(db, ids) && Facts(db, input, ids, d) && IsSettled(db, h)
    ensures IsSettled(After(db, input, now, ids, d), h)
  {
    if h == d.subject.agentId {
      SubjectIsSettled(db, input, now, ids, d);
    } else {
      var m, i :| Settled(db, h, m, i);
      OthersStaySettled(db, input, now, ids, d, h, m, i);
    }
  }

  // ---------- every other action ----------

  lemma OtherActionKeepsSettled(db: Db, action: Action, h: Id, m: Id, i: Id)
    requires Enabled(db, action) && !action.Finalize? && Settled(db, h, m, i)
    ensures Settled(Apply(db, action), h, m, i)
  {
    var next := Apply(db, action);
    assert next.memberships == db.memberships;
    assert forall x :: x in CurrentInvitations(next, h) <==> x in CurrentInvitations(db, h);
  }

  lemma StepKeepsSettled(db: Db, action: Action, h: Id)
    requires Linked(db) && Enabled(db, action) && IsSettled(db, h)
    ensures IsSettled(Apply(db, action), h)
  {
    if !action.Finalize? {
      var m, i :| Settled(db, h, m, i);
      OtherActionKeepsSettled(db, action, h, m, i);
    } else if Apply(db, action) != db {
      var d := TakenFacts(db, action.input, action.now, action.ids);
      FinalizeKeepsSettled(db, action.input, action.now, action.ids, d, h);
    }
  }

  lemma StepKeepsPlace(db: Db, action: Action, h: Id, p: Id)
    requires Inv(db) && Enabled(db, action) && PlacedUnder(db, h, p)
    ensures PlacedUnder(Apply(db, action), h, p)
  {
    if action.Finalize? && Apply(db, action) != db {
      var d := TakenFacts(db, action.input, action.now, action.ids);
      GraphAfter(db, action.input, action.now, action.ids, d);
    }
  }

  // ---------- along a run ----------

  lemma RunStepKeepsSettled(run: seq<Db>, actions: seq<Action>, l: nat, h: Id, p: Id)
    requires IsRun(run, actions) && l < |actions| && SettledUnder(run[l], h, p)
    ensures SettledUnder(run[l + 1], h, p)
  {
    RunKeepsGood(run, actions, l);
    RunStep(run, actions, l);
    StepKeepsSettled(run[l], actions[l], h);
    StepKeepsPlace(run[l], actions[l], h, p);
  }

  lemma {:induction false} SettledStays(run: seq<Db>, actions: seq<Action>, k: nat, l: nat, h: Id, p: Id)
    requires IsRun(run, actions) && k <= l < |run| && SettledUnder(run[k], h, p)
    ensures SettledUnder(run[l], h, p)
    decreases l
  {
    if k < l {
      SettledStays(run, actions, k, l - 1, h, p);
      RunStepKeepsSettled(run, actions, l - 1, h, p);
    }
  }

  lemma AcceptanceSettles(db: Db, input: Input, now: Time, ids: NewRows, d: Decision, after: Db, s: Id)
    requires Inv(db) && Unused(db, ids) && Accepts(db, input, now, ids, d, after, s)
    ensures input.invitationId in db.invitations
    ensures SettledUnder(after, d.subject.agentId, db.invitations[input.invitationId].invitedByAgentId)
  {
    AcceptsFacts(db, input, now, ids, d, after, s);
    SubjectIsSettled(db, input, now, ids, d);
    GraphAfter(db, input, now, ids, d);
  }

  lemma RunAcceptanceSettles(run: seq<Db>, actions: seq<Action>, k: nat, db: Db, input: Input, now: Time, ids: NewRows,
                             d: Decision, s: Id)
    requires IsRun(run, actions) && AcceptsAt(run, k, db, input, now, ids, d, s)
    ensures input.invitationId in db.invitations
    ensures SettledUnder(run[k + 1], d.subject.agentId, db.invitations[input.invitationId].invitedByAgentId)
  {
    RunKeepsGood(run, actions, k);
    AcceptanceSettles(db, input, now, ids, d, run[k + 1], s);
  }

  // Once accepted, an agent has exactly one active membership and exactly one current
  // invitation, belonging together, in every later state of the run, whoever is
  // promoted, re-parented or invited meanwhile; and stays under the same inviter.
  lemma AcceptedStaysSettled(run: seq<Db>, actions: seq<Action>, k: nat, l: nat, db: Db, input: Input, now: Time,
                             ids: NewRows, d: Decision, s: Id)
    requires IsRun(run, actions) && k < l < |run| && AcceptsAt(run, k, db, input, now, ids, d, s)
    ensures input.invitationId in db.invitations
    ensures SettledUnder(run[l], d.subject.agentId, db.invitations[input.invitationId].invitedByAgentId)
  {
    RunAcceptanceSettles(run, actions, k, db, input, now, ids, d, s);
    SettledStays(run, actions, k + 1, l, d.subject.agentId, db.invitations[input.invitationId].invitedByAgentId);
  }
}
