/**
 The newest-25 cut at work: tables on which an accepted invitation renews an agency
 plan that 25 newer, canceled rows hide from the access resolver.
 */
module FinalizationCut {
  import opened Wrappers
  import opened Hierarchy
  import opened ParentGraph
  import opened Text
  import opened Tables
  import opened Finalization
  import opened FinalizationStore
  import opened FinalizationInvariant
  import opened FinalizationRuns
  import opened FounderAccess
  import opened FinalizationAccess
  import Reservations = FinalizationReservations

  // Row 0 is the live plan of agency 11; every later row is canceled.
  function PlanRow(s: Id): Subscription {
    Subscription(AgencyPlan, None, Some(11), None, if s == 0 then Active else Canceled, INVITED_AGENCY_CENTS, Some(0),
      Some(50), s, None)
  }

  // Agent 1 owns agency 10 and invited agent 2, who owns agency 11.
  const CROWDED := Db(
    map[60 := User("b", true, Some(2))],
    map[1 := Agent(true, None, true, true), 2 := Agent(true, None, true, true)], map[], map[], map[],
    map[20 := Membership(10, 1, Owner, None, 0, None), 21 := Membership(11, 2, Owner, None, 0, None)],
    map[10 := Agency("parent", None), 11 := Agency("child", None)],
    map s | 0 <= s <= NEWEST_ROWS :: PlanRow(s),
    map[30 := Invitation(10, "b", 1, Pending, Some(IntendedAgency), INVITED_AGENCY_CENTS, Invited, 0, 100, 0, None,
      None, None, None, false)],
    map[40 := Checkout(30, "b", Some(60), AgencyPlan, Owner, false, INVITED_AGENCY_CENTS, 50, None, None)])

  const CONFIRMATION := Input(
    Some(40), 30, Some(60), "b", None, None, AgencyPlan, INVITED_AGENCY_CENTS, Provider(Active, 60, 1060, None))

  const NEW_ROWS := NewRows(161, 162, 163, 164, 165, 70)

  const DECISION := Decision(Owner, Subject(2, false, None, {21}), Reparent(21))

  const RENEWED := After(CROWDED, CONFIRMATION, 70, NEW_ROWS, DECISION)

  // ---------- the tables are good ones ----------

  lemma CrowdedIsLinked()
    ensures Linked(CROWDED)
  {
    var db := CROWDED;
    assert db.agents.Keys == {1, 2} && db.agencies.Keys == {10, 11} && db.memberships.Keys == {20, 21};
    assert forall s :: s in db.subscriptions ==> db.subscriptions[s] == PlanRow(s);
    assert forall m :: m in db.memberships ==>
      db.memberships[m].agencyId in {10, 11} && db.memberships[m].agentId in {1, 2};
  }

  lemma CrowdedHasOwners()
    ensures OneOwner(CROWDED) && OneMembership(CROWDED)
  {
    assert 20 in CROWDED.memberships && IsOwner(CROWDED, 10, 1);
    assert 21 in CROWDED.memberships && IsOwner(CROWDED, 11, 2);
  }

  lemma NobodyIsAbove(x: Id, n: nat)
    requires n >= 1
    ensures UpN(Parents(CROWDED), x, n) == None
  {
    assert ParentOf(Parents(CROWDED), x) == None;
  }

  lemma CrowdedIsAcyclic()
    ensures Acyclic(Parents(CROWDED)) && OwnersAbove(CROWDED)
  {
    forall x, n: nat | n >= 1
      ensures UpN(Parents(CROWDED), x, n) == None
    {
      NobodyIsAbove(x, n);
    }
    assert UpN(Parents(CROWDED), 1, 0) == Some(1) && UpN(Parents(CROWDED), 2, 0) == Some(2);
  }

  lemma CrowdedHasOnePlan()
    ensures OneLivePlan(CROWDED) && FoundersOwn(CROWDED) && OneInvitationPerMembership(CROWDED)
  {
    forall s | s in CROWDED.subscriptions
      ensures CROWDED.subscriptions[s] == PlanRow(s)
    {
    }
  }

  // Nothing is wrong with these tables.
  lemma CrowdedIsGood()
    ensures Good(CROWDED) && Unused(CROWDED, NEW_ROWS)
  {
    CrowdedIsLinked();
    CrowdedHasOwners();
    CrowdedIsAcyclic();
    CrowdedHasOnePlan();
  }

  // ---------- the invitation is accepted ----------

  lemma SingleLetter()
    ensures Normalize("b") == "b" && EqualInsensitive("b", "b")
  {
    assert TrimStart("b") == "b" && TrimEnd("b") == "b";
    assert Lower("b") == "b";
  }

  lemma SubjectIsFound()
    ensures ResolveSubject(CROWDED, CONFIRMATION, NEW_ROWS, 1) == Ok(DECISION.subject)
    ensures First(DECISION.subject.memberships) == Some(21)
  {
    SingleLetter();
    assert (set u | u in CROWDED.users && EqualInsensitive(CROWDED.users[u].email, "b")) == {60};
    assert ActiveMemberships(CROWDED, 2) == {21};
  }

  lemma RenewsTheOldestRow()
    ensures LiveAgencyPlans(CROWDED, 11) == {0} && ReusedPlan(CROWDED, CONFIRMATION, 11) == Some(0)
  {
    assert forall s :: s in CROWDED.subscriptions ==> CROWDED.subscriptions[s] == PlanRow(s);
  }

  lemma CrowdedPasses()
    ensures Reservations.PassesChecks(CROWDED, CONFIRMATION, 70, NEW_ROWS, DECISION)
  {
    SubjectIsFound();
    RenewsTheOldestRow();
    assert !IsBelow(CROWDED, 2, 1) by {
      if n: nat :| n >= 1 && UpN(Parents(CROWDED), 1, n) == Some(2) {
        NobodyIsAbove(1, n);
      }
    }
  }

  lemma CrowdedAccepts()
    ensures Accepts(CROWDED, CONFIRMATION, 70, NEW_ROWS, DECISION, RENEWED, 0)
  {
    CrowdedPasses();
    RenewsTheOldestRow();
    Reservations.PassingAccepts(CROWDED, CONFIRMATION, 70, NEW_ROWS, DECISION);
  }

  // ---------- and the cut hides its plan ----------

  function UpTo(n: nat): (r: set<Id>)
    ensures |r| == n && forall s :: s in r <==> 1 <= s <= n
  {
    if n == 0 then {} else UpTo(n - 1) + {n}
  }

  // The rows of agency 11, aged by their ids.
  predicate AgedById(db: Db, s: Id) {
    && (s in db.subscriptions <==> 0 <= s <= NEWEST_ROWS)
    && (s in db.subscriptions ==>
          db.subscriptions[s].createdAt == s && db.subscriptions[s].agencyId == Some(11)
            && db.subscriptions[s].plan == AgencyPlan)
  }

  lemma RowsKeepTheirAge(s: Id)
    ensures AgedById(RENEWED, s)
  {
    RenewsTheOldestRow();
    if s in RENEWED.subscriptions {
      SubscriptionSubjects(CROWDED, CONFIRMATION, NEW_ROWS, DECISION, 11, 21, s);
    }
  }

  lemma LaterRowsAreNewer(db: Db)
    requires forall s :: AgedById(db, s)
    ensures 0 in db.subscriptions && |NewerRows(db, SubjectRows(db, OfAgency(11)), 0)| == NEWEST_ROWS
  {
    assert AgedById(db, 0);
    forall s
      ensures s in NewerRows(db, SubjectRows(db, OfAgency(11)), 0) <==> s in UpTo(NEWEST_ROWS)
    {
      assert AgedById(db, s);
    }
    assert NewerRows(db, SubjectRows(db, OfAgency(11)), 0) == UpTo(NEWEST_ROWS);
  }

  lemma PlanIsPaid()
    ensures 0 in RENEWED.subscriptions && WithinPeriod(RENEWED.subscriptions[0], 70)
    ensures RENEWED.subscriptions[0].status == Active
  {
    RenewsTheOldestRow();
  }

  lemma NothingIsFound()
    requires Inv(CROWDED) && OneLivePlan(CROWDED) && Unused(CROWDED, NEW_ROWS)
    requires Accepts(CROWDED, CONFIRMATION, 70, NEW_ROWS, DECISION, RENEWED, 0)
    ensures !Resolve(RENEWED, 2, 70).HasAccess()
  {
    AcceptanceGrantsAccess(CROWDED, CONFIRMATION, 70, NEW_ROWS, DECISION, RENEWED, 0, 70);
    forall s {
      RowsKeepTheirAge(s);
    }
    LaterRowsAreNewer(RENEWED);
  }

  // A paid renewal, accepted at 70 for the period from 60 to 1060, gives no access at
  // 70: the resolver never looks at row 0.
  lemma CutRefusesAccess()
    ensures Accepts(CROWDED, CONFIRMATION, 70, NEW_ROWS, DECISION, RENEWED, 0)
    ensures 0 in RENEWED.subscriptions && WithinPeriod(RENEWED.subscriptions[0], 70)
    ensures RENEWED.subscriptions[0].status == Active
    ensures !Resolve(RENEWED, 2, 70).HasAccess()
  {
    CrowdedIsGood();
    CrowdedAccepts();
    NothingIsFound();
    PlanIsPaid();
  }
}
