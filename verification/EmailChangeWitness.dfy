/** One email change from the request to the commit: the protocol can be completed. */
module EmailChangeWitness {
  import opened Wrappers
  import opened Text
  import opened EmailChange
  import opened EmailChangeRuns
  import opened EmailChangeSafety

  // Administrator 1 changes the email of user 2 from "u" to "n".
  const ADMIN := Person("a", true, true, false, 0)
  const USER := Person("u", true, false, false, 0)
  const LOCKED := USER.(updatedAt := 10)
  const RENAMED := Person("n", true, false, false, 40)

  const ASKED := Request(2, 1, "u", true, "n", 100, None, 10, 10 + TTL_MS, None, None, 1)
  const APPROVED := Approved(ASKED, 101, 20)

  const BEFORE := Db(map[1 := ADMIN, 2 := USER], map[])
  const PENDING := Db(map[1 := ADMIN, 2 := LOCKED], map[5 := ASKED])
  const CONFIRMED := Db(map[1 := ADMIN, 2 := LOCKED], map[5 := APPROVED])
  const AFTER := Db(map[1 := ADMIN, 2 := RENAMED], map[])

  // Call 11 asks, call 12 approves with the current token 100, call 13 confirms with
  // the new token 101 and revokes the user's only session.
  const SESSION := Session(2, 7)
  const ASK_CALL := map[11 := Finished]
  const APPROVE_CALL := ASK_CALL[12 := Finished]

  const ACTIONS: seq<Action> := [
    Enter(11, 1),
    AskChange(11, 2, 0, "n", 5, 100, 10),
    Start(12, 100, 101, 20),
    Prepare(12),
    Deliver(12, true),
    Start(13, 101, 102, 30),
    Prepare(13),
    Revoke(13, true, {}),
    Complete(13, 40, 40)]

  const RUN: seq<State> := [
    State(BEFORE, {SESSION}, map[], {}, {}),
    State(BEFORE, {SESSION}, map[11 := Asking(1)], {}, {}),
    State(PENDING, {SESSION}, ASK_CALL, {100}, {5}),
    State(PENDING, {SESSION}, ASK_CALL[12 := Started(100, 101, 20)], {100, 101}, {5}),
    State(CONFIRMED, {SESSION}, ASK_CALL[12 := Sending(5, ASKED, 2, 101)], {100, 101}, {5}),
    State(CONFIRMED, {SESSION}, APPROVE_CALL, {100, 101}, {5}),
    State(CONFIRMED, {SESSION}, APPROVE_CALL[13 := Started(101, 102, 30)], {100, 101, 102}, {5}),
    State(CONFIRMED, {SESSION}, APPROVE_CALL[13 := Revoking(5, APPROVED, 101)], {100, 101, 102}, {5}),
    State(CONFIRMED, {}, APPROVE_CALL[13 := Completing(5, APPROVED, 101)], {100, 101, 102}, {5}),
    State(AFTER, {}, APPROVE_CALL[13 := Finished], {100, 101, 102}, {5})]

  lemma Letters()
    ensures Normalize("u") == "u" && Lower("a") == "a" && Lower("n") == "n" && Lower("u") == "u"
  {
    assert TrimStart("u") == "u" && TrimEnd("u") == "u";
  }

  lemma NewEmailIsFree(db: Db)
    requires db.users.Keys == {1, 2} && db.users[1].email == "a"
    ensures !EmailTaken(db, "n", 2)
  {
    Letters();
    assert "a"[0] != "n"[0];
  }

  lemma FirstRequest(db: Db, admin: Id, u: Id, newEmail: string, r: Id, h: Id, now: Time)
    requires u in db.users && CheckTarget(db, u, db.users[u].updatedAt, newEmail) == None
    requires now > db.users[u].updatedAt + 1
    ensures
      var user := db.users[u];
      var q := Request(u, admin, user.email, user.emailVerified, newEmail, h, None, now, now + TTL_MS, None, None, 1);
      db.requests.Keys == {} ==>
        RequestTx(db, admin, u, user.updatedAt, newEmail, r, h, now)
        == Ok(Db(db.users[u := user.(updatedAt := now)], map[r := q]))
  {
    var user := db.users[u];
    var q := Request(u, admin, user.email, user.emailVerified, newEmail, h, None, now, now + TTL_MS, None, None, 1);
    var kept := map r | r in db.requests && !Lapsed(db.requests[r], now) :: db.requests[r];
    var others := map r | r in kept && kept[r].userId != u :: kept[r];
    assert db.requests.Keys == {} ==> db.(requests := kept) == db && others[r := q] == map[r := q];
  }

  lemma RequestGoesThrough()
    ensures RequestTx(BEFORE, 1, 2, 0, "n", 5, 100, 10) == Ok(PENDING)
  {
    Letters();
    NewEmailIsFree(BEFORE);
    assert "u"[0] != "n"[0];
    FirstRequest(BEFORE, 1, 2, "n", 5, 100, 10);
    assert BEFORE.users[2 := LOCKED] == PENDING.users;
  }

  lemma FindsRequest(db: Db, h: Id)
    requires db.requests.Keys == {5} && Holds(db.requests[5], h)
    ensures FindRequest(db, h) == Some(5)
  {
    var found := set r | r in db.requests
      && (db.requests[r].currentTokenHash == h || db.requests[r].newTokenHash == Some(h));
    assert 5 in found;
    forall r | r in found
      ensures r == 5
    {
      assert r in db.requests.Keys;
    }
  }

  lemma ApprovalGoesThrough()
    ensures PrepareTx(PENDING, 100, 101, 20) == (CONFIRMED, SendNew(5, ASKED, 2))
  {
    NewEmailIsFree(PENDING);
    FindsRequest(PENDING, 100);
    assert PENDING.requests[5 := APPROVED] == CONFIRMED.requests;
  }

  lemma ConfirmationGoesThrough()
    ensures PrepareTx(CONFIRMED, 101, 102, 30) == (CONFIRMED, Ready(5, APPROVED))
  {
    NewEmailIsFree(CONFIRMED);
    FindsRequest(CONFIRMED, 101);
  }

  lemma CompletionGoesThrough()
    ensures CompleteTx(CONFIRMED, 5, APPROVED, 101, 40, FinalUpdatedAt(40, APPROVED)) == Ok(AFTER)
  {
    NewEmailIsFree(CONFIRMED);
    assert CONFIRMED.users[2 := RENAMED] == AFTER.users && CONFIRMED.requests - {5} == AFTER.requests;
  }

  lemma AskingSteps()
    ensures IsStep(RUN[0], ACTIONS[0], RUN[1]) && IsStep(RUN[1], ACTIONS[1], RUN[2])
  {
    RequestGoesThrough();
  }

  lemma ApprovingStep()
    ensures IsStep(RUN[3], ACTIONS[3], RUN[4])
  {
    ApprovalGoesThrough();
  }

  lemma ApprovingSteps()
    ensures IsStep(RUN[2], ACTIONS[2], RUN[3]) && IsStep(RUN[4], ACTIONS[4], RUN[5])
  {
  }

  lemma ConfirmingSteps()
    ensures IsStep(RUN[5], ACTIONS[5], RUN[6]) && IsStep(RUN[6], ACTIONS[6], RUN[7])
  {
    ConfirmationGoesThrough();
  }

  lemma CompletingSteps()
    ensures IsStep(RUN[7], ACTIONS[7], RUN[8]) && IsStep(RUN[8], ACTIONS[8], RUN[9])
  {
    CompletionGoesThrough();
  }

  lemma StepGoesThrough(i: nat)
    requires i < |ACTIONS|
    ensures IsStep(RUN[i], ACTIONS[i], RUN[i + 1])
  {
    if i < 2 {
      AskingSteps();
    } else if i == 3 {
      ApprovingStep();
    } else if i < 5 {
      ApprovingSteps();
    } else if i < 7 {
      ConfirmingSteps();
    } else {
      CompletingSteps();
    }
  }

  lemma ItIsARun()
    ensures IsRun(RUN, ACTIONS)
  {
    forall i: nat | i < |ACTIONS|
      ensures IsStep(RUN[i], ACTIONS[i], RUN[i + 1])
    {
      StepGoesThrough(i);
    }
  }

  // The email changes in the last step, with everybody's consent.
  lemma AnEmailChanges()
    ensures IsRun(RUN, ACTIONS) && EmailChangesAt(RUN, 8, 2) && RUN[9].db.users[2].email == "n"
    ensures CompletesAt(RUN, ACTIONS, 8, 13, 5, APPROVED, 101) && Authorized(RUN, ACTIONS, 8, 13, 5, APPROVED, 101)
  {
    ItIsARun();
    CompletionGoesThrough();
    CompletionIsAuthorized(RUN, ACTIONS, 8, 13, 5, APPROVED, 101);
  }
}
