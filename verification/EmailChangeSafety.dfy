/** What every interleaving of the email-change protocol guarantees. */
module EmailChangeSafety {
  import opened Wrappers
  import opened Text
  import opened EmailChange
  import opened EmailChangeRuns

  // ---------- an email changes only with both parties' consent ----------

  ghost predicate CompletesAt(run: seq<State>, actions: seq<Action>, k: int, c: Id, r: Id, q: Request, t: Id) {
    && 0 <= k < |actions| && k < |run| && actions[k].Complete? && actions[k].caller == c
    && At(run[k], c, Completing(r, q, t))
    && Completed(run[k], c, actions[k].at, actions[k].clock).Ok?
  }

  // Asked for by the requester, approved with the current token, confirmed with
  // the token that very approval made, all sessions revoked, in this order.
  ghost predicate Authorized(run: seq<State>, actions: seq<Action>, k: int, c: Id, r: Id, q: Request, t: Id) {
    exists asked, approved, ready, revoked, c0, q0 ::
      && asked < approved < ready < revoked < k
      && AskedAt(run, actions, asked, r, q)
      && ApprovesAt(run, actions, approved, c0, r, q0) && run[approved].callers[c0].nextHash == t
      && ReadyAt(run, actions, ready, c, r, q, t)
      && RevokesAt(run, actions, revoked, c, r, q, t)
  }

  lemma CompletionIsAuthorized(run: seq<State>, actions: seq<Action>, k: nat, c: Id, r: Id, q: Request, t: Id)
    requires IsRun(run, actions) && CompletesAt(run, actions, k, c, r, q, t)
    ensures Authorized(run, actions, k, c, r, q, t)
  {
    CompletingWasRevoked(run, actions, k, c, r, q, t);
    var revoked :| revoked < k && RevokesAt(run, actions, revoked, c, r, q, t);
    RevokingWasReady(run, actions, revoked, c, r, q, t);
    var ready :| ready < revoked && ReadyAt(run, actions, ready, c, r, q, t);
    SecondTokenWasApproved(run, actions, ready, r);
    var approved, c0, q0 :| approved < ready && ApprovesAt(run, actions, approved, c0, r, q0)
      && q == Approved(q0, run[approved].callers[c0].nextHash, run[approved].callers[c0].now);
    EveryRequestWasAsked(run, actions, approved, r);
    var asked :| asked < approved && AskedAt(run, actions, asked, r, q0);
    assert AskedAt(run, actions, asked, r, q);
  }

  // At the commit itself: the request is the row that was found ready, its second
  // token has not expired, and the requester is an administrator in good standing.
  lemma CompletionIsCurrent(run: seq<State>, actions: seq<Action>, k: nat, c: Id, r: Id, q: Request, t: Id)
    requires IsRun(run, actions) && CompletesAt(run, actions, k, c, r, q, t)
    ensures r in run[k].db.requests && run[k].db.requests[r] == q
    ensures q.newTokenHash == Some(t) && q.newTokenExpiresAt.Some? && actions[k].clock < q.newTokenExpiresAt.value
    ensures q.requestedById in run[k].db.users
    ensures run[k].db.users[q.requestedById].isAdmin && !run[k].db.users[q.requestedById].banned
    ensures forall u :: u in run[k].db.users && u != q.userId ==>
      !EqualInsensitive(run[k].db.users[u].email, q.newEmail)
    ensures q.userId in run[k].db.users && !run[k].db.users[q.userId].isAdmin && !run[k].db.users[q.userId].banned
    ensures run[k].db.users[q.userId].email == q.originalEmail
    ensures run[k].db.users[q.userId].updatedAt == q.expectedUserUpdatedAt
  {
    RunStep(run, actions, k);
    assert CallerOk(run[k], c);
  }

  // Of that user's sessions alive at the commit, each came from a login after all
  // earlier ones were revoked for this very call.
  lemma OnlyNewSessionsAtCommit(run: seq<State>, actions: seq<Action>, k: nat, c: Id, r: Id, q: Request, t: Id,
                                x: Session)
    requires IsRun(run, actions) && CompletesAt(run, actions, k, c, r, q, t) && x in run[k].sessions
    requires x.userId == q.userId
    ensures exists m, l :: m < l < k && RevokesAt(run, actions, m, c, r, q, t) && LogsInAt(actions, l, x)
  {
    CompletingWasRevoked(run, actions, k, c, r, q, t);
    var m :| m < k && RevokesAt(run, actions, m, c, r, q, t);
    SurvivorLoggedIn(run, actions, m, k, c, r, q, t, x);
  }

  // Nothing wrote the user row between the request and the commit.
  lemma UserUnchangedSinceAsked(run: seq<State>, actions: seq<Action>, k: nat, c: Id, r: Id, q: Request, t: Id,
                                asked: nat, n: nat)
    requires IsRun(run, actions) && CompletesAt(run, actions, k, c, r, q, t) && AskedAt(run, actions, asked, r, q)
    requires asked < n <= k
    ensures q.userId in run[n].db.users && q.userId in run[k].db.users
    ensures run[n].db.users[q.userId] == run[k].db.users[q.userId]
    ensures run[n].db.users[q.userId].email == q.originalEmail
    ensures run[n].db.users[q.userId].updatedAt == q.expectedUserUpdatedAt
  {
    CompletionIsCurrent(run, actions, k, c, r, q, t);
    UserWasFrozen(run, actions, asked + 1, n, k, q.userId);
    UserWasFrozen(run, actions, asked + 1, k, k, q.userId);
  }

  // The commit changes that user's email and nothing else about anybody, and consumes the request.
  lemma CompletionChangesOneUser(run: seq<State>, actions: seq<Action>, k: nat, c: Id, r: Id, q: Request, t: Id)
    requires IsRun(run, actions) && CompletesAt(run, actions, k, c, r, q, t)
    ensures q.userId in run[k].db.users && q.userId in run[k + 1].db.users
    ensures
      var was, now := run[k].db.users[q.userId], run[k + 1].db.users[q.userId];
      && now.email == q.newEmail && now.emailVerified && now.updatedAt > was.updatedAt && now.updatedAt >= actions[k].at
      && now.isAdmin == was.isAdmin && now.banned == was.banned
    ensures forall u :: u != q.userId ==>
      (u in run[k + 1].db.users <==> u in run[k].db.users)
        && (u in run[k].db.users ==> run[k + 1].db.users[u] == run[k].db.users[u])
    ensures r !in run[k + 1].db.requests
  {
  }

  ghost predicate EmailChangesAt(run: seq<State>, k: int, u: Id) {
    && 0 <= k < |run| - 1 && u in run[k].db.users && u in run[k + 1].db.users
    && run[k + 1].db.users[u].email != run[k].db.users[u].email
  }

  lemma OnlyCompletionsRename(s: State, a: Action, u: Id)
    requires Inv(s) && Enabled(s, a) && !a.WriteUser? && u in s.db.users && u in Apply(s, a).db.users
    requires Apply(s, a).db.users[u].email != s.db.users[u].email
    ensures a.Complete? && Completed(s, a.caller, a.at, a.clock).Ok?
    ensures s.callers[a.caller].request.userId == u
    ensures Apply(s, a).db.users[u].email == s.callers[a.caller].request.newEmail
  {
  }

  // In every interleaving: unless somebody else writes the user row, a user's email
  // changes only by an authorized completion for that user.
  lemma EmailChangesOnlyAuthorized(run: seq<State>, actions: seq<Action>, k: nat, u: Id)
    requires IsRun(run, actions) && k < |actions| && EmailChangesAt(run, k, u) && !actions[k].WriteUser?
    ensures exists c, r, q, t ::
      && CompletesAt(run, actions, k, c, r, q, t) && q.userId == u && Authorized(run, actions, k, c, r, q, t)
      && run[k + 1].db.users[u].email == q.newEmail
  {
    RunStep(run, actions, k);
    var a := actions[k];
    OnlyCompletionsRename(run[k], a, u);
    var caller := run[k].callers[a.caller];
    assert CompletesAt(run, actions, k, a.caller, caller.requestId, caller.request, caller.tokenHash);
    CompletionIsAuthorized(run, actions, k, a.caller, caller.requestId, caller.request, caller.tokenHash);
  }

  // ---------- nothing happens twice ----------

  // Every delivery of a second confirmation has its own idempotency key (id, version).
  lemma DeliveryKeysDiffer(run: seq<State>, actions: seq<Action>, i: nat, k: nat, c: Id, d: Id, r: Id, q: Request,
                           r': Id, q': Request)
    requires IsRun(run, actions) && i < k && ApprovesAt(run, actions, i, c, r, q)
    requires ApprovesAt(run, actions, k, d, r', q')
    ensures (r, q.version + 1) != (r', q'.version + 1)
  {
    if r == r' {
      ApprovalWrites(run, actions, i, c, r, q);
      VersionDeterminesRow(run, actions, i + 1, k, r);
    }
  }

  // Completions for one user carry strictly increasing profile versions, so there is
  // at most one per (user, expectedUserUpdatedAt).
  lemma OneCompletionPerProfileVersion(run: seq<State>, actions: seq<Action>, i: nat, k: nat, c: Id, d: Id, r: Id,
                                       q: Request, t: Id, r': Id, q': Request, t': Id)
    requires IsRun(run, actions) && i < k && CompletesAt(run, actions, i, c, r, q, t)
    requires CompletesAt(run, actions, k, d, r', q', t')
    requires q.userId == q'.userId
    ensures q.expectedUserUpdatedAt < q'.expectedUserUpdatedAt
  {
    CompletionChangesOneUser(run, actions, i, c, r, q, t);
    UserMovesForward(run, actions, i + 1, k, q.userId);
  }

  lemma OneCompletionPerRequest(run: seq<State>, actions: seq<Action>, i: nat, k: nat, c: Id, d: Id, r: Id, q: Request,
                                t: Id, r': Id, q': Request, t': Id)
    requires IsRun(run, actions) && i < k && CompletesAt(run, actions, i, c, r, q, t)
    requires CompletesAt(run, actions, k, d, r', q', t')
    ensures r != r'
  {
    CompletionIsCurrent(run, actions, i, c, r, q, t);
    CompletionIsCurrent(run, actions, k, d, r', q', t');
    RunKeepsInv(run, actions, i);
    assert RowOk(run[i], r);
    IdsGrow(run, actions, i, i + 1);
    CompletionChangesOneUser(run, actions, i, c, r, q, t);
    DeletedStaysDeleted(run, actions, i + 1, k, r);
  }

  // ---------- late cleanups ----------

  // The approval a cleanup belongs to.
  ghost predicate OwnApproval(run: seq<State>, actions: seq<Action>, i: int, c: Id, r: Id, v: nat, n: Id, q: Request) {
    ApprovesAt(run, actions, i, c, r, q) && run[i].callers[c].nextHash == n && v == q.version + 1
  }

  lemma {:induction false} SendingWasApproved(run: seq<State>, actions: seq<Action>, k: nat, c: Id, r: Id, q: Request,
                                              v: nat, n: Id)
    requires IsRun(run, actions) && k < |run| && At(run[k], c, Sending(r, q, v, n))
    ensures exists i :: i < k && OwnApproval(run, actions, i, c, r, v, n, q)
  {
    if k > 0 {
      RunStep(run, actions, k - 1);
      if ActsFor(actions[k - 1]) != Some(c) {
        SendingWasApproved(run, actions, k - 1, c, r, q, v, n);
      } else {
        assert actions[k - 1] == Prepare(c);
        assert OwnApproval(run, actions, k - 1, c, r, v, n, q);
      }
    }
  }

  lemma {:induction false} CleanUpWasApproved(run: seq<State>, actions: seq<Action>, k: nat, c: Id, r: Id, v: nat,
                                              n: Id)
    requires IsRun(run, actions) && k < |run| && At(run[k], c, CleaningUp(r, v, n))
    ensures exists i, q :: i < k && OwnApproval(run, actions, i, c, r, v, n, q)
  {
    if k > 0 {
      RunStep(run, actions, k - 1);
      if ActsFor(actions[k - 1]) != Some(c) {
        CleanUpWasApproved(run, actions, k - 1, c, r, v, n);
      } else {
        var sending := run[k - 1].callers[c];
        SendingWasApproved(run, actions, k - 1, c, sending.requestId, sending.request, sending.claimedVersion,
          sending.nextHash);
      }
    }
  }

  // Step k takes back what step i wrote to row r if the row is still as i left it.
  ghost predicate WithdrawsOnly(run: seq<State>, i: int, k: int, r: Id)
    requires 0 <= i < k < |run| - 1
  {
    && r in run[i + 1].db.requests
    && if r in run[k].db.requests && run[k].db.requests[r] == run[i + 1].db.requests[r]
       then run[k + 1].db == run[k].db.(requests := run[k].db.requests[r := Unapproved(run[k].db.requests[r])])
       else run[k + 1].db == run[k].db
  }

  lemma CleanUpWithdraws(run: seq<State>, actions: seq<Action>, i: nat, k: nat, c: Id, r: Id, v: nat, n: Id, q: Request)
    requires IsRun(run, actions) && i < k < |actions| && actions[k] == CleanUp(c, true)
    requires At(run[k], c, CleaningUp(r, v, n))
    requires OwnApproval(run, actions, i, c, r, v, n, q)
    ensures WithdrawsOnly(run, i, k, r)
  {
    ApprovalWrites(run, actions, i, c, r, q);
    VersionDeterminesRow(run, actions, i + 1, k, r);
    RunStep(run, actions, k);
  }

  // However late a failed delivery is cleaned up: it withdraws exactly the approval
  // of its own call while that row is still untouched, and otherwise does nothing.
  // It never undoes a later approval or touches a completed request.
  lemma CleanUpUndoesOnlyItsOwn(run: seq<State>, actions: seq<Action>, k: nat, c: Id, r: Id, v: nat, n: Id)
    requires IsRun(run, actions) && k < |actions| && actions[k] == CleanUp(c, true)
    requires At(run[k], c, CleaningUp(r, v, n))
    ensures exists i, q :: i < k && OwnApproval(run, actions, i, c, r, v, n, q) && WithdrawsOnly(run, i, k, r)
  {
    CleanUpWasApproved(run, actions, k, c, r, v, n);
    var i, q :| i < k && OwnApproval(run, actions, i, c, r, v, n, q);
    CleanUpWithdraws(run, actions, i, k, c, r, v, n, q);
  }

  // ---------- links stay usable after a failure ----------

  // A failed delivery, once cleaned up, leaves the current link working until the
  // end of the new period: presenting it again issues a new second token.
  lemma CurrentLinkWorksAgain(db: Db, t: Id, n: Id, now: Time, n': Id, now': Time)
    requires Linked(db) && PrepareTx(db, t, n, now).1.SendNew? && AllOrNone(PrepareTx(db, t, n, now).1.request)
    requires now' < now + TTL_MS
    ensures
      var p := PrepareTx(db, t, n, now).1;
      var undone := UndoTx(PrepareTx(db, t, n, now).0, p.requestId, p.claimedVersion, n);
      && Linked(undone) && p.requestId in undone.requests
      && undone.requests[p.requestId] == p.request.(version := p.request.version + 2, expiresAt := now + TTL_MS)
      && PrepareTx(undone, t, n', now').1 == SendNew(p.requestId, undone.requests[p.requestId], p.request.version + 3)
  {
    var r := FindRequest(db, t).value;
    var p := PrepareTx(db, t, n, now).1;
    var undone := UndoTx(PrepareTx(db, t, n, now).0, p.requestId, p.claimedVersion, n);
    assert undone.requests
      == db.requests[r := db.requests[r].(version := db.requests[r].version + 2, expiresAt := now + TTL_MS)];
    assert (set x | x in undone.requests && Holds(undone.requests[x], t))
      == (set x | x in db.requests && Holds(db.requests[x], t));
    SameFind(undone, db, t);
  }

  lemma SameFind(a: Db, b: Db, t: Id)
    requires (set x | x in a.requests && Holds(a.requests[x], t))
        == (set x | x in b.requests && Holds(b.requests[x], t))
    ensures FindRequest(a, t) == FindRequest(b, t)
  {
    assert forall db: Db ::
      (set r | r in db.requests && (db.requests[r].currentTokenHash == t || db.requests[r].newTokenHash == Some(t)))
      == (set x | x in db.requests && Holds(db.requests[x], t));
  }

  // While the profile version is the locked one, the email is exactly the recorded one.
  lemma OriginalEmailIsExact(run: seq<State>, actions: seq<Action>, j: nat, r: Id, q: Request)
    requires IsRun(run, actions) && j < |run| && r in run[j].db.requests && run[j].db.requests[r] == q
    requires q.userId in run[j].db.users && run[j].db.users[q.userId].updatedAt == q.expectedUserUpdatedAt
    ensures run[j].db.users[q.userId].email == q.originalEmail
  {
    EveryRequestWasAsked(run, actions, j, r);
    var asked :| asked < j && AskedAt(run, actions, asked, r, q);
    UserWasFrozen(run, actions, asked + 1, j, j, q.userId);
  }

  // A call whose database is as it found it goes through, if the token is still good:
  // the exact-email comparison at commit never refuses what the normalized one let pass.
  lemma UndisturbedCallCompletes(run: seq<State>, actions: seq<Action>, j: nat, k: nat, c: Id, r: Id, q: Request, t: Id,
                                 at: Time, clock: Time)
    requires IsRun(run, actions) && j < k < |run| && ReadyAt(run, actions, j, c, r, q, t)
    requires At(run[k], c, Completing(r, q, t)) && run[k].db == run[j].db && clock < q.newTokenExpiresAt.value
    ensures Completed(run[k], c, at, clock).Ok?
  {
    RowsAreAllOrNone(run, actions, j, r);
    OriginalEmailIsExact(run, actions, j, r, q);
  }

}
