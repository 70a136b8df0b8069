/**
 The rules behind the email-change transactions, written out on the rows: when each
 transaction goes through, what it leaves, and that no two accounts ever come to
 share a login email.
 */
module EmailChangeRules {
  import opened Wrappers
  import opened Text
  import opened EmailChange
  import opened EmailChangeRuns
  import opened EmailChangeSafety

  // ---------- login emails stay apart ----------

  ghost predicate EmailsApart(db: Db) {
    forall u, v :: u in db.users && v in db.users && EqualInsensitive(db.users[u].email, db.users[v].email) ==> u == v
  }

  // The commit never gives two accounts the same email, whatever the row and the tokens are.
  lemma CompleteKeepsEmailsApart(db: Db, requestId: Id, q: Request, tokenHash: Id, clock: Time, at: Time, next: Db)
    requires EmailsApart(db) && CompleteTx(db, requestId, q, tokenHash, clock, at) == Ok(next)
    ensures EmailsApart(next)
  {
  }

  lemma NoRename(s: State, a: Action, u: Id)
    requires Inv(s) && Enabled(s, a) && !a.WriteUser? && u in Apply(s, a).db.users
    requires a.Complete? ==> Completed(s, a.caller, a.at, a.clock).Err?
    ensures u in s.db.users && Apply(s, a).db.users[u].email == s.db.users[u].email
  {
  }

  lemma StepKeepsEmailsApart(s: State, a: Action)
    requires Inv(s) && Enabled(s, a) && !a.WriteUser? && EmailsApart(s.db)
    ensures EmailsApart(Apply(s, a).db)
  {
    if a.Complete? && Completed(s, a.caller, a.at, a.clock).Ok? {
      var caller := s.callers[a.caller];
      CompleteKeepsEmailsApart(s.db, caller.requestId, caller.request, caller.tokenHash, a.clock,
        FinalUpdatedAt(a.at, caller.request), Apply(s, a).db);
    } else {
      forall u | u in Apply(s, a).db.users
        ensures u in s.db.users && Apply(s, a).db.users[u].email == s.db.users[u].email
      {
        NoRename(s, a, u);
      }
    }
  }

  // Whoever else writes user rows keeps their emails apart.
  ghost predicate OthersKeepApart(run: seq<State>, actions: seq<Action>) {
    forall i {:trigger actions[i]} ::
      0 <= i < |actions| && i + 1 < |run| && actions[i].WriteUser? && EmailsApart(run[i].db) ==>
        EmailsApart(run[i + 1].db)
  }

  lemma RunStepKeepsEmailsApart(run: seq<State>, actions: seq<Action>, k: nat)
    requires IsRun(run, actions) && OthersKeepApart(run, actions) && k < |actions| && EmailsApart(run[k].db)
    ensures EmailsApart(run[k + 1].db)
  {
    RunStep(run, actions, k);
    if !actions[k].WriteUser? {
      StepKeepsEmailsApart(run[k], actions[k]);
    }
  }

  // However requests, confirmations and cleanups interleave.
  lemma {:induction false} EmailsStayApart(run: seq<State>, actions: seq<Action>, k: nat)
    requires IsRun(run, actions) && OthersKeepApart(run, actions) && EmailsApart(run[0].db) && k < |run|
    ensures EmailsApart(run[k].db)
  {
    if k > 0 {
      EmailsStayApart(run, actions, k - 1);
      RunStepKeepsEmailsApart(run, actions, k - 1);
    }
  }

  // ---------- when a link works ----------

  ghost predicate InGoodStanding(db: Db, id: Id, asAdmin: bool) {
    id in db.users && db.users[id].isAdmin == asAdmin && !db.users[id].banned
  }

  ghost predicate FreeFor(db: Db, email: string, userId: Id) {
    forall u :: u in db.users && u != userId ==> !EqualInsensitive(db.users[u].email, email)
  }

  // The requester is an active administrator, the account an active user's and as it
  // was when the change was asked for, and nobody else has the new address.
  ghost predicate InOrder(db: Db, q: Request) {
    && InGoodStanding(db, q.requestedById, true) && InGoodStanding(db, q.userId, false)
    && Normalize(db.users[q.userId].email) == Normalize(q.originalEmail)
    && db.users[q.userId].updatedAt == q.expectedUserUpdatedAt
    && FreeFor(db, q.newEmail, q.userId)
  }

  // Request r, and no other, has the token.
  ghost predicate OnlyHolder(db: Db, r: Id, t: Id) {
    r in db.requests && forall x :: x in db.requests && Holds(db.requests[x], t) <==> x == r
  }

  // Looking a token up finds a request that has it, if there is one.
  lemma LookUp(db: Db, t: Id)
    ensures FindRequest(db, t).Some? ==>
        FindRequest(db, t).value in db.requests && Holds(db.requests[FindRequest(db, t).value], t)
    ensures FindRequest(db, t).None? ==> forall r :: r in db.requests ==> !Holds(db.requests[r], t)
  {
    var found := set r | r in db.requests
      && (db.requests[r].currentTokenHash == t || db.requests[r].newTokenHash == Some(t));
    assert forall r :: r in db.requests && Holds(db.requests[r], t) ==> r in found;
  }

  // In every state of a run a token belongs to one request, so the link leads to it.
  lemma HolderIsFound(s: State, r: Id, t: Id)
    requires Inv(s) && r in s.db.requests && Holds(s.db.requests[r], t)
    ensures OnlyHolder(s.db, r, t) && FindRequest(s.db, t) == Some(r)
  {
    forall x | x in s.db.requests && Holds(s.db.requests[x], t)
      ensures x == r
    {
      assert Held(s, x, t) && Held(s, r, t);
    }
    LookUp(s.db, t);
  }

  // The current link issues a second token exactly when everything is in order, in
  // time and for the first time; the new link is ready exactly when everything is in
  // order, approved and in time. Nothing else is written, except that a current link
  // presented too late removes its request.
  lemma LinkWorksIff(db: Db, t: Id, n: Id, now: Time, r: Id)
    requires Linked(db) && OnlyHolder(db, r, t)
    ensures
      var q, (next, p) := db.requests[r], PrepareTx(db, t, n, now);
      var current, late := q.currentTokenHash == t, q.currentTokenHash == t && q.expiresAt <= now;
      && (p == SendNew(r, q, q.version + 1) <==> InOrder(db, q) && current && !late && q.currentApprovedAt.None?)
      && (p == Ready(r, q) <==>
        InOrder(db, q) && !current && q.currentApprovedAt.Some? && q.newTokenExpiresAt.Some?
        && now < q.newTokenExpiresAt.value)
      && next.users == db.users
      && (!p.SendNew? && !(InOrder(db, q) && late) ==> next == db)
      && (InOrder(db, q) && late ==> p == Refused(LinkExpired) && next.requests == db.requests - {r})
  {
    LookUp(db, t);
  }

  // An approval opens one hour for the new link, and changes this request only.
  lemma ApprovalOpensAnHour(db: Db, t: Id, n: Id, now: Time)
    requires Linked(db) && PrepareTx(db, t, n, now).1.SendNew?
    ensures
      var (next, p) := PrepareTx(db, t, n, now);
      && p.requestId in db.requests && db.requests[p.requestId] == p.request && next.users == db.users
      && next.requests.Keys == db.requests.Keys
      && (forall x :: x in db.requests && x != p.requestId ==> next.requests[x] == db.requests[x])
      && var row := next.requests[p.requestId];
      && SameRequest(row, p.request) && row.version == p.claimedVersion == p.request.version + 1
      && row.currentApprovedAt == Some(now) && row.newTokenHash == Some(n)
      && row.newTokenExpiresAt == Some(now + 3_600_000) && row.expiresAt == now + 3_600_000
  {
  }

  // Why a link is refused.
  ghost predicate RefusedBecause(db: Db, q: Request, t: Id, now: Time, reason: Reason) {
    match reason
    case Invalid => q.currentTokenHash != t && (q.currentApprovedAt.None? || q.newTokenExpiresAt.None?)
    case RequesterInactive => !InGoodStanding(db, q.requestedById, true)
    case Protected => q.userId in db.users && db.users[q.userId].isAdmin
    case Suspended => q.userId in db.users && db.users[q.userId].banned
    case Stale =>
      q.userId in db.users
        && (Normalize(db.users[q.userId].email) != Normalize(q.originalEmail)
            || db.users[q.userId].updatedAt != q.expectedUserUpdatedAt)
    case EmailInUse => !FreeFor(db, q.newEmail, q.userId)
    case LinkExpired =>
      if q.currentTokenHash == t then q.expiresAt <= now
        else q.newTokenExpiresAt.Some? && q.newTokenExpiresAt.value <= now
    case CurrentAlreadyApproved => q.currentTokenHash == t && q.currentApprovedAt.Some?
  }

  // A refusal says something true; a link that is not refused has nothing against it.
  lemma RefusalHasItsReason(db: Db, t: Id, n: Id, now: Time, r: Id, reason: Reason)
    requires Linked(db) && OnlyHolder(db, r, t)
    ensures PrepareTx(db, t, n, now).1 == Refused(reason) ==> RefusedBecause(db, db.requests[r], t, now, reason)
    ensures !PrepareTx(db, t, n, now).1.Refused? ==> !RefusedBecause(db, db.requests[r], t, now, reason)
  {
    LookUp(db, t);
  }

  lemma UnknownLinkIsInvalid(db: Db, t: Id, n: Id, now: Time)
    requires Linked(db)
    requires forall r :: r in db.requests ==> !Holds(db.requests[r], t)
    ensures PrepareTx(db, t, n, now) == (db, Refused(Invalid))
  {
    LookUp(db, t);
  }

  // ---------- when the change is made ----------

  // The request is still the row that was found ready, its second token is good, and
  // both accounts and the address are as they have to be, the email to the letter.
  ghost predicate MayComplete(db: Db, requestId: Id, q: Request, t: Id, clock: Time) {
    && requestId in db.requests && db.requests[requestId].version == q.version
    && db.requests[requestId].newTokenHash == Some(t) && db.requests[requestId].currentApprovedAt.Some?
    && db.requests[requestId].newTokenExpiresAt.Some? && clock < db.requests[requestId].newTokenExpiresAt.value
    && FreeFor(db, q.newEmail, q.userId)
    && InGoodStanding(db, q.requestedById, true) && InGoodStanding(db, q.userId, false)
    && db.users[q.userId].email == q.originalEmail && db.users[q.userId].updatedAt == q.expectedUserUpdatedAt
  }

  lemma CompletesIff(db: Db, requestId: Id, q: Request, t: Id, clock: Time, at: Time)
    ensures CompleteTx(db, requestId, q, t, clock, at).Ok? <==> MayComplete(db, requestId, q, t, clock)
    ensures
      match CompleteTx(db, requestId, q, t, clock, at)
      case Ok(next) =>
        && next.requests == db.requests - {requestId} && next.users.Keys == db.users.Keys
        && (forall u :: u in db.users && u != q.userId ==> next.users[u] == db.users[u])
        && next.users[q.userId]
          == Person(q.newEmail, true, db.users[q.userId].isAdmin, db.users[q.userId].banned, at)
      case Err(ConcurrentConfirmation) =>
        !(requestId in db.requests && db.requests[requestId].version == q.version
          && db.requests[requestId].newTokenHash == Some(t) && db.requests[requestId].currentApprovedAt.Some?
          && db.requests[requestId].newTokenExpiresAt.Some? && clock < db.requests[requestId].newTokenExpiresAt.value)
      case Err(NewEmailInUse) => !FreeFor(db, q.newEmail, q.userId)
      case Err(Inactive) => !InGoodStanding(db, q.requestedById, true)
      case Err(StaleUser) =>
        !(InGoodStanding(db, q.userId, false) && db.users[q.userId].email == q.originalEmail
          && db.users[q.userId].updatedAt == q.expectedUserUpdatedAt)
  {
  }

  // The new profile version is the clock's, or the very next one if the clock is behind.
  lemma ProfileMovesForward(clock: Time, q: Request)
    ensures FinalUpdatedAt(clock, q) > q.expectedUserUpdatedAt && FinalUpdatedAt(clock, q) >= clock
    ensures FinalUpdatedAt(clock, q) == clock || FinalUpdatedAt(clock, q) == q.expectedUserUpdatedAt + 1
  {
  }

  // ---------- when a change can be asked for ----------

  // Somebody can still use the request: its current link, or once approved its new link.
  predicate Usable(q: Request, now: Time) {
    if q.currentApprovedAt.Some? then q.newTokenExpiresAt.None? || now < q.newTokenExpiresAt.value
    else now < q.expiresAt
  }

  // The user is active and as the administrator saw them, the address is a new one,
  // nobody else's, and not promised to anybody else by a request that is still usable.
  ghost predicate MayAsk(db: Db, userId: Id, expectedUpdatedAt: Time, newEmail: string, now: Time) {
    && InGoodStanding(db, userId, false) && db.users[userId].updatedAt == expectedUpdatedAt
    && Normalize(db.users[userId].email) != newEmail && FreeFor(db, newEmail, userId)
    && forall r :: r in db.requests && Usable(db.requests[r], now) && db.requests[r].newEmail == newEmail ==>
         db.requests[r].userId == userId
  }

  lemma UsableAreKept(db: Db, now: Time)
    ensures
      var kept := map r | r in db.requests && !Lapsed(db.requests[r], now) :: db.requests[r];
      forall r :: r in kept <==> r in db.requests && Usable(db.requests[r], now)
  {
  }

  lemma AskedIff(db: Db, admin: Id, u: Id, expected: Time, newEmail: string, requestId: Id, h: Id, now: Time)
    ensures RequestTx(db, admin, u, expected, newEmail, requestId, h, now).Ok? <==>
        MayAsk(db, u, expected, newEmail, now)
  {
    UsableAreKept(db, now);
  }

  // What a request leaves: the user's profile locked under a later version, this
  // request open for one hour, the other usable requests of other users, no others.
  lemma AskedLeaves(db: Db, admin: Id, u: Id, expected: Time, newEmail: string, requestId: Id, h: Id, now: Time,
                    next: Db)
    requires RequestTx(db, admin, u, expected, newEmail, requestId, h, now) == Ok(next)
    ensures u in db.users && next.users.Keys == db.users.Keys
    ensures forall x :: x in db.users && x != u ==> next.users[x] == db.users[x]
    ensures
      var was, user := db.users[u], next.users[u];
      && user == was.(updatedAt := user.updatedAt) && user.updatedAt > was.updatedAt && user.updatedAt >= now
      && (user.updatedAt == now || user.updatedAt == was.updatedAt + 1)
      && requestId in next.requests && next.requests[requestId]
        == Request(u, admin, was.email, was.emailVerified, newEmail, h, None, user.updatedAt, now + 3_600_000, None,
                   None, 1)
    ensures forall r :: r != requestId ==>
      (r in next.requests <==> r in db.requests && Usable(db.requests[r], now) && db.requests[r].userId != u)
      && (r in next.requests ==> next.requests[r] == db.requests[r])
  {
  }

  // Why a request is refused.
  lemma AskRefusedBecause(db: Db, admin: Id, u: Id, expected: Time, newEmail: string, requestId: Id, h: Id, now: Time)
    ensures
      match RequestTx(db, admin, u, expected, newEmail, requestId, h, now)
      case Ok(_) => MayAsk(db, u, expected, newEmail, now)
      case Err(TargetNotFound) => u !in db.users
      case Err(AdminProtected) => u in db.users && db.users[u].isAdmin
      case Err(TargetSuspended) => u in db.users && db.users[u].banned
      case Err(StaleTarget) => u in db.users && db.users[u].updatedAt != expected
      case Err(SameEmail) => u in db.users && Normalize(db.users[u].email) == newEmail
      case Err(EmailReserved) =>
        || !FreeFor(db, newEmail, u)
        || exists r :: r in db.requests && Usable(db.requests[r], now) && db.requests[r].newEmail == newEmail
             && db.requests[r].userId != u
  {
    UsableAreKept(db, now);
  }
}
