/**
 Every interleaving of the email-change protocol: any number of confirmers at any
 point of `confirmAdminEmailChangeAction`, failing deliveries and late cleanups,
 new requests, writes to the user rows, and logins.
 */
module EmailChangeRuns {
  import opened Wrappers
  import opened EmailChange

  // ---------- the step system ----------

  datatype Session = Session(userId: Id, token: Id)

  // Where one call of an action is. `now` and the next token are fixed at the start.
  datatype Caller =
    | Asking(adminId: Id)
    | Started(tokenHash: Id, nextHash: Id, now: Time)
    | Sending(requestId: Id, request: Request, claimedVersion: nat, nextHash: Id)
    | CleaningUp(requestId: Id, claimedVersion: nat, nextHash: Id)
    | Revoking(requestId: Id, request: Request, tokenHash: Id)
    | Completing(requestId: Id, request: Request, tokenHash: Id)
    | Finished

  // `tokens` are the token hashes seen so far, `ids` the request ids ever used.
  datatype State = State(db: Db, sessions: set<Session>, callers: map<Id, Caller>, tokens: set<Id>, ids: set<Id>)

  // `Enter` is the role check of the asking action, `AskChange` its transaction.
  datatype Action =
    | Enter(caller: Id, adminId: Id)
    | Start(caller: Id, tokenHash: Id, nextHash: Id, now: Time)
    | Prepare(caller: Id)
    | Deliver(caller: Id, delivered: bool)
    | CleanUp(caller: Id, commits: bool)
    | Revoke(caller: Id, revoked: bool, left: set<Session>)
    | Complete(caller: Id, at: Time, clock: Time)
    | AskChange(caller: Id, userId: Id, expectedUpdatedAt: Time, newEmail: string, requestId: Id, currentHash: Id,
      now: Time)
    | Withdraw(requestId: Id)
    | WriteUser(userId: Id, row: Person)
    | Login(session: Session)

  predicate At(s: State, c: Id, caller: Caller) {
    c in s.callers && s.callers[c] == caller
  }

  // Clocks are unconstrained. Tokens and request ids are fresh; any other write to
  // a user row moves its `updatedAt` forward.
  ghost predicate Enabled(s: State, a: Action) {
    match a
    case Enter(c, admin) => c !in s.callers && ActiveAdmin(s.db, admin)
    case Start(c, t, n, _) => c !in s.callers && n !in s.tokens && n != t
    case Prepare(c) => c in s.callers && s.callers[c].Started? && Linked(s.db)
    case Deliver(c, _) => c in s.callers && s.callers[c].Sending?
    case CleanUp(c, _) => c in s.callers && s.callers[c].CleaningUp?
    case Revoke(c, _, left) => c in s.callers && s.callers[c].Revoking? && left <= s.sessions
    case Complete(c, _, _) => c in s.callers && s.callers[c].Completing?
    case AskChange(c, u, _, _, r, h, _) => c in s.callers && s.callers[c].Asking? && s.callers[c].adminId != u
      && r !in s.ids && h !in s.tokens
    case Withdraw(_) => true
    case WriteUser(u, row) => u in s.db.users ==> row.updatedAt > s.db.users[u].updatedAt
    case Login(_) => true
  }

  function AfterPrepare(p: Prepared, tokenHash: Id, nextHash: Id): Caller {
    match p
    case Refused(_) => Finished
    case SendNew(r, q, v) => Sending(r, q, v, nextHash)
    case Ready(r, q) => Revoking(r, q, tokenHash)
  }

  ghost function Prepared(s: State, c: Id): (Db, Prepared)
    requires Enabled(s, Prepare(c))
  {
    PrepareTx(s.db, s.callers[c].tokenHash, s.callers[c].nextHash, s.callers[c].now)
  }

  function Completed(s: State, c: Id, at: Time, clock: Time): Result<Db, Failure>
    requires c in s.callers && s.callers[c].Completing?
  {
    var caller := s.callers[c];
    CompleteTx(s.db, caller.requestId, caller.request, caller.tokenHash, clock, FinalUpdatedAt(at, caller.request))
  }

  ghost function DbAfter(s: State, a: Action): Db
    requires Enabled(s, a)
  {
    match a
    case Prepare(c) => Prepared(s, c).0
    case CleanUp(c, commits) =>
      var caller := s.callers[c];
      if commits then UndoTx(s.db, caller.requestId, caller.claimedVersion, caller.nextHash) else s.db
    case Complete(c, at, clock) => (match Completed(s, c, at, clock) case Ok(db) => db case Err(_) => s.db)
    case AskChange(c, u, e, newEmail, r, h, now) =>
      (match RequestTx(s.db, s.callers[c].adminId, u, e, newEmail, r, h, now) case Ok(db) => db case Err(_) => s.db)
    case Withdraw(r) => s.db.(requests := s.db.requests - {r})
    case WriteUser(u, row) => s.db.(users := s.db.users[u := row])
    case _ => s.db
  }

  ghost function CallerAfter(s: State, a: Action): Caller
    requires Enabled(s, a) && ActsFor(a).Some?
  {
    match a
    case Enter(_, admin) => Asking(admin)
    case Start(_, t, n, now) => Started(t, n, now)
    case Prepare(c) => AfterPrepare(Prepared(s, c).1, s.callers[c].tokenHash, s.callers[c].nextHash)
    case Deliver(c, delivered) =>
      if delivered then Finished
        else CleaningUp(s.callers[c].requestId, s.callers[c].claimedVersion, s.callers[c].nextHash)
    case Revoke(c, revoked, _) =>
      if revoked then Completing(s.callers[c].requestId, s.callers[c].request, s.callers[c].tokenHash) else Finished
    case _ => Finished
  }

  function ActsFor(a: Action): Option<Id> {
    match a
    case Enter(c, _) => Some(c)
    case AskChange(c, _, _, _, _, _, _) => Some(c)
    case Start(c, _, _, _) => Some(c)
    case Prepare(c) => Some(c)
    case Deliver(c, _) => Some(c)
    case CleanUp(c, _) => Some(c)
    case Revoke(c, _, _) => Some(c)
    case Complete(c, _, _) => Some(c)
    case _ => None
  }

  ghost function Apply(s: State, a: Action): State
    requires Enabled(s, a)
  {
    State(DbAfter(s, a),
          match a
            case Revoke(c, true, _) => (set x | x in s.sessions && x.userId != s.callers[c].request.userId)
            case Revoke(_, false, left) => left
            case Login(x) => s.sessions + {x}
            case _ => s.sessions,
          if ActsFor(a).Some? then s.callers[ActsFor(a).value := CallerAfter(s, a)] else s.callers,
          match a
            case Start(_, t, n, _) => s.tokens + {t, n}
            case AskChange(_, _, _, _, _, h, _) => s.tokens + {h}
            case _ => s.tokens,
          if a.AskChange? then s.ids + {a.requestId} else s.ids)
  }

  // ---------- the invariant ----------

  // Approval date, second token and its expiry come and go together.
  predicate AllOrNone(q: Request) {
    q.currentApprovedAt.Some? == q.newTokenHash.Some? == q.newTokenExpiresAt.Some?
  }

  // What a request never changes.
  predicate SameRequest(a: Request, b: Request) {
    a.userId == b.userId && a.requestedById == b.requestedById && a.originalEmail == b.originalEmail
      && a.originalEmailVerified == b.originalEmailVerified && a.newEmail == b.newEmail
      && a.currentTokenHash == b.currentTokenHash && a.expectedUserUpdatedAt == b.expectedUserUpdatedAt
  }

  predicate Holds(q: Request, h: Id) {
    q.currentTokenHash == h || q.newTokenHash == Some(h)
  }

  predicate RowOk(s: State, r: Id)
    requires r in s.db.requests
  {
    var q := s.db.requests[r];
    && r in s.ids && AllOrNone(q) && q.userId in s.db.users && q.version >= 1
    && q.currentTokenHash in s.tokens
    && (q.newTokenHash.Some? ==> q.newTokenHash.value in s.tokens && q.newTokenHash.value != q.currentTokenHash)
  }

  // A row read earlier: as long as the version is the same, so is the row.
  predicate NotOlder(s: State, r: Id, q: Request) {
    r in s.ids && (r in s.db.requests ==>
      && SameRequest(s.db.requests[r], q) && s.db.requests[r].version >= q.version
      && (s.db.requests[r].version == q.version ==> s.db.requests[r] == q))
  }

  predicate Claimed(s: State, r: Id, version: nat, nextHash: Id) {
    r in s.ids && nextHash in s.tokens && (r in s.db.requests ==>
      && s.db.requests[r].version >= version
      && (s.db.requests[r].version == version ==> s.db.requests[r].newTokenHash == Some(nextHash)))
  }

  ghost predicate CallerOk(s: State, c: Id)
    requires c in s.callers
  {
    match s.callers[c]
    case Asking(_) => true
    case Started(t, n, _) => t in s.tokens && n in s.tokens && n != t
      && (forall r :: r in s.db.requests ==> !Holds(s.db.requests[r], n))
    case Sending(r, q, v, n) => v == q.version + 1 && Claimed(s, r, v, n)
    case CleaningUp(r, v, n) => Claimed(s, r, v, n)
    case Revoking(r, q, t) => NotOlder(s, r, q) && q.newTokenHash == Some(t)
    case Completing(r, q, t) => NotOlder(s, r, q) && q.newTokenHash == Some(t)
    case Finished => true
  }

  predicate Held(s: State, r: Id, h: Id) {
    r in s.db.requests && Holds(s.db.requests[r], h)
  }

  predicate Makes(s: State, c: Id, n: Id) {
    c in s.callers && s.callers[c].Started? && s.callers[c].nextHash == n
  }

  // No token hash belongs to two requests; no two calls make the same one.
  ghost predicate TokensApart(s: State) {
    && (forall r, q, h :: Held(s, r, h) && Held(s, q, h) ==> r == q)
    && (forall c, d, n :: Makes(s, c, n) && Makes(s, d, n) ==> c == d)
  }

  ghost predicate Inv(s: State) {
    && (forall r :: r in s.db.requests ==> RowOk(s, r))
    && (forall c :: c in s.callers ==> CallerOk(s, c))
    && TokensApart(s)
  }

  // How one transaction may touch one request row.
  ghost predicate RowStep(s: State, next: State, r: Id) {
    if r in s.db.requests then
      r in next.db.requests ==>
        && SameRequest(next.db.requests[r], s.db.requests[r])
        && (next.db.requests[r] == s.db.requests[r] || next.db.requests[r].version == s.db.requests[r].version + 1)
    else r in next.db.requests ==> r !in s.ids
  }

  lemma StepRow(s: State, a: Action, r: Id)
    requires Inv(s) && Enabled(s, a)
    ensures RowStep(s, Apply(s, a), r)
  {
  }

  lemma StepKeepsRows(s: State, a: Action, r: Id)
    requires Inv(s) && Enabled(s, a) && r in Apply(s, a).db.requests
    ensures RowOk(Apply(s, a), r)
  {
    if r in s.db.requests {
      assert RowOk(s, r);
    }
    if a.Prepare? {
      assert CallerOk(s, a.caller);
    }
  }

  lemma NotOlderKept(s: State, next: State, r: Id, q: Request)
    requires NotOlder(s, r, q) && RowStep(s, next, r) && s.ids <= next.ids
    ensures NotOlder(next, r, q)
  {
  }

  lemma ClaimedKept(s: State, next: State, r: Id, version: nat, nextHash: Id)
    requires Claimed(s, r, version, nextHash) && RowStep(s, next, r) && s.ids <= next.ids && s.tokens <= next.tokens
    ensures Claimed(next, r, version, nextHash)
  {
  }

  // Where a request's tokens come from.
  lemma NewHolds(s: State, a: Action, r: Id, h: Id)
    requires Inv(s) && Enabled(s, a) && Held(Apply(s, a), r, h)
    ensures || Held(s, r, h)
            || (a.Prepare? && s.callers[a.caller].nextHash == h)
            || (a.AskChange? && a.currentHash == h && a.requestId == r)
  {
  }

  lemma OnlyOneNew(s: State, a: Action, r: Id, q: Id, h: Id)
    requires Inv(s) && Enabled(s, a) && a.Prepare? && s.callers[a.caller].nextHash == h
    requires Held(Apply(s, a), r, h) && Held(Apply(s, a), q, h)
    ensures r == q
  {
  }

  lemma StepKeepsTokensApart(s: State, a: Action)
    requires Inv(s) && Enabled(s, a)
    ensures TokensApart(Apply(s, a))
  {
    var next := Apply(s, a);
    forall r, q, h | Held(next, r, h) && Held(next, q, h)
      ensures r == q
    {
      NewHolds(s, a, r, h);
      NewHolds(s, a, q, h);
      if a.Prepare? && s.callers[a.caller].nextHash == h {
        OnlyOneNew(s, a, r, q, h);
      } else if a.AskChange? && a.currentHash == h {
        FreshIsNotHeld(s, h);
      } else {
        assert Held(s, r, h) && Held(s, q, h);
      }
    }
    StartedApart(s, a);
  }

  lemma FreshIsNotHeld(s: State, h: Id)
    requires Inv(s) && h !in s.tokens
    ensures forall r :: !Held(s, r, h)
    ensures forall c :: c in s.callers && s.callers[c].Started? ==> s.callers[c].nextHash != h
  {
  }

  lemma StartedApart(s: State, a: Action)
    requires Inv(s) && Enabled(s, a)
    ensures forall c, d, n :: Makes(Apply(s, a), c, n) && Makes(Apply(s, a), d, n) ==> c == d
  {
    if a.Start? {
      FreshIsNotHeld(s, a.nextHash);
    }
    assert forall c, n :: Makes(Apply(s, a), c, n) ==> Makes(s, c, n) || (a.Start? && c == a.caller && n == a.nextHash);
  }

  lemma OtherCallerKept(s: State, a: Action, c: Id)
    requires Inv(s) && Enabled(s, a) && c in s.callers && ActsFor(a) != Some(c)
    ensures Apply(s, a).callers[c] == s.callers[c] && CallerOk(Apply(s, a), c)
  {
    var next := Apply(s, a);
    assert CallerOk(s, c);
    match s.callers[c] {
      case Asking(_) =>
      case Started(_, n, _) =>
        forall r | r in next.db.requests
          ensures !Holds(next.db.requests[r], n)
        {
          assert Makes(s, c, n);
          assert a.Prepare? ==> Makes(s, a.caller, s.callers[a.caller].nextHash);
          if Held(next, r, n) {
            NewHolds(s, a, r, n);
          }
        }
      case Sending(r, q, v, n) => StepRow(s, a, r); ClaimedKept(s, next, r, v, n);
      case CleaningUp(r, v, n) => StepRow(s, a, r); ClaimedKept(s, next, r, v, n);
      case Revoking(r, q, _) => StepRow(s, a, r); NotOlderKept(s, next, r, q);
      case Completing(r, q, _) => StepRow(s, a, r); NotOlderKept(s, next, r, q);
      case Finished =>
    }
  }

  lemma ActingCallerOk(s: State, a: Action, c: Id)
    requires Inv(s) && Enabled(s, a) && ActsFor(a) == Some(c)
    ensures CallerOk(Apply(s, a), c)
  {
  }

  lemma StepKeepsInv(s: State, a: Action)
    requires Inv(s) && Enabled(s, a)
    ensures Inv(Apply(s, a))
  {
    var next := Apply(s, a);
    forall r | r in next.db.requests
      ensures RowOk(next, r)
    {
      StepKeepsRows(s, a, r);
    }
    forall c | c in next.callers
      ensures CallerOk(next, c)
    {
      if ActsFor(a) == Some(c) {
        ActingCallerOk(s, a, c);
      } else {
        OtherCallerKept(s, a, c);
      }
    }
    StepKeepsTokensApart(s, a);
  }

  // ---------- runs ----------

  ghost predicate IsStep(s: State, a: Action, next: State) {
    Enabled(s, a) && next == Apply(s, a)
  }

  // A run starts with no request and no call in progress, over any users.
  ghost predicate IsRun(run: seq<State>, actions: seq<Action>) {
    && |run| == |actions| + 1 && run[0].db.requests == map[] && run[0].callers == map[]
    && forall i {:trigger actions[i]} :: 0 <= i < |actions| ==> IsStep(run[i], actions[i], run[i + 1])
  }

  lemma {:induction false} RunKeepsInv(run: seq<State>, actions: seq<Action>, k: nat)
    requires IsRun(run, actions) && k < |run|
    ensures Inv(run[k])
  {
    if k > 0 {
      RunKeepsInv(run, actions, k - 1);
      assert IsStep(run[k - 1], actions[k - 1], run[k - 1 + 1]);
      StepKeepsInv(run[k - 1], actions[k - 1]);
    }
  }

  lemma RunStep(run: seq<State>, actions: seq<Action>, k: nat)
    requires IsRun(run, actions) && k < |actions|
    ensures Inv(run[k]) && Enabled(run[k], actions[k]) && run[k + 1] == Apply(run[k], actions[k])
  {
    RunKeepsInv(run, actions, k);
    assert IsStep(run[k], actions[k], run[k + 1]);
  }

  // ---------- versions ----------

  lemma {:induction false} IdsGrow(run: seq<State>, actions: seq<Action>, i: nat, k: nat)
    requires IsRun(run, actions) && i <= k < |run|
    ensures run[i].ids <= run[k].ids && run[i].tokens <= run[k].tokens
    decreases k
  {
    if i < k {
      IdsGrow(run, actions, i, k - 1);
      RunStep(run, actions, k - 1);
    }
  }

  // The version number determines the row, forever: there is no ABA. A request id
  // that was deleted never comes back.
  lemma {:induction false} VersionDeterminesRow(run: seq<State>, actions: seq<Action>, i: nat, k: nat, r: Id)
    requires IsRun(run, actions) && i <= k < |run| && r in run[i].db.requests
    ensures NotOlder(run[k], r, run[i].db.requests[r])
    decreases k
  {
    if i == k {
      RunKeepsInv(run, actions, i);
      assert RowOk(run[i], r);
    } else {
      VersionDeterminesRow(run, actions, i, k - 1, r);
      RunStep(run, actions, k - 1);
      StepRow(run[k - 1], actions[k - 1], r);
      NotOlderKept(run[k - 1], run[k], r, run[i].db.requests[r]);
    }
  }

  lemma {:induction false} DeletedStaysDeleted(run: seq<State>, actions: seq<Action>, i: nat, k: nat, r: Id)
    requires IsRun(run, actions) && i <= k < |run| && r in run[i].ids && r !in run[i].db.requests
    ensures r !in run[k].db.requests
    decreases k
  {
    if i < k {
      DeletedStaysDeleted(run, actions, i, k - 1, r);
      IdsGrow(run, actions, i, k - 1);
      RunStep(run, actions, k - 1);
      StepRow(run[k - 1], actions[k - 1], r);
    }
  }

  lemma RowsAreAllOrNone(run: seq<State>, actions: seq<Action>, k: nat, r: Id)
    requires IsRun(run, actions) && k < |run| && r in run[k].db.requests
    ensures AllOrNone(run[k].db.requests[r])
  {
    RunKeepsInv(run, actions, k);
    assert RowOk(run[k], r);
  }

  // ---------- what a step did ----------

  // Step i is the approval of request r: call c presented the current token of row
  // q in time, and its own next token went into the row.
  ghost predicate ApprovesAt(run: seq<State>, actions: seq<Action>, i: int, c: Id, r: Id, q: Request) {
    && 0 <= i < |actions| && i < |run| && actions[i] == Prepare(c) && c in run[i].callers && run[i].callers[c].Started?
    && var caller := run[i].callers[c];
    && r in run[i].db.requests && run[i].db.requests[r] == q && Linked(run[i].db)
    && PrepareTx(run[i].db, caller.tokenHash, caller.nextHash, caller.now).1 == SendNew(r, q, q.version + 1)
    && caller.tokenHash == q.currentTokenHash && caller.now < q.expiresAt && q.currentApprovedAt.None?
  }

  lemma ApprovalWrites(run: seq<State>, actions: seq<Action>, i: nat, c: Id, r: Id, q: Request)
    requires IsRun(run, actions) && ApprovesAt(run, actions, i, c, r, q)
    ensures r in run[i + 1].db.requests
    ensures run[i + 1].db.requests[r] == Approved(q, run[i].callers[c].nextHash, run[i].callers[c].now)
  {
  }

  // A row with a second token was approved by an earlier step, which made exactly this row.
  ghost predicate ApprovedEarlier(run: seq<State>, actions: seq<Action>, k: int, row: Request, r: Id) {
    exists i, c, q ::
      i < k && ApprovesAt(run, actions, i, c, r, q)
      && row == Approved(q, run[i].callers[c].nextHash, run[i].callers[c].now)
  }

  lemma ChangedByApproval(run: seq<State>, actions: seq<Action>, i: nat, r: Id)
    requires IsRun(run, actions) && i < |actions|
    requires r in run[i + 1].db.requests && run[i + 1].db.requests[r].newTokenHash.Some?
    requires !(r in run[i].db.requests && run[i].db.requests[r] == run[i + 1].db.requests[r])
    ensures ApprovedEarlier(run, actions, i + 1, run[i + 1].db.requests[r], r)
  {
    RunStep(run, actions, i);
    ApprovalWrites(run, actions, i, actions[i].caller, r, run[i].db.requests[r]);
  }

  lemma EarlierStays(run: seq<State>, actions: seq<Action>, k: nat, row: Request, r: Id)
    requires ApprovedEarlier(run, actions, k, row, r)
    ensures ApprovedEarlier(run, actions, k + 1, row, r)
  {
  }

  lemma {:induction false} SecondTokenWasApproved(run: seq<State>, actions: seq<Action>, k: nat, r: Id)
    requires IsRun(run, actions) && k < |run| && r in run[k].db.requests && run[k].db.requests[r].newTokenHash.Some?
    ensures ApprovedEarlier(run, actions, k, run[k].db.requests[r], r)
  {
    if k > 0 {
      if r in run[k - 1].db.requests && run[k - 1].db.requests[r] == run[k].db.requests[r] {
        SecondTokenWasApproved(run, actions, k - 1, r);
        EarlierStays(run, actions, k - 1, run[k].db.requests[r], r);
      } else {
        ChangedByApproval(run, actions, k - 1, r);
      }
    }
  }

  // Step j is where call c found row q of request r ready for its token t, unexpired.
  ghost predicate ReadyAt(run: seq<State>, actions: seq<Action>, j: int, c: Id, r: Id, q: Request, t: Id) {
    && 0 <= j < |actions| && j < |run| && actions[j] == Prepare(c) && c in run[j].callers && run[j].callers[c].Started?
    && r in run[j].db.requests && run[j].db.requests[r] == q && Linked(run[j].db)
    && PrepareTx(run[j].db, t, run[j].callers[c].nextHash, run[j].callers[c].now).1 == Ready(r, q)
    && run[j].callers[c].tokenHash == t && q.newTokenHash == Some(t)
    && q.newTokenExpiresAt.Some? && run[j].callers[c].now < q.newTokenExpiresAt.value
  }

  // Step m revoked every session of q's user, for call c.
  ghost predicate RevokesAt(run: seq<State>, actions: seq<Action>, m: int, c: Id, r: Id, q: Request, t: Id) {
    && 0 <= m < |actions| && |run| == |actions| + 1 && actions[m].Revoke? && actions[m].caller == c
    && actions[m].revoked
    && At(run[m], c, Revoking(r, q, t)) && forall x :: x in run[m + 1].sessions ==> x.userId != q.userId
  }

  lemma {:induction false} RevokingWasReady(run: seq<State>, actions: seq<Action>, k: nat, c: Id, r: Id, q: Request,
                                            t: Id)
    requires IsRun(run, actions) && k < |run| && At(run[k], c, Revoking(r, q, t))
    ensures exists j :: j < k && ReadyAt(run, actions, j, c, r, q, t)
  {
    if k > 0 {
      RunStep(run, actions, k - 1);
      var a := actions[k - 1];
      if ActsFor(a) != Some(c) {
        RevokingWasReady(run, actions, k - 1, c, r, q, t);
      } else {
        assert a == Prepare(c);
        assert ReadyAt(run, actions, k - 1, c, r, q, t);
      }
    }
  }

  lemma {:induction false} CompletingWasRevoked(run: seq<State>, actions: seq<Action>, k: nat, c: Id, r: Id, q: Request,
                                                t: Id)
    requires IsRun(run, actions) && k < |run| && At(run[k], c, Completing(r, q, t))
    ensures exists m :: m < k && RevokesAt(run, actions, m, c, r, q, t)
  {
    if k > 0 {
      RunStep(run, actions, k - 1);
      var a := actions[k - 1];
      if ActsFor(a) != Some(c) {
        CompletingWasRevoked(run, actions, k - 1, c, r, q, t);
      } else {
        assert RevokesAt(run, actions, k - 1, c, r, q, t);
      }
    }
  }

  // ---------- sessions ----------

  predicate LogsInAt(actions: seq<Action>, l: int, x: Session) {
    0 <= l < |actions| && actions[l] == Login(x)
  }

  // Whatever session of that user is alive later came from a login after the revocation.
  lemma {:induction false} SurvivorLoggedIn(run: seq<State>, actions: seq<Action>, m: nat, k: nat, c: Id, r: Id,
                                            q: Request, t: Id, x: Session)
    requires IsRun(run, actions) && RevokesAt(run, actions, m, c, r, q, t) && m < k < |run|
    requires x in run[k].sessions && x.userId == q.userId
    ensures exists l :: m < l < k && LogsInAt(actions, l, x)
    decreases k
  {
    if k - 1 > m {
      RunStep(run, actions, k - 1);
      if x in run[k - 1].sessions {
        SurvivorLoggedIn(run, actions, m, k - 1, c, r, q, t, x);
      } else {
        assert LogsInAt(actions, k - 1, x);
      }
    }
  }

  // ---------- the request behind it ----------

  // Step e is the role check of call c: adminId was an administrator in good standing.
  ghost predicate EntersAt(run: seq<State>, actions: seq<Action>, e: int, c: Id, adminId: Id) {
    0 <= e < |actions| && |run| == |actions| + 1 && actions[e] == Enter(c, adminId) && ActiveAdmin(run[e].db, adminId)
  }

  lemma {:induction false} AskingEntered(run: seq<State>, actions: seq<Action>, k: nat, c: Id, adminId: Id)
    requires IsRun(run, actions) && k < |run| && At(run[k], c, Asking(adminId))
    ensures exists e :: e < k && EntersAt(run, actions, e, c, adminId)
  {
    if k > 0 {
      RunStep(run, actions, k - 1);
      if ActsFor(actions[k - 1]) != Some(c) {
        AskingEntered(run, actions, k - 1, c, adminId);
      } else {
        assert EntersAt(run, actions, k - 1, c, adminId);
      }
    }
  }

  ghost predicate EnteredEarlier(run: seq<State>, actions: seq<Action>, i: int, c: Id, adminId: Id) {
    exists e :: e < i && EntersAt(run, actions, e, c, adminId)
  }

  // Step i is the request that created row r, locking the user row, of a call that
  // had entered as an administrator.
  ghost predicate AskedAt(run: seq<State>, actions: seq<Action>, i: int, r: Id, q: Request) {
    && 0 <= i < |actions| && |run| == |actions| + 1 && actions[i].AskChange? && actions[i].requestId == r
    && actions[i].userId == q.userId && actions[i].newEmail == q.newEmail && q.requestedById != q.userId
    && EnteredEarlier(run, actions, i, actions[i].caller, q.requestedById)
    && q.userId in run[i].db.users && q.userId in run[i + 1].db.users
    && run[i + 1].db.users[q.userId].updatedAt == q.expectedUserUpdatedAt
    && run[i].db.users[q.userId].email == q.originalEmail && run[i + 1].db.users[q.userId].email == q.originalEmail
    && run[i].db.users[q.userId].updatedAt < q.expectedUserUpdatedAt
  }

  lemma AskCreates(run: seq<State>, actions: seq<Action>, i: nat, r: Id)
    requires IsRun(run, actions) && i < |actions| && r in run[i + 1].db.requests && r !in run[i].db.requests
    ensures AskedAt(run, actions, i, r, run[i + 1].db.requests[r])
  {
    RunStep(run, actions, i);
    AskingEntered(run, actions, i, actions[i].caller, run[i].callers[actions[i].caller].adminId);
  }

  lemma {:induction false} EveryRequestWasAsked(run: seq<State>, actions: seq<Action>, k: nat, r: Id)
    requires IsRun(run, actions) && k < |run| && r in run[k].db.requests
    ensures exists i :: i < k && AskedAt(run, actions, i, r, run[k].db.requests[r])
  {
    if k > 0 {
      RunStep(run, actions, k - 1);
      StepRow(run[k - 1], actions[k - 1], r);
      if r in run[k - 1].db.requests {
        EveryRequestWasAsked(run, actions, k - 1, r);
        var i :| i < k - 1 && AskedAt(run, actions, i, r, run[k - 1].db.requests[r]);
        assert AskedAt(run, actions, i, r, run[k].db.requests[r]);
      } else {
        AskCreates(run, actions, k - 1, r);
      }
    }
  }

  // ---------- user rows ----------

  // A user row only changes by moving `updatedAt` forward.
  ghost predicate UserStep(s: State, next: State, u: Id) {
    u in s.db.users ==>
      u in next.db.users && (next.db.users[u] == s.db.users[u] || next.db.users[u].updatedAt > s.db.users[u].updatedAt)
  }

  lemma StepUser(s: State, a: Action, u: Id)
    requires Inv(s) && Enabled(s, a)
    ensures UserStep(s, Apply(s, a), u)
  {
  }

  lemma {:induction false} UserMovesForward(run: seq<State>, actions: seq<Action>, i: nat, k: nat, u: Id)
    requires IsRun(run, actions) && i <= k < |run| && u in run[i].db.users
    ensures u in run[k].db.users
    ensures run[k].db.users[u] == run[i].db.users[u] || run[k].db.users[u].updatedAt > run[i].db.users[u].updatedAt
    decreases k
  {
    if i < k {
      UserMovesForward(run, actions, i, k - 1, u);
      RunStep(run, actions, k - 1);
      StepUser(run[k - 1], actions[k - 1], u);
    }
  }

  // Same `updatedAt` at both ends: the row was the same all the way.
  lemma UserWasFrozen(run: seq<State>, actions: seq<Action>, i: nat, n: nat, k: nat, u: Id)
    requires IsRun(run, actions) && i <= n <= k < |run| && u in run[i].db.users && u in run[k].db.users
    requires run[i].db.users[u].updatedAt == run[k].db.users[u].updatedAt
    ensures u in run[n].db.users && run[n].db.users[u] == run[i].db.users[u]
  {
    UserMovesForward(run, actions, i, n, u);
    UserMovesForward(run, actions, n, k, u);
  }
}
