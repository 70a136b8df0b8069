/**
 The transactions of the two-party email change: the request
 (app/admin/users/email-change-actions.ts) and its confirmation
 (app/confirm-email-change/actions.ts). A `*Tx` function is what one Serializable
 transaction does to the tables; `Database` is the transaction, write by write.
 */
module EmailChange {
  import opened Wrappers
  import opened Text

  const TTL_MS := 60 * 60 * 1_000

  datatype Person = Person(email: string, emailVerified: bool, isAdmin: bool, banned: bool, updatedAt: Time)

  datatype Request = Request(
    userId: Id, requestedById: Id, originalEmail: string, originalEmailVerified: bool, newEmail: string,
    currentTokenHash: Id, newTokenHash: Option<Id>, expectedUserUpdatedAt: Time, expiresAt: Time,
    currentApprovedAt: Option<Time>, newTokenExpiresAt: Option<Time>, version: nat)

  datatype Db = Db(users: map<Id, Person>, requests: map<Id, Request>)

  datatype Reason =
    Invalid | RequesterInactive | Protected | Suspended | Stale | EmailInUse | LinkExpired | CurrentAlreadyApproved

  datatype Prepared =
    | Refused(reason: Reason)
    | SendNew(requestId: Id, request: Request, claimedVersion: nat)
    | Ready(requestId: Id, request: Request)

  datatype Failure = ConcurrentConfirmation | NewEmailInUse | Inactive | StaleUser

  ghost predicate Linked(db: Db) {
    forall r :: r in db.requests ==> db.requests[r].userId in db.users
  }

  // ---------- first transaction: approve, or find everything ready ----------

  function FindRequest(db: Db, tokenHash: Id): Option<Id> {
    First(set r | r in db.requests
      && (db.requests[r].currentTokenHash == tokenHash || db.requests[r].newTokenHash == Some(tokenHash)))
  }

  predicate ActiveAdmin(db: Db, id: Id) {
    id in db.users && db.users[id].isAdmin && !db.users[id].banned
  }

  predicate EmailTaken(db: Db, email: string, userId: Id) {
    exists u :: u in db.users && u != userId && EqualInsensitive(db.users[u].email, email)
  }

  function CheckRequest(db: Db, q: Request): Option<Reason>
    requires q.userId in db.users
  {
    var user := db.users[q.userId];
    if !ActiveAdmin(db, q.requestedById) then Some(RequesterInactive)
    else if user.isAdmin then Some(Protected)
    else if user.banned then Some(Suspended)
    else if Normalize(user.email) != Normalize(q.originalEmail) || user.updatedAt != q.expectedUserUpdatedAt
      then Some(Stale)
    else if EmailTaken(db, q.newEmail, q.userId) then Some(EmailInUse)
    else None
  }

  function Approved(q: Request, nextHash: Id, now: Time): Request {
    q.(currentApprovedAt := Some(now), newTokenHash := Some(nextHash), newTokenExpiresAt := Some(now + TTL_MS),
       expiresAt := now + TTL_MS, version := q.version + 1)
  }

  // `now` is read once, when the action starts; the next token is made then too.
  function PrepareTx(db: Db, tokenHash: Id, nextHash: Id, now: Time): (Db, Prepared)
    requires Linked(db)
  {
    match FindRequest(db, tokenHash)
    case None => (db, Refused(Invalid))
    case Some(r) =>
      var q := db.requests[r];
      match CheckRequest(db, q)
      case Some(reason) => (db, Refused(reason))
      case None =>
        if q.currentTokenHash == tokenHash then
          if q.expiresAt <= now then (db.(requests := db.requests - {r}), Refused(LinkExpired))
          else if q.currentApprovedAt.Some? then (db, Refused(CurrentAlreadyApproved))
          else (db.(requests := db.requests[r := Approved(q, nextHash, now)]), SendNew(r, q, q.version + 1))
        else if q.currentApprovedAt.None? || q.newTokenExpiresAt.None? then (db, Refused(Invalid))
        else if q.newTokenExpiresAt.value <= now then (db, Refused(LinkExpired))
        else (db, Ready(r, q))
  }

  // ---------- compensation when the second email cannot be delivered ----------

  predicate StillClaimed(db: Db, requestId: Id, claimedVersion: nat, nextHash: Id) {
    requestId in db.requests && db.requests[requestId].version == claimedVersion
      && db.requests[requestId].newTokenHash == Some(nextHash)
  }

  function Unapproved(q: Request): Request {
    q.(currentApprovedAt := None, newTokenHash := None, newTokenExpiresAt := None, version := q.version + 1)
  }

  // The approval is gone, the current token and its expiry are as they were, and
  // anybody who still holds the earlier version will notice.
  predicate WithdrawnFrom(was: Request, q: Request) {
    && q.currentApprovedAt.None? && q.newTokenHash.None? && q.newTokenExpiresAt.None? && q.version > was.version
    && q.userId == was.userId && q.requestedById == was.requestedById && q.originalEmail == was.originalEmail
    && q.newEmail == was.newEmail
    && q.currentTokenHash == was.currentTokenHash && q.expectedUserUpdatedAt == was.expectedUserUpdatedAt
    && q.expiresAt == was.expiresAt
  }

  function UndoTx(db: Db, requestId: Id, claimedVersion: nat, nextHash: Id): Db {
    if StillClaimed(db, requestId, claimedVersion, nextHash)
    then db.(requests := db.requests[requestId := Unapproved(db.requests[requestId])])
    else db
  }

  // ---------- second transaction: the change itself ----------

  predicate StillReady(db: Db, requestId: Id, version: nat, tokenHash: Id, clock: Time) {
    && requestId in db.requests
    && var current := db.requests[requestId];
    && current.newTokenHash == Some(tokenHash) && current.currentApprovedAt.Some?
    && current.newTokenExpiresAt.Some? && current.newTokenExpiresAt.value > clock && current.version == version
  }

  // `where` of the compare-and-set on the user row.
  predicate UserUnchanged(db: Db, q: Request) {
    && q.userId in db.users
    && var user := db.users[q.userId];
    user.email == q.originalEmail && user.updatedAt == q.expectedUserUpdatedAt && !user.isAdmin && !user.banned
  }

  function Renamed(user: Person, q: Request, finalUpdatedAt: Time): Person {
    user.(email := q.newEmail, emailVerified := true, updatedAt := finalUpdatedAt)
  }

  // `q` is the row as read by the first transaction; `clock` is read here.
  function CompleteTx(db: Db, requestId: Id, q: Request, tokenHash: Id, clock: Time,
                      finalUpdatedAt: Time): Result<Db, Failure> {
    if !StillReady(db, requestId, q.version, tokenHash, clock) then Err(ConcurrentConfirmation)
    else if EmailTaken(db, q.newEmail, q.userId) then Err(NewEmailInUse)
    else if !ActiveAdmin(db, q.requestedById) then Err(Inactive)
    else if !UserUnchanged(db, q) then Err(StaleUser)
    else Ok(Db(db.users[q.userId := Renamed(db.users[q.userId], q, finalUpdatedAt)], db.requests - {requestId}))
  }

  // `Math.max(Date.now(), expectedUserUpdatedAt + 1)`
  function FinalUpdatedAt(clock: Time, q: Request): Time {
    if clock > q.expectedUserUpdatedAt + 1 then clock else q.expectedUserUpdatedAt + 1
  }

  // ---------- the administrator's request ----------

  datatype RequestFailure = TargetNotFound | AdminProtected | TargetSuspended | StaleTarget | SameEmail | EmailReserved

  predicate Lapsed(q: Request, now: Time) {
    if q.currentApprovedAt.None? then q.expiresAt <= now
      else q.newTokenExpiresAt.Some? && q.newTokenExpiresAt.value <= now
  }

  function CheckTarget(db: Db, userId: Id, expectedUpdatedAt: Time, newEmail: string): Option<RequestFailure> {
    if userId !in db.users then Some(TargetNotFound)
    else
      var target := db.users[userId];
      if target.isAdmin then Some(AdminProtected)
      else if target.banned then Some(TargetSuspended)
      else if target.updatedAt != expectedUpdatedAt then Some(StaleTarget)
      else if Normalize(target.email) == newEmail then Some(SameEmail)
      else if EmailTaken(db, newEmail, userId) then Some(EmailReserved)
      else if exists r :: r in db.requests && db.requests[r].newEmail == newEmail && db.requests[r].userId != userId
        then Some(EmailReserved)
      else None
  }

  // The profile version is locked by moving `updatedAt` forward.
  function RequestTx(db: Db, adminId: Id, userId: Id, expectedUpdatedAt: Time, newEmail: string, requestId: Id,
                     currentHash: Id, now: Time): Result<Db, RequestFailure> {
    var kept := map r | r in db.requests && !Lapsed(db.requests[r], now) :: db.requests[r];
    match CheckTarget(db.(requests := kept), userId, expectedUpdatedAt, newEmail)
    case Some(failure) => Err(failure)
    case None =>
      var target := db.users[userId];
      var lockedAt := if now > expectedUpdatedAt + 1 then now else expectedUpdatedAt + 1;
      var others := map r | r in kept && kept[r].userId != userId :: kept[r];
      Ok(Db(db.users[userId := target.(updatedAt := lockedAt)],
            others[requestId :=
              Request(userId, adminId, target.email, target.emailVerified, newEmail, currentHash, None,
                      lockedAt, now + TTL_MS, None, None, 1)]))
  }

  // ---------- write by write ----------

  class Database {
    var users: map<Id, Person>
    var requests: map<Id, Request>

    function Contents(): Db
      reads this
    {
      Db(users, requests)
    }

    constructor (db: Db)
      ensures Contents() == db
    {
      users := db.users;
      requests := db.requests;
    }

    // `updateMany({ where: { id, version, currentApprovedAt: null } })`
    method ApproveWhere(requestId: Id, version: nat, nextHash: Id, now: Time) returns (count: nat)
      modifies this`requests
      ensures count == if requestId in old(requests) && old(requests)[requestId].version == version
                        && old(requests)[requestId].currentApprovedAt.None? then 1 else 0
      ensures requests == if count == 1
          then old(requests)[requestId := Approved(old(requests)[requestId], nextHash, now)] else old(requests)
    {
      count := 0;
      if requestId in requests && requests[requestId].version == version
        && requests[requestId].currentApprovedAt.None? {
        requests := requests[requestId := Approved(requests[requestId], nextHash, now)];
        count := 1;
      }
    }

    // `deleteMany({ where: { id, version } })`
    method DeleteWhere(requestId: Id, version: nat) returns (count: nat)
      modifies this`requests
      ensures count == if requestId in old(requests) && old(requests)[requestId].version == version then 1 else 0
      ensures requests == if count == 1 then old(requests) - {requestId} else old(requests)
    {
      count := 0;
      if requestId in requests && requests[requestId].version == version {
        requests := requests - {requestId};
        count := 1;
      }
    }

    // The update count is always one here: the row was read in the same transaction.
    method Prepare(tokenHash: Id, nextHash: Id, now: Time) returns (prepared: Prepared)
      requires Linked(Contents())
      modifies this
      ensures (Contents(), prepared) == PrepareTx(old(Contents()), tokenHash, nextHash, now)
    {
      var found := FindRequest(Contents(), tokenHash);
      if found.None? { return Refused(Invalid); }
      var r, q := found.value, requests[found.value];
      var refused := CheckRequest(Contents(), q);
      if refused.Some? { return Refused(refused.value); }
      if q.currentTokenHash == tokenHash {
        if q.expiresAt <= now {
          var deleted := DeleteWhere(r, q.version);
          return Refused(LinkExpired);
        }
        if q.currentApprovedAt.Some? { return Refused(CurrentAlreadyApproved); }
        var approved := ApproveWhere(r, q.version, nextHash, now);
        assert approved == 1;
        return SendNew(r, q, q.version + 1);
      }
      if q.newTokenHash != Some(tokenHash) || q.currentApprovedAt.None? || q.newTokenExpiresAt.None? {
        return Refused(Invalid);
      }
      if q.newTokenExpiresAt.value <= now { return Refused(LinkExpired); }
      return Ready(r, q);
    }

    method UndoApproval(requestId: Id, claimedVersion: nat, nextHash: Id)
      modifies this`requests
      ensures Contents() == UndoTx(old(Contents()), requestId, claimedVersion, nextHash)
      ensures requests.Keys == old(requests).Keys
      ensures forall r :: r in requests && r != requestId ==> requests[r] == old(requests)[r]
      ensures requests != old(requests) <==>
        requestId in old(requests) && old(requests)[requestId].version == claimedVersion
          && old(requests)[requestId].newTokenHash == Some(nextHash)
      ensures requests != old(requests) ==> WithdrawnFrom(old(requests)[requestId], requests[requestId])
    {
      if requestId in requests && requests[requestId].version == claimedVersion
        && requests[requestId].newTokenHash == Some(nextHash) {
        requests := requests[requestId := Unapproved(requests[requestId])];
      }
    }

    // `updateMany` on the user row: the compare-and-set.
    method RenameWhere(q: Request, finalUpdatedAt: Time) returns (count: nat)
      modifies this`users
      ensures count == if UserUnchanged(Db(old(users), requests), q) then 1 else 0
      ensures users == if count == 1 then old(users)[q.userId := Renamed(old(users)[q.userId], q, finalUpdatedAt)]
          else old(users)
    {
      count := 0;
      if q.userId in users {
        var user := users[q.userId];
        if user.email == q.originalEmail && user.updatedAt == q.expectedUserUpdatedAt && !user.isAdmin && !user.banned {
          users := users[q.userId := Renamed(user, q, finalUpdatedAt)];
          count := 1;
        }
      }
    }

    // A thrown error rolls everything back.
    method Complete(requestId: Id, q: Request, tokenHash: Id, clock: Time, finalUpdatedAt: Time)
      returns (failure: Option<Failure>)
      modifies this
      ensures
        match CompleteTx(old(Contents()), requestId, q, tokenHash, clock, finalUpdatedAt)
        case Ok(db) => failure == None && Contents() == db
        case Err(e) => failure == Some(e) && Contents() == old(Contents())
    {
      if !StillReady(Contents(), requestId, q.version, tokenHash, clock) { return Some(ConcurrentConfirmation); }
      if EmailTaken(Contents(), q.newEmail, q.userId) { return Some(NewEmailInUse); }
      if !ActiveAdmin(Contents(), q.requestedById) { return Some(Inactive); }
      var changed := RenameWhere(q, finalUpdatedAt);
      if changed != 1 { return Some(StaleUser); }
      var consumed := DeleteWhere(requestId, q.version);
      assert consumed == 1;
      return None;
    }
  }
}
