/**
 * The administrator accounts (`users` table): the public view of a user, login and
 * registration, token re-validation, the listing, and update and deletion with the guards
 * that keep at least one usable account. Password hashing and token signing are outside the
 * model: a hash or a comparison result is passed in.
 */
module Auth {
  import opened Wrappers
  import opened Text
  import opened Js
  import opened Schema
  import opened Tables
  import Sorting

  /** `email.trim().toLowerCase()`. */
  function NormalizeEmail(email: string): (r: string)
    ensures |r| <= |email|
  {
    ToLower(Trim(email))
  }

  /** Normalising an already normalised email changes nothing. */
  lemma NormalizeEmailIdempotent(email: string)
    ensures NormalizeEmail(NormalizeEmail(email)) == NormalizeEmail(email)
  {
    var t := Trim(email);
    var n := ToLower(t);
    if n != [] {
      ToLowerCharSpace(t[0]);
      ToLowerCharSpace(t[|t| - 1]);
    }
    TrimOfTrimmed(n);
    ToLowerIdempotent(t);
  }

  /** What `sanitizeUser` exposes of a row: everything but the password hash. */
  datatype PublicUser = PublicUser(id: int, nome: string, email: string, isActive: bool, createdAt: int, updatedAt: Option<int>)

  /** `sanitizeUser`: `nome` falls back to `email`; only a stored 0 reads as inactive. */
  function SanitizeUser(id: int, u: User): (r: PublicUser)
    ensures r.id == id && r.email == u.email && r.createdAt == u.createdAt && r.updatedAt == u.updatedAt
    ensures r.nome == if u.nome.Some? && u.nome.value != "" then u.nome.value else u.email
    ensures r.isActive <==> u.isActive != Some(0)
  {
    PublicUser(id, if u.nome.Some? && u.nome.value != "" then u.nome.value else u.email, u.email,
               u.isActive != Some(0), u.createdAt, u.updatedAt)
  }

  /** The public view does not depend on the password hash. */
  lemma SanitizeIgnoresPassword(id: int, u: User, other: string)
    ensures SanitizeUser(id, u.(password := other)) == SanitizeUser(id, u)
  {
  }

  /** Some user has this email. */
  predicate EmailInUse(users: map<int, User>, email: string) {
    exists k :: k in users && users[k].email == email
  }

  /** `SELECT * FROM users WHERE email = ?`. */
  method UserByEmail(users: map<int, User>, email: string) returns (k: Option<int>)
    ensures k.None? <==> !EmailInUse(users, email)
    ensures k.Some? ==> k.value in users && users[k.value].email == email
  {
    k := Find(users, (u: User) => u.email == email);
    if k.None? {
      forall i | i in users
        ensures users[i].email != email
      {
        assert !(((u: User) => u.email == email)(users[i]));
      }
    }
  }

  /** Under unique emails, an email names at most one user. */
  lemma EmailNamesOneUser(users: map<int, User>, email: string, a: int, b: int)
    requires UserEmailsUnique(users)
    requires a in users && b in users && users[a].email == email && users[b].email == email
    ensures a == b
  {
  }

  /**
   * `login`: 500 without an email in the body; 401 for an unknown (normalised) email; 403
   * for a deactivated account, before the password is looked at; 500 without a password,
   * on which `bcrypt.compare` throws; 401 for a wrong password; otherwise 200 with the public
   * view of the account. `passwordMatches` stands for `bcrypt.compare`; signing the token is
   * not modelled.
   */
  method Login(db: Database, email: Option<string>, password: Option<string>, passwordMatches: (string, string) -> bool)
    returns (status: int, id: Option<int>, user: Option<PublicUser>)
    ensures email.None? ==> status == SERVER_ERROR
    ensures email.Some? && !EmailInUse(db.users, NormalizeEmail(email.value)) ==>
      status == UNAUTHORIZED && id.None? && user.None?
    ensures email.Some? && EmailInUse(db.users, NormalizeEmail(email.value)) ==>
      && id.Some? && id.value in db.users && db.users[id.value].email == NormalizeEmail(email.value)
      && (status == FORBIDDEN <==> db.users[id.value].isActive == Some(0))
      && (status == SERVER_ERROR <==> db.users[id.value].isActive != Some(0) && password.None?)
      && (status == UNAUTHORIZED <==>
            db.users[id.value].isActive != Some(0) && password.Some?
            && !passwordMatches(password.value, db.users[id.value].password))
      && (status == OK <==>
            db.users[id.value].isActive != Some(0) && password.Some?
            && passwordMatches(password.value, db.users[id.value].password))
    ensures status == OK <==> user.Some?
    ensures status == OK ==> id.Some? && id.value in db.users && user.value == SanitizeUser(id.value, db.users[id.value])
  {
    if email.None? {
      return SERVER_ERROR, None, None;
    }
    var found := UserByEmail(db.users, NormalizeEmail(email.value));
    if found.None? {
      return UNAUTHORIZED, None, None;
    }
    var u := db.users[found.value];
    if u.isActive == Some(0) {
      return FORBIDDEN, found, None;
    }
    if password.None? {
      return SERVER_ERROR, found, None;
    }
    if !passwordMatches(password.value, u.password) {
      return UNAUTHORIZED, found, None;
    }
    return OK, found, Some(SanitizeUser(found.value, u));
  }

  /** Writing row `id` with an email no other user holds keeps emails unique. */
  lemma {:induction false} EmailWriteKeepsUnique(users: map<int, User>, id: int, u: User)
    requires UserEmailsUnique(users)
    requires !EmailInUse(users - {id}, u.email)
    ensures UserEmailsUnique(users[id := u])
  {
    var next := users[id := u];
    forall a, b | a in next && b in next && a != b
      ensures next[a].email != next[b].email
    {
      if a == id {
        assert b in users - {id};
      } else if b == id {
        assert a in users - {id};
      }
    }
  }

  /**
   * `register`: 500 when `nome` or `email` is missing (they are trimmed before anything
   * else); 409 when the normalised email is taken; 500 with nothing written when there is no
   * password, on which `bcrypt.hash` throws; otherwise 201 and one new active account.
   * `hashed` is what `bcrypt.hash` produced (`None` when it threw); `hasUpdatedAt` says whether
   * the table has that column, whose default is the insertion time.
   */
  method Register(db: Database, nome: Option<string>, email: Option<string>, hashed: Option<string>, hasUpdatedAt: bool, now: int)
    returns (status: int, id: Option<int>)
    modifies db`users
    ensures nome.None? || email.None? ==> status == SERVER_ERROR && id.None? && db.users == old(db.users)
    ensures nome.Some? && email.Some? && EmailInUse(old(db.users), NormalizeEmail(email.value)) ==>
      status == CONFLICT && id.None? && db.users == old(db.users)
    ensures nome.Some? && email.Some? && !EmailInUse(old(db.users), NormalizeEmail(email.value)) && hashed.None? ==>
      status == SERVER_ERROR && id.None? && db.users == old(db.users)
    ensures nome.Some? && email.Some? && !EmailInUse(old(db.users), NormalizeEmail(email.value)) && hashed.Some? ==>
      && status == CREATED && id.Some? && id.value !in old(db.users)
      && db.users == old(db.users)[id.value := User(Some(Trim(nome.value)), NormalizeEmail(email.value), hashed.value, Some(1), now,
                                                    if hasUpdatedAt then Some(now) else None)]
    ensures UserEmailsUnique(old(db.users)) ==> UserEmailsUnique(db.users)
  {
    if nome.None? || email.None? {
      return SERVER_ERROR, None;
    }
    var normalized := NormalizeEmail(email.value);
    var existing := UserByEmail(db.users, normalized);
    if existing.Some? {
      return CONFLICT, None;
    }
    if hashed.None? {
      return SERVER_ERROR, None;
    }
    var newId := NextRowId(db.users.Keys);
    var row := User(Some(Trim(nome.value)), normalized, hashed.value, Some(1), now, if hasUpdatedAt then Some(now) else None);
    if UserEmailsUnique(db.users) {
      assert db.users - {newId} == db.users;
      EmailWriteKeepsUnique(db.users, newId, row);
    }
    db.users := db.users[newId := row];
    return CREATED, Some(newId);
  }

  /** `verifyToken`: the token's user must still exist and be active (401 otherwise). */
  function VerifyToken(users: map<int, User>, tokenUserId: int): (r: (int, Option<PublicUser>))
    ensures r.0 == OK <==> tokenUserId in users && users[tokenUserId].isActive != Some(0)
    ensures r.0 != OK ==> r.0 == UNAUTHORIZED && r.1.None?
    ensures r.0 == OK ==> tokenUserId in users && r.1 == Some(SanitizeUser(tokenUserId, users[tokenUserId]))
  {
    if tokenUserId !in users || users[tokenUserId].isActive == Some(0) then (UNAUTHORIZED, None)
    else (OK, Some(SanitizeUser(tokenUserId, users[tokenUserId])))
  }

  /** `ORDER BY createdAt DESC`. */
  predicate NewestFirst(a: (int, User), b: (int, User)) {
    a.1.createdAt >= b.1.createdAt
  }

  /** One entry of `listUsers`: without an `updatedAt` column, `createdAt AS updatedAt`. */
  function ListedUser(id: int, u: User, hasUpdatedAt: bool): (r: PublicUser)
    ensures r.id == id && r.createdAt == u.createdAt
    ensures r == SanitizeUser(id, if hasUpdatedAt then u else u.(updatedAt := Some(u.createdAt)))
  {
    SanitizeUser(id, if hasUpdatedAt then u else u.(updatedAt := Some(u.createdAt)))
  }

  /** `listUsers`: every account once, newest first, each through `sanitizeUser`. */
  method ListUsers(db: Database, hasUpdatedAt: bool) returns (views: seq<PublicUser>)
    ensures |views| == |db.users|
    ensures forall k :: k in db.users ==> exists i :: 0 <= i < |views| && views[i].id == k
    ensures forall i :: 0 <= i < |views| ==>
      views[i].id in db.users && views[i] == ListedUser(views[i].id, db.users[views[i].id], hasUpdatedAt)
    ensures forall i, j :: 0 <= i < j < |views| ==> views[i].id != views[j].id && views[i].createdAt >= views[j].createdAt
  {
    var rows := OrderedRows(db.users, NewestFirst);
    assert Sorting.SortedBy(rows, NewestFirst);
    views := seq(|rows|, i requires 0 <= i < |rows| => ListedUser(rows[i].0, rows[i].1, hasUpdatedAt));
    UserListing(rows, views, db.users, hasUpdatedAt);
  }

  lemma UserListing(rows: seq<(int, User)>, views: seq<PublicUser>, users: map<int, User>, hasUpdatedAt: bool)
    requires Enumerates(rows, users) && |rows| == |users|
    requires Sorting.SortedBy(rows, NewestFirst)
    requires |views| == |rows| && forall i :: 0 <= i < |rows| ==> views[i] == ListedUser(rows[i].0, rows[i].1, hasUpdatedAt)
    ensures forall k :: k in users ==> exists i :: 0 <= i < |views| && views[i].id == k
    ensures forall i :: 0 <= i < |views| ==>
      views[i].id in users && views[i] == ListedUser(views[i].id, users[views[i].id], hasUpdatedAt)
    ensures forall i, j :: 0 <= i < j < |views| ==> views[i].id != views[j].id && views[i].createdAt >= views[j].createdAt
  {
    forall k | k in users
      ensures exists i :: 0 <= i < |views| && views[i].id == k
    {
      var i :| 0 <= i < |rows| && rows[i].0 == k;
      assert views[i].id == k;
    }
    forall i, j | 0 <= i < j < |views|
      ensures views[i].id != views[j].id && views[i].createdAt >= views[j].createdAt
    {
      assert NewestFirst(rows[i], rows[j]);
    }
  }

  /**
   * The body of `PUT /users/:id`: `Unset` for an absent key; `password` is "" when missing
   * or falsy; `isActive` is the parsed JSON value sent.
   */
  datatype UpdateUserRequest = UpdateUserRequest(nome: Field<string>, email: Field<string>, password: string, isActive: Field<Json>)

  /** `isActive === true || isActive === 1 || isActive === '1' || isActive === 'true'`. */
  predicate ActiveValue(v: Json) {
    v == JBool(true) || v == JNumber(1.0) || v == JString("1") || v == JString("true")
  }

  /** The body names at least one column to write. */
  predicate HasUpdate(req: UpdateUserRequest) {
    req.nome.Set? || req.email.Set? || req.password != "" || req.isActive.Set?
  }

  /** The row after the UPDATE: only the supplied columns change. */
  function UpdatedUser(u: User, req: UpdateUserRequest, hashed: string, hasUpdatedAt: bool, now: int): (r: User)
    ensures r.nome == (if req.nome.Set? then Some(Trim(req.nome.value)) else u.nome)
    ensures r.email == (if req.email.Set? then NormalizeEmail(req.email.value) else u.email)
    ensures r.password == (if req.password != "" then hashed else u.password)
    ensures r.isActive == (if req.isActive.Set? then Some(if ActiveValue(req.isActive.value) then 1 else 0) else u.isActive)
    ensures r.createdAt == u.createdAt
    ensures r.updatedAt == (if hasUpdatedAt then Some(now) else u.updatedAt)
  {
    u.(nome := if req.nome.Set? then Some(Trim(req.nome.value)) else u.nome,
       email := if req.email.Set? then NormalizeEmail(req.email.value) else u.email,
       password := if req.password != "" then hashed else u.password,
       isActive := if req.isActive.Set? then Some(if ActiveValue(req.isActive.value) then 1 else 0) else u.isActive,
       updatedAt := if hasUpdatedAt then Some(now) else u.updatedAt)
  }

  /**
   * `updateUser`, as `callerId` (the token's user): 404 for an unknown id; 409 when the new
   * email belongs to another account; 400 when the callers would deactivate themselves; 400
   * when no field is given; otherwise the update. Emails stay unique, and an active caller
   * stays active.
   */
  method UpdateUser(db: Database, callerId: int, userId: int, req: UpdateUserRequest, hashed: string, hasUpdatedAt: bool, now: int)
    returns (status: int)
    modifies db`users
    ensures userId !in old(db.users) ==> status == NOT_FOUND && db.users == old(db.users)
    ensures userId in old(db.users) ==>
      if req.email.Set? && EmailInUse(old(db.users) - {userId}, NormalizeEmail(req.email.value)) then
        status == CONFLICT && db.users == old(db.users)
      else if req.isActive.Set? && !ActiveValue(req.isActive.value) && userId == callerId then
        status == BAD_REQUEST && db.users == old(db.users)
      else if !HasUpdate(req) then
        status == BAD_REQUEST && db.users == old(db.users)
      else
        status == OK && db.users == old(db.users)[userId := UpdatedUser(old(db.users)[userId], req, hashed, hasUpdatedAt, now)]
    ensures UserEmailsUnique(old(db.users)) ==> UserEmailsUnique(db.users)
    ensures callerId in old(db.users) && old(db.users)[callerId].isActive != Some(0) ==>
      callerId in db.users && db.users[callerId].isActive != Some(0)
  {
    if userId !in db.users {
      return NOT_FOUND;
    }
    if req.email.Set? {
      var inUse := UserByEmail(db.users - {userId}, NormalizeEmail(req.email.value));
      if inUse.Some? {
        return CONFLICT;
      }
    }
    if req.isActive.Set? && !ActiveValue(req.isActive.value) && userId == callerId {
      return BAD_REQUEST;
    }
    if !HasUpdate(req) {
      return BAD_REQUEST;
    }
    var next := UpdatedUser(db.users[userId], req, hashed, hasUpdatedAt, now);
    if UserEmailsUnique(db.users) {
      EmailWriteKeepsUnique(db.users, userId, next);
    }
    db.users := db.users[userId := next];
    return OK;
  }

  /**
   * `deleteUser`, as `callerId`: 400 for the caller's own account, 404 for an unknown id, 400
   * when it is the only account; otherwise that row goes. The caller's account and at least
   * one account always remain when there was one.
   */
  method DeleteUser(db: Database, callerId: int, userId: int) returns (status: int)
    modifies db`users
    ensures userId == callerId ==> status == BAD_REQUEST && db.users == old(db.users)
    ensures userId != callerId && userId !in old(db.users) ==> status == NOT_FOUND && db.users == old(db.users)
    ensures userId != callerId && userId in old(db.users) && |old(db.users)| <= 1 ==>
      status == BAD_REQUEST && db.users == old(db.users)
    ensures userId != callerId && userId in old(db.users) && |old(db.users)| > 1 ==>
      status == OK && db.users == old(db.users) - {userId}
    ensures callerId in old(db.users) ==> callerId in db.users
    ensures |old(db.users)| >= 1 ==> |db.users| >= 1
  {
    if userId == callerId {
      return BAD_REQUEST;
    }
    if userId !in db.users {
      return NOT_FOUND;
    }
    if |db.users| <= 1 {
      return BAD_REQUEST;
    }
    db.users := db.users - {userId};
    return OK;
  }
}
