/** The users table behind backend/clients/user/user_clients.go. The package
    global `Db` becomes an object: a map from primary key to row plus the
    AUTO_INCREMENT counter. A driver failure is an input (`readOk`,
    `writeOk`), not something the model decides. */
module UserClient {
  import opened Wrappers
  import opened Model

  /** `gorm.ErrRecordNotFound` is `RecordNotFound`; `fmt.Errorf("...: %w", e)`
      is `Wrapped(e)`, which no longer compares equal to the bare error. */
  datatype DbError =
    | RecordNotFound
    | DriverFailure
    | DuplicateKey
    | DuplicateEmail
    | Wrapped(cause: DbError)

  /** The rows whose UPDATE really changes `is_admin`: MySQL reports changed
      rows, not matched rows, as RowsAffected. */
  function PromoteRowsAffected(rows: map<int, UserModel>, userID: int): (n: nat)
    ensures n == 1 <==> userID in rows && !rows[userID].isAdmin
    ensures n <= 1
  {
    if userID in rows && !rows[userID].isAdmin then 1 else 0
  }

  /** The gap between "no row affected" and "no row matched": promoting an
      existing admin affects nothing, so it is reported as not found. */
  lemma PromoteExistingAdminAffectsNoRow(rows: map<int, UserModel>, userID: int)
    requires userID in rows && rows[userID].isAdmin
    ensures PromoteRowsAffected(rows, userID) == 0
  {
  }

  class UserStore {
    var rows: map<int, UserModel>
    var nextId: int

    /** Every row sits under its own id, ids are non-zero and below the
        AUTO_INCREMENT counter, and emails are unique. */
    ghost predicate Valid()
      reads this
    {
      && 1 <= nextId
      && (forall id :: id in rows ==> rows[id].id == id && id != 0 && id < nextId)
      && EmailsUnique(rows)
    }

    constructor ()
      ensures Valid() && rows == map[] && nextId == 1
    {
      rows := map[];
      nextId := 1;
    }

    /** `GetUserByUsername`: despite its name, a lookup by email. Every failure,
        not-found included, is wrapped and comes with an empty record. */
    method GetUserByUsername(username: string, readOk: bool) returns (user: UserModel, err: Option<DbError>)
      requires Valid()
      ensures err.None? <==> readOk && HasEmail(rows, username)
      ensures err.None? ==> user == rows[IdOfEmail(rows, username)]
      ensures err.Some? ==> user == EmptyUser
      ensures err.Some? ==>
        err.value == Wrapped(if readOk then RecordNotFound else DriverFailure)
    {
      if !readOk {
        return EmptyUser, Some(Wrapped(DriverFailure));
      }
      if id :| id in rows && rows[id].email == username {
        IdOfEmailUnique(rows, username, id);
        user, err := rows[id], None;
      } else {
        user, err := EmptyUser, Some(Wrapped(RecordNotFound));
      }
    }

    /** `GetUserByID`: a missing row is a wrapped error; a fetched row whose ID
        is 0 is reported with the bare not-found error. */
    method GetUserByID(id: int, readOk: bool) returns (user: UserModel, err: Option<DbError>)
      ensures err.None? <==> readOk && id in rows && rows[id].id != 0
      ensures err.None? ==> user == rows[id]
      ensures err.Some? ==> user == EmptyUser
      ensures !readOk ==> err == Some(Wrapped(DriverFailure))
      ensures readOk && id !in rows ==> err == Some(Wrapped(RecordNotFound))
      ensures readOk && id in rows && rows[id].id == 0 ==> err == Some(RecordNotFound)
    {
      if !readOk {
        return EmptyUser, Some(Wrapped(DriverFailure));
      }
      if id !in rows {
        return EmptyUser, Some(Wrapped(RecordNotFound));
      }
      user := rows[id];
      if user.id == 0 {
        return EmptyUser, Some(RecordNotFound);
      }
      err := None;
    }

    /** `GetUserByEmail`: not-found comes back as the bare
        `gorm.ErrRecordNotFound`, any other failure wrapped. */
    method GetUserByEmail(email: string, readOk: bool) returns (user: UserModel, err: Option<DbError>)
      requires Valid()
      ensures err.None? <==> readOk && HasEmail(rows, email)
      ensures err.None? ==> user == rows[IdOfEmail(rows, email)] && user.id != 0
      ensures err.Some? ==> user == EmptyUser
      ensures err == Some(RecordNotFound) <==> readOk && !HasEmail(rows, email)
      ensures !readOk ==> err == Some(Wrapped(DriverFailure))
    {
      if !readOk {
        return EmptyUser, Some(Wrapped(DriverFailure));
      }
      if id :| id in rows && rows[id].email == email {
        IdOfEmailUnique(rows, email, id);
        user, err := rows[id], None;
      } else {
        user, err := EmptyUser, Some(RecordNotFound);
      }
    }

    /** `CreateUser`: `Db.Create` assigns the next AUTO_INCREMENT id when the
        record's ID is 0 and stamps `createdAt` when it is the zero time. The
        insert fails on a driver error, a taken key or a taken email. */
    method CreateUser(user: UserModel, now: int, writeOk: bool) returns (created: UserModel, err: Option<DbError>)
      requires Valid()
      modifies this
      ensures Valid()
      ensures var id := if user.id == 0 then old(nextId) else user.id;
        && (err.None? <==> writeOk && id !in old(rows) && !HasEmail(old(rows), user.email))
        && (err.None? ==>
             && created == user.(id := id, createdAt := if user.createdAt == ZeroTime then now else user.createdAt)
             && rows == old(rows)[id := created]
             && nextId == if id < old(nextId) then old(nextId) else id + 1)
      ensures err.Some? ==> created == EmptyUser && rows == old(rows) && nextId == old(nextId)
      ensures !writeOk ==> err == Some(Wrapped(DriverFailure))
      ensures writeOk && err.Some? ==>
        err.value == Wrapped(if (if user.id == 0 then old(nextId) else user.id) in old(rows) then DuplicateKey else DuplicateEmail)
    {
      var id := if user.id == 0 then nextId else user.id;
      if !writeOk {
        return EmptyUser, Some(Wrapped(DriverFailure));
      }
      if id in rows {
        return EmptyUser, Some(Wrapped(DuplicateKey));
      }
      if k :| k in rows && rows[k].email == user.email {
        return EmptyUser, Some(Wrapped(DuplicateEmail));
      }
      created := user.(id := id, createdAt := if user.createdAt == ZeroTime then now else user.createdAt);
      rows := rows[id := created];
      if id >= nextId {
        nextId := id + 1;
      }
      err := None;
    }

    /** `VerifyUserEmail`: on the row with this id (if any), sets `is_verified`
        and NULLs the code and its expiry; no other column or row changes. An
        id that matches nothing is not an error. */
    method VerifyUserEmail(userID: int, writeOk: bool) returns (err: Option<DbError>)
      requires Valid()
      modifies this
      ensures Valid() && nextId == old(nextId)
      ensures err.None? <==> writeOk
      ensures err.Some? ==> err.value == Wrapped(DriverFailure) && rows == old(rows)
      ensures err.None? ==>
        rows == if userID in old(rows) then old(rows)[userID := MarkVerified(old(rows)[userID])] else old(rows)
    {
      if !writeOk {
        return Some(Wrapped(DriverFailure));
      }
      if userID in rows {
        rows := rows[userID := MarkVerified(rows[userID])];
      }
      err := None;
    }

    /** `UpdateVerificationCode`: on the row with this id (if any), replaces
        the code and its expiry; no other column or row changes. */
    method UpdateVerificationCode(userID: int, code: string, expiresAt: int, writeOk: bool) returns (err: Option<DbError>)
      requires Valid()
      modifies this
      ensures Valid() && nextId == old(nextId)
      ensures err.None? <==> writeOk
      ensures err.Some? ==> err.value == Wrapped(DriverFailure) && rows == old(rows)
      ensures err.None? ==>
        rows == if userID in old(rows)
                then old(rows)[userID := old(rows)[userID].(verificationCode := Some(code), codeExpiresAt := Some(expiresAt))]
                else old(rows)
    {
      if !writeOk {
        return Some(Wrapped(DriverFailure));
      }
      if userID in rows {
        rows := rows[userID := rows[userID].(verificationCode := Some(code), codeExpiresAt := Some(expiresAt))];
      }
      err := None;
    }

    /** `PromoteToAdmin` as written: sets `is_admin` on the row with this id
        and reports not-found when RowsAffected is 0, which also happens when
        the user is already an admin. Nothing else changes. */
    method PromoteToAdmin(userID: int, writeOk: bool) returns (err: Option<DbError>)
      requires Valid()
      modifies this
      ensures Valid() && nextId == old(nextId)
      ensures !writeOk ==> err == Some(Wrapped(DriverFailure))
      ensures writeOk ==>
        err == if PromoteRowsAffected(old(rows), userID) == 0 then Some(RecordNotFound) else None
      ensures rows == if writeOk && userID in old(rows)
                      then old(rows)[userID := old(rows)[userID].(isAdmin := true)]
                      else old(rows)
    {
      if !writeOk {
        return Some(Wrapped(DriverFailure));
      }
      var affected := PromoteRowsAffected(rows, userID);
      if userID in rows {
        rows := rows[userID := rows[userID].(isAdmin := true)];
      }
      err := if affected == 0 then Some(RecordNotFound) else None;
    }

    /** Promotion with the intended report: not-found exactly when no row has
        this id, success for a user who is already an admin. */
    method PromoteToAdminMatched(userID: int, writeOk: bool) returns (err: Option<DbError>)
      requires Valid()
      modifies this
      ensures Valid() && nextId == old(nextId)
      ensures !writeOk ==> err == Some(Wrapped(DriverFailure))
      ensures writeOk ==> (err == Some(RecordNotFound) <==> userID !in old(rows))
      ensures writeOk ==> (err.None? <==> userID in old(rows))
      ensures rows == if writeOk && userID in old(rows)
                      then old(rows)[userID := old(rows)[userID].(isAdmin := true)]
                      else old(rows)
    {
      if !writeOk {
        return Some(Wrapped(DriverFailure));
      }
      if userID !in rows {
        return Some(RecordNotFound);
      }
      rows := rows[userID := rows[userID].(isAdmin := true)];
      err := None;
    }
  }
}
