/** The `users` table row and the account lifecycle read off it
    (backend/model/user_model.go). Times are integer Unix seconds. */
module Model {
  import opened Wrappers

  /** One row of the users table. The two nullable columns are `Option`s:
      `verificationCode` and `codeExpiresAt` are set to NULL on verification. */
  datatype UserModel = UserModel(
    id: int,
    email: string,
    passwordHash: string,
    firstName: string,
    lastName: string,
    isAdmin: bool,
    isVerified: bool,
    createdAt: int,
    verificationCode: Option<string>,
    codeExpiresAt: Option<int>)

  /** Go's zero `time.Time` (0001-01-01 00:00:00 UTC) in Unix seconds. */
  const ZeroTime: int := -62135596800

  /** `model.UserModel{}`: what every failing lookup returns. */
  const EmptyUser: UserModel :=
    UserModel(0, "", "", "", "", false, false, ZeroTime, None, None)

  /** The `VerificationCode` string field after a read: NULL reads as "". */
  function CodeRead(u: UserModel): (s: string)
    ensures u.verificationCode.Some? ==> s == u.verificationCode.value
    ensures u.verificationCode.None? ==> s == ""
  {
    match u.verificationCode
    case Some(c) => c
    case None => ""
  }

  /** The `CodeExpiresAt` field after a read: NULL reads as the zero time. */
  function ExpiryRead(u: UserModel): (t: int)
    ensures u.codeExpiresAt.Some? ==> t == u.codeExpiresAt.value
    ensures u.codeExpiresAt.None? ==> t == ZeroTime
  {
    match u.codeExpiresAt
    case Some(e) => e
    case None => ZeroTime
  }

  /** The effect of a successful verification on a row: verified, code and
      expiry cleared, every other column kept. */
  function MarkVerified(u: UserModel): (v: UserModel)
    ensures v.isVerified && v.verificationCode.None? && v.codeExpiresAt.None?
    ensures v.(isVerified := u.isVerified, verificationCode := u.verificationCode,
               codeExpiresAt := u.codeExpiresAt) == u
  {
    u.(isVerified := true, verificationCode := None, codeExpiresAt := None)
  }

  /** The `unique` constraint on the email column. */
  ghost predicate EmailsUnique(rows: map<int, UserModel>)
  {
    forall i, j :: i in rows && j in rows && rows[i].email == rows[j].email ==> i == j
  }

  ghost predicate HasEmail(rows: map<int, UserModel>, email: string)
  {
    exists id :: id in rows && rows[id].email == email
  }

  /** The key of the row holding `email`. */
  ghost function IdOfEmail(rows: map<int, UserModel>, email: string): (id: int)
    requires HasEmail(rows, email)
    ensures id in rows && rows[id].email == email
  {
    var id :| id in rows && rows[id].email == email; id
  }

  /** Under the unique constraint there is only one such row. */
  lemma IdOfEmailUnique(rows: map<int, UserModel>, email: string, id: int)
    requires EmailsUnique(rows)
    requires id in rows && rows[id].email == email
    ensures HasEmail(rows, email) && IdOfEmail(rows, email) == id
  {
  }

  /** The account lifecycle: Unregistered -> Unverified(code, expiry) -> Verified. */
  datatype AccountState = Unregistered | Unverified(code: string, expiresAt: int) | Verified

  /** The lifecycle state of the account registered under `email`, as the
      service reads it. */
  ghost function StateOf(rows: map<int, UserModel>, email: string): (st: AccountState)
    ensures st.Unregistered? <==> !HasEmail(rows, email)
    ensures st.Verified? <==> HasEmail(rows, email) && rows[IdOfEmail(rows, email)].isVerified
    ensures HasEmail(rows, email) && WellFormed(rows[IdOfEmail(rows, email)]) && st.Unverified? ==>
      var u := rows[IdOfEmail(rows, email)];
      u.verificationCode == Some(st.code) && u.codeExpiresAt == Some(st.expiresAt)
  {
    if !HasEmail(rows, email) then Unregistered
    else
      var u := rows[IdOfEmail(rows, email)];
      if u.isVerified then Verified else Unverified(CodeRead(u), ExpiryRead(u))
  }

  /** A row is consistent with the lifecycle: code and expiry are set
      together, and exactly while the account is unverified. */
  ghost predicate WellFormed(u: UserModel)
  {
    && (u.verificationCode.Some? <==> u.codeExpiresAt.Some?)
    && (u.isVerified <==> u.verificationCode.None?)
  }

  ghost predicate AllWellFormed(rows: map<int, UserModel>)
  {
    forall id :: id in rows ==> WellFormed(rows[id])
  }

  /** How the table may change over time: no row disappears, identity,
      credentials and names are never rewritten, and neither the admin flag
      nor the verified flag is ever reset. */
  ghost predicate Evolves(before: map<int, UserModel>, after: map<int, UserModel>)
  {
    && before.Keys <= after.Keys
    && forall id :: id in before ==>
         && after[id].id == before[id].id
         && after[id].email == before[id].email
         && after[id].passwordHash == before[id].passwordHash
         && after[id].firstName == before[id].firstName
         && after[id].lastName == before[id].lastName
         && after[id].createdAt == before[id].createdAt
         && (before[id].isAdmin ==> after[id].isAdmin)
         && (before[id].isVerified ==> after[id].isVerified)
  }
}
