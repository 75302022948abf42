/**
 * `PUT /api/auth/change-password` (app/api/auth/change-password/route.js). The guards
 * run in this order: authentication, both passwords present, the new one at least eight
 * UTF-16 code units long, the current one verifying against the stored digest. Only then
 * is the caller's digest replaced.
 */
module ChangePassword {
  import opened Wrappers
  import opened Strings
  import opened Http
  import opened Crypto
  import opened Store
  import opened Auth

  datatype ChangePasswordBody = ChangePasswordBody(currentPassword: Option<string>, newPassword: Option<string>)

  const MinLength: nat := 8

  method Put(db: Database, hasher: Hasher, tokens: TokenService, header: Option<string>, body: ChangePasswordBody, salt: Salt)
    returns (r: Response<string>)
    requires db.Valid()
    modifies db
    ensures db.Valid()
    ensures var caller := Authenticate(header, old(db.users), tokens);
      && (caller.None? ==> r == Fail(401, ErrorKey, "Unauthorized") && unchanged(db))
      && (caller.Some? && !(Present(body.currentPassword) && Present(body.newPassword)) ==>
            r == Fail(400, ErrorKey, "Current password and new password are required") && unchanged(db))
      && (caller.Some? && Present(body.currentPassword) && Present(body.newPassword)
          && Utf16Length(body.newPassword.value) < MinLength ==>
            r == Fail(400, ErrorKey, "New password must be at least 8 characters") && unchanged(db))
    ensures var caller := Authenticate(header, old(db.users), tokens);
      caller.Some? && Present(body.currentPassword) && Present(body.newPassword)
      && Utf16Length(body.newPassword.value) >= MinLength ==>
        var id := caller.value.id;
        var row := old(db.users)[id];
        if !hasher.compare(body.currentPassword.value, row.passwordHash) then
          r == Fail(400, ErrorKey, "Current password is incorrect") && unchanged(db)
        else
          && r == Reply(200, "Password changed successfully")
          && db.users == old(db.users)[id := row.(passwordHash := hasher.hash(body.newPassword.value, salt))]
          && db.portfolios == old(db.portfolios) && db.sections == old(db.sections)
          && db.projects == old(db.projects)
          && db.nextUserId == old(db.nextUserId) && db.nextPortfolioId == old(db.nextPortfolioId)
  {
    var user := Authenticate(header, db.users, tokens);
    if user.None? {
      return Fail(401, ErrorKey, "Unauthorized");
    }
    if !(Present(body.currentPassword) && Present(body.newPassword)) {
      return Fail(400, ErrorKey, "Current password and new password are required");
    }
    var currentPassword, newPassword := body.currentPassword.value, body.newPassword.value;
    if Utf16Length(newPassword) < MinLength {
      return Fail(400, ErrorKey, "New password must be at least 8 characters");
    }
    var id := user.value.id;
    var userWithPassword := db.users[id];
    if !hasher.compare(currentPassword, userWithPassword.passwordHash) {
      return Fail(400, ErrorKey, "Current password is incorrect");
    }
    var newPasswordHash := hasher.hash(newPassword, salt);
    db.UpdateUser(id, userWithPassword.(passwordHash := newPasswordHash));
    r := Reply(200, "Password changed successfully");
  }

  /** After a successful change the new password verifies against the stored digest. */
  lemma NewPasswordVerifies(hasher: Hasher, row: User, newPassword: string, salt: Salt)
    requires SoundHasher(hasher)
    ensures hasher.compare(newPassword, row.(passwordHash := hasher.hash(newPassword, salt)).passwordHash)
  {
  }

  /** The length rule counts UTF-16 code units: four astral characters already pass it. */
  lemma AstralCharactersCountTwice()
    ensures |"\U{1F600}\U{1F600}\U{1F600}\U{1F600}"| == 4
    ensures Utf16Length("\U{1F600}\U{1F600}\U{1F600}\U{1F600}") >= MinLength
  {
  }
}
