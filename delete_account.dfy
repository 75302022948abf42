/**
 * `DELETE /api/auth/delete-account` (app/api/auth/delete-account/route.js): the caller
 * must be authenticated and must re-enter their password; then their row is deleted and
 * the foreign keys cascade through their portfolios to those portfolios' sections and
 * projects.
 */
module DeleteAccount {
  import opened Wrappers
  import opened Http
  import opened Crypto
  import opened Store
  import opened Auth

  datatype DeleteAccountBody = DeleteAccountBody(password: Option<string>)

  method Delete(db: Database, hasher: Hasher, tokens: TokenService, header: Option<string>, body: DeleteAccountBody)
    returns (r: Response<string>)
    requires db.Valid()
    modifies db
    ensures db.Valid()
    ensures var caller := Authenticate(header, old(db.users), tokens);
      && (caller.None? ==> r == Fail(401, ErrorKey, "Unauthorized") && unchanged(db))
      && (caller.Some? && !Present(body.password) ==>
            r == Fail(400, ErrorKey, "Password is required to delete account") && unchanged(db))
    ensures var caller := Authenticate(header, old(db.users), tokens);
      caller.Some? && Present(body.password) ==>
        var id := caller.value.id;
        if !hasher.compare(body.password.value, old(db.users)[id].passwordHash) then
          r == Fail(400, ErrorKey, "Incorrect password") && unchanged(db)
        else
          && r == Reply(200, "Account deleted successfully")
          && db.users == old(db.users) - {id}
          && db.portfolios == DropOwnedBy(old(db.portfolios), id)
          && db.sections == DropOrphans(old(db.sections), db.portfolios)
          && db.projects == DropOrphans(old(db.projects), db.portfolios)
          && (forall p :: p in old(db.portfolios) && old(db.portfolios)[p].owner != id ==>
                p in db.portfolios && db.portfolios[p] == old(db.portfolios)[p])
          && (forall other :: other in old(db.users) && other != id ==>
                other in db.users && db.users[other] == old(db.users)[other])
          && (forall h :: Authenticate(h, db.users, tokens).None? || Authenticate(h, db.users, tokens).value.id != id)
  {
    var user := Authenticate(header, db.users, tokens);
    if user.None? {
      return Fail(401, ErrorKey, "Unauthorized");
    }
    if !Present(body.password) {
      return Fail(400, ErrorKey, "Password is required to delete account");
    }
    var id := user.value.id;
    var userWithPassword := db.users[id];
    if !hasher.compare(body.password.value, userWithPassword.passwordHash) {
      return Fail(400, ErrorKey, "Incorrect password");
    }
    db.DeleteUser(id);
    forall h: Option<string> ensures Authenticate(h, db.users, tokens).None? || Authenticate(h, db.users, tokens).value.id != id {
      DeletedUserCannotAuthenticate(h, old(db.users), tokens, id);
    }
    r := Reply(200, "Account deleted successfully");
  }
}
