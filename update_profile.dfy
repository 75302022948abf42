/**
 * `PUT /api/auth/update-profile` (app/api/auth/update-profile/route.js): an
 * authenticated caller sets their name and username; a username held by a different
 * user is refused, the caller's own current username is accepted again.
 */
module UpdateProfile {
  import opened Wrappers
  import opened Http
  import opened Crypto
  import opened Store
  import opened Auth

  datatype UpdateProfileBody = UpdateProfileBody(name: Option<string>, username: Option<string>)

  /** `select: { id, email, username, name, createdAt }`: no password digest. */
  datatype Profile = Profile(id: UserId, email: string, username: Option<string>, name: string, createdAt: nat)

  /** `{ message: 'Profile updated successfully', user }`. */
  datatype Updated = Updated(message: string, user: Profile)

  /** Some row other than `self` already holds `username`. */
  predicate TakenByOther(users: map<UserId, User>, username: string, self: UserId) {
    exists id :: id in users && id != self && users[id].username == Some(username)
  }

  method Put(db: Database, tokens: TokenService, header: Option<string>, body: UpdateProfileBody)
    returns (r: Response<Updated>)
    requires db.Valid()
    modifies db
    ensures db.Valid()
    ensures var caller := Authenticate(header, old(db.users), tokens);
      && (caller.None? ==> r == Fail(401, ErrorKey, "Unauthorized") && unchanged(db))
      && (caller.Some? && !(Present(body.name) && Present(body.username)) ==>
            r == Fail(400, ErrorKey, "Name and username are required") && unchanged(db))
    ensures var caller := Authenticate(header, old(db.users), tokens);
      caller.Some? && Present(body.name) && Present(body.username) ==>
        var id := caller.value.id;
        if TakenByOther(old(db.users), body.username.value, id) then
          r == Fail(400, ErrorKey, "Username is already taken") && unchanged(db)
        else
          var row := old(db.users)[id].(name := body.name.value, username := Some(body.username.value));
          && db.users == old(db.users)[id := row]
          && r == Reply(200, Updated("Profile updated successfully",
                                     Profile(id, row.email, row.username, row.name, row.createdAt)))
          && db.portfolios == old(db.portfolios) && db.sections == old(db.sections)
          && db.projects == old(db.projects)
          && db.nextUserId == old(db.nextUserId) && db.nextPortfolioId == old(db.nextPortfolioId)
  {
    var user := Authenticate(header, db.users, tokens);
    if user.None? {
      return Fail(401, ErrorKey, "Unauthorized");
    }
    if !(Present(body.name) && Present(body.username)) {
      return Fail(400, ErrorKey, "Name and username are required");
    }
    var name, username := body.name.value, body.username.value;
    var id := user.value.id;
    var existingUser := FindByUsername(db.users, username);
    if existingUser.Some? && existingUser.value != id {
      return Fail(400, ErrorKey, "Username is already taken");
    }
    var row := db.users[id].(name := name, username := Some(username));
    db.UpdateUser(id, row);
    r := Reply(200, Updated("Profile updated successfully", Profile(id, row.email, row.username, row.name, row.createdAt)));
  }

  /** Re-submitting the username one already holds never counts as taken. */
  lemma OwnUsernameNotTaken(users: map<UserId, User>, self: UserId)
    requires UsernamesUnique(users) && self in users && users[self].username.Some?
    ensures !TakenByOther(users, users[self].username.value, self)
  {
  }
}
