/**
 * `POST /api/auth/register` (app/api/auth/register/route.js): all three fields must be
 * present, the email must be new, and then one user row is inserted holding the bcrypt
 * digest of the password.
 */
module Register {
  import opened Wrappers
  import opened Http
  import opened Crypto
  import opened Store

  datatype RegisterBody = RegisterBody(name: Option<string>, email: Option<string>, password: Option<string>)

  /** `{ message: 'User created successfully', userId }`. */
  datatype Created = Created(message: string, userId: UserId)

  /** Whether some row already holds `email`. */
  predicate EmailTaken(users: map<UserId, User>, email: string) {
    exists id :: id in users && users[id].email == email
  }

  /** The ids of the rows holding `email`. */
  ghost function HoldersOf(users: map<UserId, User>, email: string): set<UserId> {
    set id | id in users && users[id].email == email
  }

  method Post(db: Database, hasher: Hasher, body: RegisterBody, salt: Salt, now: nat)
    returns (r: Response<Created>)
    requires db.Valid()
    modifies db
    ensures db.Valid()
    ensures !(Present(body.name) && Present(body.email) && Present(body.password)) ==>
      r == Fail(400, MessageKey, "All fields are required") && unchanged(db)
    ensures Present(body.name) && Present(body.email) && Present(body.password) ==>
      if EmailTaken(old(db.users), body.email.value) then
        r == Fail(400, MessageKey, "User already exists") && unchanged(db)
      else
        var id := old(db.nextUserId);
        && r == Reply(201, Created("User created successfully", id))
        && id !in old(db.users)
        && db.users == old(db.users)[id := User(body.name.value, body.email.value, None,
                                                hasher.hash(body.password.value, salt), UserRole, now)]
        && HoldersOf(db.users, body.email.value) == {id}
        && db.portfolios == old(db.portfolios) && db.sections == old(db.sections)
        && db.projects == old(db.projects)
        && db.nextUserId == id + 1 && db.nextPortfolioId == old(db.nextPortfolioId)
  {
    if !(Present(body.name) && Present(body.email) && Present(body.password)) {
      return Fail(400, MessageKey, "All fields are required");
    }
    var name, email, password := body.name.value, body.email.value, body.password.value;
    if EmailTaken(db.users, email) {
      return Fail(400, MessageKey, "User already exists");
    }
    var row := User(name, email, None, hasher.hash(password, salt), UserRole, now);
    var id := db.InsertUser(row);
    assert HoldersOf(db.users, email) == {id};
    r := Reply(201, Created("User created successfully", id));
  }
}
