/**
 * `POST /api/auth/login` (app/api/auth/login/route.js): a read-only check of email and
 * password that answers an unknown email and a wrong password with the same 401, and
 * on success issues a token for the user and returns the row without its password.
 */
module Login {
  import opened Wrappers
  import opened Http
  import opened Crypto
  import opened Store
  import Auth

  datatype LoginBody = LoginBody(email: Option<string>, password: Option<string>)

  /** The `SELECT *` row with the password column taken out. */
  datatype SafeUser = SafeUser(id: UserId, name: string, email: string, username: Option<string>, role: Role, createdAt: nat)

  /** `{ token, user }`. */
  datatype LoginReply = LoginReply(token: string, user: SafeUser)

  /** `const { password: _, ...userWithoutPassword } = user`. */
  function WithoutPassword(id: UserId, u: User): SafeUser {
    SafeUser(id, u.name, u.email, u.username, u.role, u.createdAt)
  }

  /** The inverse of WithoutPassword: the digest is the one field the reply lacks. */
  function WithPassword(s: SafeUser, passwordHash: Digest): User {
    User(s.name, s.email, s.username, passwordHash, s.role, s.createdAt)
  }

  const InvalidCredentials: Response<LoginReply> := Fail(401, MessageKey, "Invalid credentials")

  function Post(users: map<UserId, User>, hasher: Hasher, tokens: TokenService, body: LoginBody): (r: Response<LoginReply>)
    requires EmailsUnique(users)
    ensures !(Present(body.email) && Present(body.password)) ==>
      r == Fail(400, MessageKey, "Email and password are required")
    ensures Present(body.email) && Present(body.password) && FindByEmail(users, body.email.value).None? ==>
      r == InvalidCredentials
    ensures r.Reply? ==>
      && Present(body.email) && Present(body.password)
      && r.status == 200
      && exists id :: id in users && users[id].email == body.email.value
                    && hasher.compare(body.password.value, users[id].passwordHash)
                    && r.body == LoginReply(tokens.sign(id), WithoutPassword(id, users[id]))
    ensures r.Fail? && r.status == 401 ==> r == InvalidCredentials
  {
    if !(Present(body.email) && Present(body.password)) then
      Fail(400, MessageKey, "Email and password are required")
    else
      match FindByEmail(users, body.email.value)
      case None => InvalidCredentials
      case Some(id) =>
        if !hasher.compare(body.password.value, users[id].passwordHash) then
          InvalidCredentials
        else
          Reply(200, LoginReply(tokens.sign(id), WithoutPassword(id, users[id])))
  }

  /** A wrong password for a known email is answered exactly as an unknown email is. */
  lemma WrongPasswordLikeUnknownEmail(
    users: map<UserId, User>, hasher: Hasher, tokens: TokenService, email: string, password: string, id: UserId)
    requires EmailsUnique(users) && email != "" && password != ""
    requires id in users && users[id].email == email && !hasher.compare(password, users[id].passwordHash)
    ensures Post(users, hasher, tokens, LoginBody(Some(email), Some(password))) ==
            Post(users - {id}, hasher, tokens, LoginBody(Some(email), Some(password)))
  {
  }

  /** Nothing of the row but the password digest is lost from the reply. */
  lemma WithoutPasswordKeepsTheRest(id: UserId, u: User)
    ensures WithPassword(WithoutPassword(id, u), u.passwordHash) == u
    ensures WithoutPassword(id, u).id == id
  {
  }

  /**
   * A registered user who presents the password they registered with gets a token, and
   * that token authenticates them on the next request.
   */
  lemma LoginWithRegisteredPassword(
    users: map<UserId, User>, hasher: Hasher, tokens: TokenService, id: UserId, password: string, salt: Salt)
    requires SoundHasher(hasher) && SoundTokens(tokens) && EmailsUnique(users)
    requires id in users && users[id].email != "" && password != ""
    requires users[id].passwordHash == hasher.hash(password, salt)
    ensures var r := Post(users, hasher, tokens, LoginBody(Some(users[id].email), Some(password)));
      && r == Reply(200, LoginReply(tokens.sign(id), WithoutPassword(id, users[id])))
      && Auth.Authenticate(Some(Auth.BearerPrefix + r.body.token), users, tokens) == Some(Auth.PublicView(id, users[id]))
  {
    assert FindByEmail(users, users[id].email) == Some(id);
    Auth.AuthenticateIssuedToken(users, tokens, id);
  }
}
