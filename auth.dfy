/**
 * `authenticate` of lib/auth.js: the request's Authorization header must read
 * `Bearer <token>`; the token must verify; the user id it carries must still name a
 * row of the users table. Only the non-secret columns of that row are handed back.
 */
module Auth {
  import opened Wrappers
  import opened Strings
  import opened Crypto
  import opened Store

  const BearerPrefix: string := "Bearer "

  /** `SELECT id, name, email, role FROM users WHERE id = ?`: no password column. */
  datatype PublicUser = PublicUser(id: UserId, name: string, email: string, role: Role)

  function PublicView(id: UserId, u: User): PublicUser {
    PublicUser(id, u.name, u.email, u.role)
  }

  /** The authenticated caller of a request carrying `header`, or None (the source's null). */
  function Authenticate(header: Option<string>, users: map<UserId, User>, tokens: TokenService): (r: Option<PublicUser>)
    ensures header.None? || !StartsWith(header.value, BearerPrefix) ==> r.None?
    ensures r.Some? ==> VerifyToken(tokens, header.value[|BearerPrefix|..]) == Some(Claims(r.value.id))
    ensures r.Some? ==> r.value.id in users && r.value == PublicView(r.value.id, users[r.value.id])
    ensures header.Some? && StartsWith(header.value, BearerPrefix) ==>
      var decoded := VerifyToken(tokens, header.value[|BearerPrefix|..]);
      (r.Some? <==> decoded.Some? && decoded.value.userId in users)
  {
    if header.None? || !StartsWith(header.value, BearerPrefix) then
      None
    else
      var token := header.value[|BearerPrefix|..];
      match VerifyToken(tokens, token)
      case None => None
      case Some(decoded) =>
        if decoded.userId in users then Some(PublicView(decoded.userId, users[decoded.userId])) else None
  }

  /** The header `Bearer <generateToken(u)>` authenticates `u` while `u` has a row. */
  lemma AuthenticateIssuedToken(users: map<UserId, User>, tokens: TokenService, u: UserId)
    requires SoundTokens(tokens) && u in users
    ensures Authenticate(Some(BearerPrefix + tokens.sign(u)), users, tokens) == Some(PublicView(u, users[u]))
  {
    var header := BearerPrefix + tokens.sign(u);
    assert header[..|BearerPrefix|] == BearerPrefix;
    assert header[|BearerPrefix|..] == tokens.sign(u);
    VerifyIssuedToken(tokens, u);
  }

  /** Once a user's row is gone, no header whatsoever authenticates that user. */
  lemma DeletedUserCannotAuthenticate(
    header: Option<string>, users: map<UserId, User>, tokens: TokenService, u: UserId)
    ensures var r := Authenticate(header, users - {u}, tokens); r.None? || r.value.id != u
  {
  }
}
