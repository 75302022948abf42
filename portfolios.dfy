/**
 * `GET` and `POST /api/portfolios` (app/api/portfolios/route.js): the caller's own
 * portfolios, with the three JSON columns normalised on the way out, and the creation
 * of a portfolio with defaults for every JSON column and the theme.
 */
module Portfolios {
  import opened Wrappers
  import opened Http
  import opened Crypto
  import opened Store
  import opened Auth

  /**
   * A portfolio as the route sends it back. A JSON column comes back as the value its
   * stored text parses to, or as the route's replacement when the column is NULL.
   */
  datatype PortfolioView = PortfolioView(
    id: PortfolioId,
    title: Option<string>,
    description: Option<string>,
    personalInfo: Json,
    socialLinks: Json,
    skills: Json,
    theme: string,
    isPublished: bool,
    customDomain: Option<string>)

  /**
   * `column ? JSON.parse(column) : ifNull`. A stored column is the text `JSON.stringify`
   * made of a value, never empty, so it is truthy and parses back to that value.
   */
  function ReadColumn(column: Option<Json>, ifNull: Json): (r: Json)
    ensures column.None? ==> r == ifNull
    ensures column.Some? ==> r == column.value
  {
    match column
    case None => ifNull
    case Some(v) => v
  }

  /** The row as the route returns it: NULL personal info and social links as `null`, NULL skills as `[]`. */
  function View(id: PortfolioId, p: Portfolio): (v: PortfolioView)
    ensures v.id == id && v.title == p.title && v.description == p.description
    ensures v.theme == p.theme && v.isPublished == p.isPublished && v.customDomain == p.customDomain
    ensures p.personalInfo.None? ==> v.personalInfo == JNull
    ensures p.socialLinks.None? ==> v.socialLinks == JNull
    ensures p.skills.None? ==> v.skills == JArray([])
    ensures p.personalInfo.Some? ==> v.personalInfo == p.personalInfo.value
    ensures p.socialLinks.Some? ==> v.socialLinks == p.socialLinks.value
    ensures p.skills.Some? ==> v.skills == p.skills.value
  {
    PortfolioView(id, p.title, p.description,
      ReadColumn(p.personalInfo, JNull), ReadColumn(p.socialLinks, JNull), ReadColumn(p.skills, JArray([])),
      p.theme, p.isPublished, p.customDomain)
  }

  /**
   * `GET`: 401 without a valid bearer token; otherwise 200 with the rows whose owner is
   * the caller (keyed by id: SQL returns them in no promised order).
   */
  function Get(users: map<UserId, User>, portfolios: map<PortfolioId, Portfolio>,
               tokens: TokenService, header: Option<string>): (r: Response<map<PortfolioId, PortfolioView>>)
    ensures Authenticate(header, users, tokens).None? ==> r == Fail(401, MessageKey, "Unauthorized")
    ensures Authenticate(header, users, tokens).Some? ==>
      var caller := Authenticate(header, users, tokens).value.id;
      && r.Reply? && r.status == 200
      && (forall p :: p in r.body <==> p in portfolios && portfolios[p].owner == caller)
      && (forall p :: p in r.body ==> r.body[p] == View(p, portfolios[p]))
  {
    match Authenticate(header, users, tokens)
    case None => Fail(401, MessageKey, "Unauthorized")
    case Some(user) =>
      Reply(200, map p | p in portfolios && portfolios[p].owner == user.id :: View(p, portfolios[p]))
  }

  /** The fields `POST` reads from its JSON body; the owner is not among them. */
  datatype PortfolioBody = PortfolioBody(
    title: Option<string>,
    description: Option<string>,
    personalInfo: Option<Json>,
    socialLinks: Option<Json>,
    skills: Option<Json>,
    theme: Option<string>)

  /**
   * The row `POST` inserts for `owner`: falsy JSON fields become `{}`, `{}` and `[]`, an
   * absent theme becomes "default", the row starts unpublished without a custom domain.
   */
  function NewRow(owner: UserId, body: PortfolioBody): (p: Portfolio)
    ensures p.owner == owner && p.title == body.title && p.description == body.description
    ensures p.personalInfo == Some(Or(body.personalInfo, JObject(map[])))
    ensures p.socialLinks == Some(Or(body.socialLinks, JObject(map[])))
    ensures p.skills == Some(Or(body.skills, JArray([])))
    ensures body.theme.None? ==> p.theme == "default"
    ensures body.theme.Some? ==> p.theme == body.theme.value
    ensures !p.isPublished && p.customDomain.None?
  {
    Portfolio(owner, body.title, body.description,
      Some(Or(body.personalInfo, JObject(map[]))),
      Some(Or(body.socialLinks, JObject(map[]))),
      Some(Or(body.skills, JArray([]))),
      body.theme.GetOr("default"), false, None)
  }

  /** `SELECT *` returns the owner too. */
  datatype CreatedPortfolio = CreatedPortfolio(userId: UserId, portfolio: PortfolioView)

  /**
   * `POST`: 401 without touching the store; otherwise the new row is inserted under the
   * next id, read back, and returned with 201.
   */
  method Post(db: Database, tokens: TokenService, header: Option<string>, body: PortfolioBody)
    returns (r: Response<CreatedPortfolio>)
    requires db.Valid()
    modifies db
    ensures db.Valid()
    ensures Authenticate(header, old(db.users), tokens).None? ==>
      r == Fail(401, MessageKey, "Unauthorized") && unchanged(db)
    ensures Authenticate(header, old(db.users), tokens).Some? ==>
      var caller := Authenticate(header, old(db.users), tokens).value.id;
      var id := old(db.nextPortfolioId);
      var row := NewRow(caller, body);
      && db.portfolios == old(db.portfolios)[id := row] && id !in old(db.portfolios)
      && r == Reply(201, CreatedPortfolio(caller, View(id, row)))
      && db.users == old(db.users) && db.sections == old(db.sections) && db.projects == old(db.projects)
      && db.nextUserId == old(db.nextUserId)
  {
    var user := Authenticate(header, db.users, tokens);
    if user.None? {
      return Fail(401, MessageKey, "Unauthorized");
    }
    var row := NewRow(user.value.id, body);
    var id := db.InsertPortfolio(row);
    var newPortfolio := db.portfolios[id];
    r := Reply(201, CreatedPortfolio(newPortfolio.owner, View(id, newPortfolio)));
  }

  /**
   * What `POST` returns never has `null` in a JSON field: it stored `{}`, `{}` and `[]`
   * (or a truthy value from the body), which a later `GET` reads back unchanged.
   */
  lemma CreatedHasNoNulls(id: PortfolioId, owner: UserId, body: PortfolioBody)
    ensures var v := View(id, NewRow(owner, body));
      v.personalInfo != JNull && v.socialLinks != JNull && v.skills != JNull
  {
  }

  /**
   * A portfolio created by a caller shows up in that caller's next `GET`, exactly as the
   * creation returned it, and in nobody else's.
   */
  lemma CreatedIsListed(users: map<UserId, User>, portfolios: map<PortfolioId, Portfolio>,
                        tokens: TokenService, header: Option<string>, other: Option<string>,
                        body: PortfolioBody, id: PortfolioId)
    requires Authenticate(header, users, tokens).Some?
    requires Authenticate(other, users, tokens).Some?
    ensures var caller := Authenticate(header, users, tokens).value.id;
      var after := portfolios[id := NewRow(caller, body)];
      && id in Get(users, after, tokens, header).body
      && Get(users, after, tokens, header).body[id] == View(id, NewRow(caller, body))
      && (Authenticate(other, users, tokens).value.id != caller ==> id !in Get(users, after, tokens, other).body)
  {
  }

  /** Creating a portfolio changes no one else's listing. */
  lemma CreateHidesFromOthers(users: map<UserId, User>, portfolios: map<PortfolioId, Portfolio>,
                              tokens: TokenService, header: Option<string>, other: Option<string>,
                              body: PortfolioBody, id: PortfolioId)
    requires Authenticate(header, users, tokens).Some? && id !in portfolios
    requires Authenticate(other, users, tokens).Some?
    requires Authenticate(other, users, tokens).value.id != Authenticate(header, users, tokens).value.id
    ensures var caller := Authenticate(header, users, tokens).value.id;
      Get(users, portfolios[id := NewRow(caller, body)], tokens, other) == Get(users, portfolios, tokens, other)
  {
    var caller := Authenticate(header, users, tokens).value.id;
    var after := portfolios[id := NewRow(caller, body)];
    assert Get(users, after, tokens, other).body == Get(users, portfolios, tokens, other).body;
  }
}
