/**
 * The persistence store behind the route handlers: the users, portfolios, sections and
 * projects tables, with auto-increment ids, the unique email and username columns, and
 * the `ON DELETE CASCADE` foreign keys of lib/db.js (portfolios on users, sections and
 * projects on portfolios). SQL, the connection pool and the ORM are not modelled; the
 * tables are maps from id to row.
 */
module Store {
  import opened Wrappers
  import opened Crypto
  import opened Http

  type PortfolioId = nat

  datatype Role = UserRole | AdminRole

  /** A row of the users table; the id is its key in the table. */
  datatype User = User(
    name: string,
    email: string,
    username: Option<string>,
    passwordHash: Digest,
    role: Role,
    createdAt: nat)

  /**
   * A row of the portfolios table. The three JSON columns are None when SQL NULL is
   * stored, otherwise the value their serialised text parses back to.
   */
  datatype Portfolio = Portfolio(
    owner: UserId,
    title: Option<string>,
    description: Option<string>,
    personalInfo: Option<Json>,
    socialLinks: Option<Json>,
    skills: Option<Json>,
    theme: string,
    isPublished: bool,
    customDomain: Option<string>)

  /** A section or project row; only its foreign key to the portfolio matters here. */
  datatype ChildRow = ChildRow(portfolio: PortfolioId)

  ghost predicate EmailsUnique(users: map<UserId, User>) {
    forall a, b :: a in users && b in users && a != b ==> users[a].email != users[b].email
  }

  ghost predicate UsernamesUnique(users: map<UserId, User>) {
    forall a, b :: a in users && b in users && a != b && users[a].username.Some? ==>
      users[a].username != users[b].username
  }

  /** Storing `u` under `id` clashes with no other row's email or username. */
  ghost predicate Fits(users: map<UserId, User>, id: UserId, u: User) {
    forall other :: other in users && other != id ==>
      users[other].email != u.email && (u.username.Some? ==> users[other].username != u.username)
  }

  /** A row that fits keeps both unique columns unique. */
  lemma PutKeepsUnique(users: map<UserId, User>, id: UserId, u: User)
    requires EmailsUnique(users) && UsernamesUnique(users) && Fits(users, id, u)
    ensures EmailsUnique(users[id := u]) && UsernamesUnique(users[id := u])
  {
  }

  /** `SELECT ... FROM users WHERE email = ?`: the one row with that email, if any. */
  function FindByEmail(users: map<UserId, User>, email: string): (r: Option<UserId>)
    requires EmailsUnique(users)
    ensures r.Some? ==> r.value in users && users[r.value].email == email
    ensures r.None? ==> forall id :: id in users ==> users[id].email != email
  {
    if exists id :: id in users && users[id].email == email then
      var id :| id in users && users[id].email == email;
      Some(id)
    else
      None
  }

  /** `findUnique({ where: { username } })`: the one row with that username, if any. */
  function FindByUsername(users: map<UserId, User>, username: string): (r: Option<UserId>)
    requires UsernamesUnique(users)
    ensures r.Some? ==> r.value in users && users[r.value].username == Some(username)
    ensures r.None? ==> forall id :: id in users ==> users[id].username != Some(username)
  {
    if exists id :: id in users && users[id].username == Some(username) then
      var id :| id in users && users[id].username == Some(username);
      Some(id)
    else
      None
  }

  /** The portfolios that survive deleting user `uid`: those of every other owner. */
  function DropOwnedBy(portfolios: map<PortfolioId, Portfolio>, uid: UserId): (r: map<PortfolioId, Portfolio>)
    ensures forall p :: p in r <==> p in portfolios && portfolios[p].owner != uid
    ensures forall p :: p in r ==> r[p] == portfolios[p]
  {
    map p | p in portfolios && portfolios[p].owner != uid :: portfolios[p]
  }

  /** The child rows that survive once their portfolio is gone. */
  function DropOrphans(rows: map<nat, ChildRow>, portfolios: map<PortfolioId, Portfolio>): (r: map<nat, ChildRow>)
    ensures forall k :: k in r <==> k in rows && rows[k].portfolio in portfolios
    ensures forall k :: k in r ==> r[k] == rows[k]
  {
    map k | k in rows && rows[k].portfolio in portfolios :: rows[k]
  }

  /**
   * The cascade of the two foreign keys removes every portfolio of the deleted user and
   * every child row of those portfolios, and keeps every row that belongs to someone else.
   */
  lemma CascadeReachesOnlyOwner(
    portfolios: map<PortfolioId, Portfolio>, rows: map<nat, ChildRow>, uid: UserId, k: nat)
    requires k in rows && rows[k].portfolio in portfolios
    ensures var kept := DropOwnedBy(portfolios, uid);
      k in DropOrphans(rows, kept) <==> portfolios[rows[k].portfolio].owner != uid
  {
  }

  class Database {
    var users: map<UserId, User>
    var portfolios: map<PortfolioId, Portfolio>
    var sections: map<nat, ChildRow>
    var projects: map<nat, ChildRow>
    var nextUserId: UserId
    var nextPortfolioId: PortfolioId

    /** Fresh ids lie above every key, the unique columns hold, and every foreign key resolves. */
    ghost predicate Valid()
      reads this
    {
      && (forall id :: id in users ==> id < nextUserId)
      && (forall p :: p in portfolios ==> p < nextPortfolioId)
      && EmailsUnique(users)
      && UsernamesUnique(users)
      && (forall p :: p in portfolios ==> portfolios[p].owner in users)
      && (forall k :: k in sections ==> sections[k].portfolio in portfolios)
      && (forall k :: k in projects ==> projects[k].portfolio in portfolios)
    }

    constructor ()
      ensures Valid()
      ensures users == map[] && portfolios == map[] && sections == map[] && projects == map[]
    {
      users, portfolios, sections, projects := map[], map[], map[], map[];
      nextUserId, nextPortfolioId := 1, 1;
    }

    /** `INSERT INTO users`: the new row gets the next auto-increment id. */
    method InsertUser(u: User) returns (id: UserId)
      requires Valid() && Fits(users, nextUserId, u)
      modifies this
      ensures Valid()
      ensures id == old(nextUserId) && id !in old(users)
      ensures users == old(users)[id := u] && nextUserId == id + 1
      ensures portfolios == old(portfolios) && sections == old(sections) && projects == old(projects)
      ensures nextPortfolioId == old(nextPortfolioId)
    {
      PutKeepsUnique(users, nextUserId, u);
      id := nextUserId;
      users := users[id := u];
      nextUserId := nextUserId + 1;
    }

    /** `UPDATE users ... WHERE id = ?`: the row is replaced, nothing else changes. */
    method UpdateUser(id: UserId, u: User)
      requires Valid() && id in users && Fits(users, id, u)
      modifies this`users
      ensures Valid()
      ensures users == old(users)[id := u]
    {
      PutKeepsUnique(users, id, u);
      users := users[id := u];
    }

    /**
     * `DELETE FROM users WHERE id = ?` with the cascade: the user's portfolios go, and so
     * do the sections and projects of those portfolios; every other row stays.
     */
    method DeleteUser(id: UserId)
      requires Valid() && id in users
      modifies this`users, this`portfolios, this`sections, this`projects
      ensures Valid()
      ensures users == old(users) - {id}
      ensures portfolios == DropOwnedBy(old(portfolios), id)
      ensures sections == DropOrphans(old(sections), portfolios)
      ensures projects == DropOrphans(old(projects), portfolios)
    {
      users := users - {id};
      portfolios := DropOwnedBy(portfolios, id);
      sections := DropOrphans(sections, portfolios);
      projects := DropOrphans(projects, portfolios);
    }

    /** `INSERT INTO portfolios`: the new row gets the next auto-increment id. */
    method InsertPortfolio(row: Portfolio) returns (id: PortfolioId)
      requires Valid() && row.owner in users
      modifies this`portfolios, this`nextPortfolioId
      ensures Valid()
      ensures id == old(nextPortfolioId) && id !in old(portfolios)
      ensures portfolios == old(portfolios)[id := row] && nextPortfolioId == id + 1
    {
      id := nextPortfolioId;
      portfolios := portfolios[id := row];
      nextPortfolioId := nextPortfolioId + 1;
    }
  }
}
