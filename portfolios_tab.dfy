/**
 * The portfolio list of components/dashboard/PortfoliosTab.jsx: each handler computes
 * the next list and error text from the current ones and the outcome of its API call;
 * the labels and the public link are expressions over a portfolio.
 */
module PortfoliosTab {
  import opened Wrappers
  import opened Strings
  import opened Lists
  import opened Http

  /** A portfolio as `portfolioAPI.getAll` lists it; the counts may be missing. */
  datatype PortfolioCard = PortfolioCard(
    id: nat,
    title: string,
    description: Option<string>,
    isPublished: bool,
    slug: string,
    projectCount: Option<nat>,
    sectionCount: Option<nat>)

  /** The component state the handlers replace. */
  datatype TabState = TabState(portfolios: seq<PortfolioCard>, error: string, loading: bool)

  /** `loadPortfolios`. */
  function Load(st: TabState, response: Outcome<seq<PortfolioCard>>): (r: TabState)
    ensures !r.loading
    ensures response.Ok? ==> r.portfolios == response.value && r.error == ""
    ensures response.Err? ==> r.portfolios == st.portfolios && r.error == "Failed to load portfolios"
  {
    match response
    case Ok(list) => TabState(list, "", false)
    case Err(_) => TabState(st.portfolios, "Failed to load portfolios", false)
  }

  /** `portfolios.map(p => p.id === id ? { ...p, isPublished: published } : p)`. */
  function SetPublished(ps: seq<PortfolioCard>, id: nat, published: bool): (r: seq<PortfolioCard>)
    ensures |r| == |ps|
    ensures forall i :: 0 <= i < |ps| && ps[i].id != id ==> r[i] == ps[i]
    ensures forall i :: 0 <= i < |ps| && ps[i].id == id ==> r[i] == ps[i].(isPublished := published)
  {
    MapWhere(ps, (p: PortfolioCard) => p.id == id, (p: PortfolioCard) => p.(isPublished := published))
  }

  /**
   * `handleTogglePublish(id, currentStatus)`: once the API accepts `!currentStatus`, the
   * matching cards take it; a failure only sets the error.
   */
  function TogglePublish(st: TabState, id: nat, currentStatus: bool, response: Outcome<()>): (r: TabState)
    ensures r.loading == st.loading
    ensures response.Ok? ==> r.portfolios == SetPublished(st.portfolios, id, !currentStatus) && r.error == st.error
    ensures response.Err? ==> r.portfolios == st.portfolios && r.error == "Failed to update portfolio"
  {
    match response
    case Ok(_) => st.(portfolios := SetPublished(st.portfolios, id, !currentStatus))
    case Err(_) => st.(error := "Failed to update portfolio")
  }

  /**
   * The button passes the card's own flag, so a successful toggle flips the card and a
   * second toggle of the same card restores the list.
   */
  lemma TogglePublishTwice(st: TabState, i: nat)
    requires i < |st.portfolios|
    requires forall j :: 0 <= j < |st.portfolios| && st.portfolios[j].id == st.portfolios[i].id ==>
      st.portfolios[j].isPublished == st.portfolios[i].isPublished
    ensures var p := st.portfolios[i];
      var once := TogglePublish(st, p.id, p.isPublished, Ok(()));
      && once.portfolios[i].isPublished == !p.isPublished
      && TogglePublish(once, p.id, once.portfolios[i].isPublished, Ok(())) == st
  {
    var p := st.portfolios[i];
    var once := TogglePublish(st, p.id, p.isPublished, Ok(()));
    var twice := TogglePublish(once, p.id, once.portfolios[i].isPublished, Ok(()));
    assert twice.portfolios == st.portfolios;
  }

  /** `portfolios.filter(p => p.id !== id)`. */
  function DropPortfolio(ps: seq<PortfolioCard>, id: nat): (r: seq<PortfolioCard>)
    ensures |r| <= |ps|
    ensures forall i :: 0 <= i < |r| ==> r[i].id != id && r[i] in ps
    ensures forall i :: 0 <= i < |ps| && ps[i].id != id ==> ps[i] in r
  {
    Filter(ps, (p: PortfolioCard) => p.id != id)
  }

  /**
   * `handleDeletePortfolio`: declining the confirmation changes nothing; otherwise a
   * successful delete drops the cards with that id.
   */
  function DeletePortfolio(st: TabState, id: nat, confirmed: bool, response: Outcome<()>): (r: TabState)
    ensures !confirmed ==> r == st
    ensures confirmed && response.Ok? ==> r == st.(portfolios := DropPortfolio(st.portfolios, id))
    ensures confirmed && response.Err? ==> r == st.(error := "Failed to delete portfolio")
  {
    if !confirmed then st
    else
      match response
      case Ok(_) => st.(portfolios := DropPortfolio(st.portfolios, id))
      case Err(_) => st.(error := "Failed to delete portfolio")
  }

  /** Deleting keeps the other cards in their order: a list without the id stays as it is. */
  lemma DeleteAbsentIsNoOp(ps: seq<PortfolioCard>, id: nat)
    requires forall i :: 0 <= i < |ps| ==> ps[i].id != id
    ensures DropPortfolio(ps, id) == ps
  {
    FilterKeepsAll(ps, (p: PortfolioCard) => p.id != id);
  }

  /** Deleting a card keeps the cards before and after it, in order. */
  lemma DeleteOneCard(ps: seq<PortfolioCard>, i: nat)
    requires i < |ps|
    requires forall j :: 0 <= j < |ps| && j != i ==> ps[j].id != ps[i].id
    ensures DropPortfolio(ps, ps[i].id) == ps[..i] + ps[i + 1..]
  {
    assert ps == ps[..i] + [ps[i]] + ps[i + 1..];
    FilterDropsOne(ps[..i], ps[i], ps[i + 1..], (p: PortfolioCard) => p.id != ps[i].id);
  }

  /** `${origin}/portfolio/${slug}`: the link shown on a card and copied by `handleCopyUrl`. */
  function PublicUrl(origin: string, slug: string): (url: string)
    ensures StartsWith(url, origin + "/portfolio/")
    ensures url[|origin| + 11..] == slug
  {
    origin + "/portfolio/" + slug
  }

  /** A card's link names its slug: two slugs under one origin give two links. */
  lemma PublicUrlInjective(origin: string, a: string, b: string)
    requires PublicUrl(origin, a) == PublicUrl(origin, b)
    ensures a == b
  {
    assert a == PublicUrl(origin, a)[|origin| + 11..];
  }

  /** The snackbar text after copying the link. */
  function CopyMessage(copied: bool): (m: string)
    ensures copied <==> m == "Link copied to clipboard!"
    ensures !copied <==> m == "Failed to copy link"
  {
    if copied then "Link copied to clipboard!" else "Failed to copy link"
  }

  /** The status chip of a card. */
  function StatusLabel(isPublished: bool): (text: string)
    ensures text == "Published" <==> isPublished
    ensures text == "Draft" <==> !isPublished
  {
    if isPublished then "Published" else "Draft"
  }

  /** `${count || 0} <noun>`: a missing count shows as 0. */
  function CountLabel(count: Option<nat>, noun: string): (text: string)
    ensures count.None? ==> text == "0 " + noun
    ensures count.Some? ==> text == NatToString(count.value) + " " + noun
  {
    NatToString(count.GetOr(0)) + " " + noun
  }

  /** The card's description line: `description || 'No description'`. */
  function DescriptionLine(description: Option<string>): (line: string)
    ensures Present(description) ==> line == description.value
    ensures !Present(description) ==> line == "No description"
  {
    if Present(description) then description.value else "No description"
  }
}
