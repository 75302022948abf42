/**
 * The portfolio editor of components/EditorWithBackend.jsx: how loaded sections are
 * turned into the board's cards, the optimistic edits on the list of sections and
 * projects, and the requests each handler sends. Every network call is an outcome
 * passed in: success or an error with its message.
 */
module Editor {
  import opened Wrappers
  import opened Strings
  import opened Lists
  import opened Http
  import opened ProjectsManager

  datatype Image = Image(id: nat, url: string, name: string)

  /** A section's `content` as the API returns it: a plain string, an object, or nothing. */
  datatype SectionContent =
    | TextContent(text: string)
    | RichContent(html: Option<string>, images: Option<seq<Image>>)
    | NoContent

  /** A section as `sectionAPI.getAll` returns it. */
  datatype BackendSection = BackendSection(
    id: nat, title: Option<string>, content: SectionContent, isVisible: bool, kind: string, order: int)

  /** A section card on the board. */
  datatype UiSection = UiSection(
    id: nat, title: string, width: int, height: int, content: string, images: seq<Image>,
    archived: bool, kind: string, order: int)

  const DefaultWidth := 600
  const DefaultHeight := 250
  const UntitledSection := "Untitled Section"

  /** The `loadData` transform of one section (`sec.title || "Untitled Section"`, `!sec.isVisible`, ...). */
  function ToUi(sec: BackendSection): (u: UiSection)
    ensures u.id == sec.id && u.kind == sec.kind && u.order == sec.order
    ensures u.width == DefaultWidth && u.height == DefaultHeight
    ensures u.title != ""
    ensures Present(sec.title) ==> u.title == sec.title.value
    ensures !Present(sec.title) ==> u.title == UntitledSection
    ensures u.archived <==> !sec.isVisible
    ensures sec.content.TextContent? ==> u.content == sec.content.text && u.images == []
    ensures sec.content.RichContent? ==>
      u.content == sec.content.html.GetOr("") && u.images == sec.content.images.GetOr([])
    ensures sec.content.NoContent? ==> u.content == "" && u.images == []
  {
    var content := match sec.content
      case TextContent(text) => text
      case RichContent(html, _) => html.GetOr("")
      case NoContent => "";
    var images := match sec.content
      case RichContent(_, Some(images)) => images
      case _ => [];
    UiSection(sec.id, if Present(sec.title) then sec.title.value else UntitledSection,
              DefaultWidth, DefaultHeight, content, images, !sec.isVisible, sec.kind, sec.order)
  }

  /** `sectionsResponse.sections.map(...)`. */
  function ToUiAll(list: seq<BackendSection>): (r: seq<UiSection>)
    ensures |r| == |list|
    ensures forall i :: 0 <= i < |list| ==> r[i] == ToUi(list[i])
  {
    seq(|list|, i requires 0 <= i < |list| => ToUi(list[i]))
  }

  /** The fields a call of `handleUpdateSection` may change; None is a key the object lacks. */
  datatype Changes = Changes(
    title: Option<string>, content: Option<string>, images: Option<seq<Image>>, archived: Option<bool>)

  /** `{ ...sec, ...changes }`. */
  function Merge(sec: UiSection, ch: Changes): (r: UiSection)
    ensures r.id == sec.id && r.width == sec.width && r.height == sec.height
    ensures r.kind == sec.kind && r.order == sec.order
    ensures r.title == ch.title.GetOr(sec.title) && r.content == ch.content.GetOr(sec.content)
    ensures r.images == ch.images.GetOr(sec.images) && r.archived == ch.archived.GetOr(sec.archived)
  {
    sec.(title := ch.title.GetOr(sec.title), content := ch.content.GetOr(sec.content),
         images := ch.images.GetOr(sec.images), archived := ch.archived.GetOr(sec.archived))
  }

  /** Merging the same changes a second time changes nothing more. */
  lemma MergeIdempotent(sec: UiSection, ch: Changes)
    ensures Merge(Merge(sec, ch), ch) == Merge(sec, ch)
  {
  }

  predicate HasId(sec: UiSection, id: nat) {
    sec.id == id
  }

  /** `sections.map(sec => sec.id === id ? { ...sec, ...changes } : sec)`. */
  function UpdateById(s: seq<UiSection>, id: nat, ch: Changes): (r: seq<UiSection>)
    ensures |r| == |s|
    ensures forall i :: 0 <= i < |s| ==> r[i].id == s[i].id
    ensures forall i :: 0 <= i < |s| && s[i].id != id ==> r[i] == s[i]
    ensures forall i :: 0 <= i < |s| && s[i].id == id ==> r[i] == Merge(s[i], ch)
  {
    MapWhere(s, (sec: UiSection) => HasId(sec, id), (sec: UiSection) => Merge(sec, ch))
  }

  /** Repeating an update of a section is harmless: the list stays as the first update left it. */
  lemma UpdateByIdIdempotent(s: seq<UiSection>, id: nat, ch: Changes)
    ensures UpdateById(UpdateById(s, id, ch), id, ch) == UpdateById(s, id, ch)
  {
    var once := UpdateById(s, id, ch);
    forall i | 0 <= i < |s|
      ensures UpdateById(once, id, ch)[i] == once[i]
    {
      if s[i].id == id {
        MergeIdempotent(s[i], ch);
      }
    }
  }

  /** The `content` object of a backend request. */
  datatype PatchContent = PatchContent(html: string, images: seq<Image>)

  /** The `backendUpdate` object: None for each key it does not carry. */
  datatype Patch = Patch(title: Option<string>, content: Option<PatchContent>, isVisible: Option<bool>)

  /**
   * The `backendUpdate` of `handleUpdateSection`. When only one of content and images
   * changes, the other half is taken from the section as it was; if no section has the
   * id, reading it throws before any request goes out (None). When both change, the
   * section is not read and the patch goes out whether or not a card has the id.
   */
  function BuildPatch(s: seq<UiSection>, id: nat, ch: Changes): (r: Option<Patch>)
    ensures r.None? <==> (ch.content.Some? != ch.images.Some?) && forall i :: 0 <= i < |s| ==> s[i].id != id
    ensures r.Some? ==> r.value.title == ch.title
    ensures r.Some? ==> (r.value.isVisible.Some? <==> ch.archived.Some?)
    ensures r.Some? && ch.archived.Some? ==> r.value.isVisible == Some(!ch.archived.value)
    ensures r.Some? ==> (r.value.content.Some? <==> ch.content.Some? || ch.images.Some?)
    ensures ch.content.Some? && ch.images.Some? ==>
      r.Some? && r.value.content == Some(PatchContent(ch.content.value, ch.images.value))
    ensures r.Some? && r.value.content.Some? && Find(s, (sec: UiSection) => HasId(sec, id)).Some? ==>
      var sec := Find(s, (sec: UiSection) => HasId(sec, id)).value;
      r.value.content.value == PatchContent(ch.content.GetOr(sec.content), ch.images.GetOr(sec.images))
  {
    var isVisible := if ch.archived.Some? then Some(!ch.archived.value) else None;
    if ch.content.Some? && ch.images.Some? then
      Some(Patch(ch.title, Some(PatchContent(ch.content.value, ch.images.value)), isVisible))
    else if ch.content.Some? || ch.images.Some? then
      match Find(s, (sec: UiSection) => HasId(sec, id))
      case None => None
      case Some(sec) =>
        Some(Patch(ch.title, Some(PatchContent(ch.content.GetOr(sec.content), ch.images.GetOr(sec.images))), isVisible))
    else
      Some(Patch(ch.title, None, isVisible))
  }

  /**
   * What the patch sends is what the board now shows: its content is the html and images
   * of the first card with that id after the local update, its visibility that card's.
   */
  lemma PatchMatchesBoard(s: seq<UiSection>, id: nat, ch: Changes)
    requires BuildPatch(s, id, ch).Some?
    ensures var p := BuildPatch(s, id, ch).value;
      var i := FindIndex(s, (sec: UiSection) => HasId(sec, id));
      && (p.content.Some? && i.None? ==> ch.content.Some? && ch.images.Some?)
      && (p.content.Some? && i.Some? ==>
            p.content.value == PatchContent(UpdateById(s, id, ch)[i.value].content, UpdateById(s, id, ch)[i.value].images))
      && (p.isVisible.Some? && i.Some? ==> p.isVisible.value == !UpdateById(s, id, ch)[i.value].archived)
  {
  }

  /** `board.map` for the size a card was dragged to (`handleSizeCommit`). */
  function Resize(s: seq<UiSection>, id: nat, width: int, height: int): (r: seq<UiSection>)
    ensures |r| == |s|
    ensures forall i :: 0 <= i < |s| && s[i].id != id ==> r[i] == s[i]
    ensures forall i :: 0 <= i < |s| && s[i].id == id ==> r[i] == s[i].(width := width, height := height)
  {
    MapWhere(s, (sec: UiSection) => HasId(sec, id), (sec: UiSection) => sec.(width := width, height := height))
  }

  /** The body of a `sectionAPI.create` request. */
  datatype SectionRequest = SectionRequest(
    kind: string, title: string, content: PatchContent, order: int, isVisible: bool)

  /** The fields of `response.section` the handlers read. */
  datatype CreatedRow = CreatedRow(id: nat, title: string, kind: string, order: int)

  /**
   * The row the sections route stores for a create request (title `|| null`, content
   * as sent, the order and visibility as sent), as a later `getAll` returns it.
   */
  function Stored(id: nat, req: SectionRequest): (sec: BackendSection)
    ensures sec.id == id && sec.kind == req.kind && sec.order == req.order && sec.isVisible == req.isVisible
    ensures req.title != "" ==> sec.title == Some(req.title)
    ensures sec.content == RichContent(Some(req.content.html), Some(req.content.images))
  {
    BackendSection(id, if req.title == "" then None else Some(req.title),
                   RichContent(Some(req.content.html), Some(req.content.images)),
                   req.isVisible, req.kind, req.order)
  }

  /**
   * The `response.section` the sections route answers a create request with, for a
   * request with a title (an empty title is stored and answered as null).
   */
  function Echo(id: nat, req: SectionRequest): (row: CreatedRow)
    requires req.title != ""
    ensures row.id == id && row.title == req.title && row.kind == req.kind && row.order == req.order
    ensures Stored(id, req).title == Some(row.title)
  {
    CreatedRow(id, req.title, req.kind, req.order)
  }

  /** `handleAddSection`'s request for a board of `count` cards: `Section n` at order n = count + 1. */
  function NewSectionRequest(count: nat): (req: SectionRequest)
    ensures req.title == "Section " + NatToString(count + 1) && req.order == count + 1
    ensures req.kind == "custom" && req.content == PatchContent("", []) && req.isVisible
  {
    SectionRequest("custom", "Section " + NatToString(count + 1), PatchContent("", []), count + 1, true)
  }

  /** The card `handleAddSection` appends for the created row. */
  function NewCard(row: CreatedRow): (u: UiSection)
    ensures u.id == row.id && u.title == row.title && u.kind == row.kind && u.order == row.order
    ensures u.content == "" && u.images == [] && !u.archived
    ensures u.width == DefaultWidth && u.height == DefaultHeight
  {
    UiSection(row.id, row.title, DefaultWidth, DefaultHeight, "", [], false, row.kind, row.order)
  }

  /** An added card looks the same after the next load as right after adding it. */
  lemma AddedCardMatchesReload(count: nat, id: nat)
    ensures var req := NewSectionRequest(count);
      req.title != "" && ToUi(Stored(id, req)) == NewCard(Echo(id, req))
  {
    var req := NewSectionRequest(count);
    assert |req.title| > 0 by {
      assert |req.title| == 8 + |NatToString(count + 1)|;
    }
  }

  /** Every added section gets a title no other board size gives. */
  lemma NewSectionTitlesDiffer(m: nat, n: nat)
    requires m != n
    ensures NewSectionRequest(m).title != NewSectionRequest(n).title
  {
    var a, b := NewSectionRequest(m).title, NewSectionRequest(n).title;
    if a == b {
      assert a[8..] == NatToString(m + 1);
      assert b[8..] == NatToString(n + 1);
      NatToStringInjective(m + 1, n + 1);
    }
  }

  /** `handleDuplicateSection`'s request: the copy keeps type, content and visibility. */
  function DuplicateRequest(original: UiSection): (req: SectionRequest)
    ensures req.kind == original.kind && req.title == original.title + " (copy)"
    ensures req.order == original.order + 1 && req.isVisible == !original.archived
    ensures req.content == PatchContent(original.content, original.images)
  {
    SectionRequest(original.kind, original.title + " (copy)",
                   PatchContent(original.content, original.images), original.order + 1, !original.archived)
  }

  /** The card components/EditorWithBackend.jsx:190-200 builds for a copy: always not archived. */
  function CopyCardAsWritten(original: UiSection, row: CreatedRow): (u: UiSection)
    ensures !u.archived
    ensures u.id == row.id && u.title == row.title && u.kind == row.kind && u.order == row.order
    ensures u.width == original.width && u.height == original.height
    ensures u.content == original.content && u.images == original.images
  {
    UiSection(row.id, row.title, original.width, original.height, original.content, original.images,
              false, row.kind, row.order)
  }

  /**
   * The copy of an archived section is stored hidden (the request sends `isVisible:
   * !original.archived`) but shown as not archived until the next load.
   */
  lemma CopyOfArchivedShownUnarchived(original: UiSection, id: nat)
    requires original.archived
    ensures var req := DuplicateRequest(original);
      req.title != "" && ToUi(Stored(id, req)).archived && !CopyCardAsWritten(original, Echo(id, req)).archived
  {
    var req := DuplicateRequest(original);
    assert |req.title| == |original.title| + 7;
  }

  /** The copy's card as the request describes it: archived exactly when the original is. */
  function CopyCard(original: UiSection, row: CreatedRow): (u: UiSection)
    ensures u.archived == original.archived
    ensures u.id == row.id && u.title == row.title && u.kind == row.kind && u.order == row.order
    ensures u.width == original.width && u.height == original.height
    ensures u.content == original.content && u.images == original.images
  {
    UiSection(row.id, row.title, original.width, original.height, original.content, original.images,
              original.archived, row.kind, row.order)
  }

  /**
   * A copy's card agrees with what the next load shows for the stored copy, except for
   * the card size, which is not stored and comes back as 600 by 250.
   */
  lemma CopyCardMatchesReload(original: UiSection, id: nat)
    ensures var req := DuplicateRequest(original);
      req.title != "" && ToUi(Stored(id, req)) == CopyCard(original, Echo(id, req)).(width := DefaultWidth, height := DefaultHeight)
  {
    var req := DuplicateRequest(original);
    assert |req.title| == |original.title| + 7;
  }

  /**
   * The board after a copy was created: the copy right after the first card with `id`,
   * every other card in its place; an unknown id leaves the board alone.
   */
  function InsertCopy(s: seq<UiSection>, id: nat, row: CreatedRow): (r: seq<UiSection>)
    ensures FindIndex(s, (sec: UiSection) => HasId(sec, id)).None? ==> r == s
    ensures FindIndex(s, (sec: UiSection) => HasId(sec, id)).Some? ==>
      var i := FindIndex(s, (sec: UiSection) => HasId(sec, id)).value;
      && |r| == |s| + 1
      && r[..i + 1] == s[..i + 1]
      && r[i + 1] == CopyCard(s[i], row)
      && r[i + 2..] == s[i + 1..]
  {
    match FindIndex(s, (sec: UiSection) => HasId(sec, id))
    case None => s
    case Some(i) =>
      var r := InsertAt(s, i + 1, CopyCard(s[i], row));
      assert r[..i + 1] == r[..i + 1][..i + 1];
      assert r[i + 2..] == r[i + 1..][1..];
      r
  }

  /** `sections.filter(sec => sec.id !== id)`. */
  function DeleteById(s: seq<UiSection>, id: nat): (r: seq<UiSection>)
    ensures |r| <= |s|
    ensures forall i :: 0 <= i < |r| ==> r[i].id != id && r[i] in s
    ensures forall i :: 0 <= i < |s| && s[i].id != id ==> s[i] in r
  {
    Filter(s, (sec: UiSection) => !HasId(sec, id))
  }

  /** Deleting a card whose id is unique keeps the cards before and after it, in order. */
  lemma DeleteOneSection(s: seq<UiSection>, i: nat)
    requires i < |s|
    requires forall j :: 0 <= j < |s| && j != i ==> s[j].id != s[i].id
    ensures DeleteById(s, s[i].id) == s[..i] + s[i + 1..]
  {
    assert s == s[..i] + [s[i]] + s[i + 1..];
    FilterDropsOne(s[..i], s[i], s[i + 1..], (sec: UiSection) => !HasId(sec, s[i].id));
  }

  /** Deleting an id no card has leaves the board as it is. */
  lemma DeleteUnknownIsNoOp(s: seq<UiSection>, id: nat)
    requires forall i :: 0 <= i < |s| ==> s[i].id != id
    ensures DeleteById(s, id) == s
  {
    FilterKeepsAll(s, (sec: UiSection) => !HasId(sec, id));
  }

  /** Deleting a fresh copy right after creating it gives back the board as it was. */
  lemma DeleteCopyRestores(s: seq<UiSection>, id: nat, row: CreatedRow)
    requires forall i :: 0 <= i < |s| ==> s[i].id != row.id
    ensures DeleteById(InsertCopy(s, id, row), row.id) == s
  {
    match FindIndex(s, (sec: UiSection) => HasId(sec, id))
    case None =>
      DeleteUnknownIsNoOp(s, row.id);
    case Some(i) =>
      var r := InsertCopy(s, id, row);
      var c := CopyCard(s[i], row);
      assert r == s[..i + 1] + [c] + s[i + 1..] by {
        assert r == r[..i + 1] + [r[i + 1]] + r[i + 2..];
      }
      FilterDropsOne(s[..i + 1], c, s[i + 1..], (sec: UiSection) => !HasId(sec, row.id));
      assert s == s[..i + 1] + s[i + 1..];
  }

  /** `sections.map(sec => sec.id === id ? { ...sec, archived: !sec.archived } : sec)`. */
  function ToggleArchived(s: seq<UiSection>, id: nat): (r: seq<UiSection>)
    ensures |r| == |s|
    ensures forall i :: 0 <= i < |s| && s[i].id != id ==> r[i] == s[i]
    ensures forall i :: 0 <= i < |s| && s[i].id == id ==> r[i] == s[i].(archived := !s[i].archived)
  {
    MapWhere(s, (sec: UiSection) => HasId(sec, id), (sec: UiSection) => sec.(archived := !sec.archived))
  }

  /** Toggling the same card twice restores the board. */
  lemma ToggleArchivedTwice(s: seq<UiSection>, id: nat)
    ensures ToggleArchived(ToggleArchived(s, id), id) == s
  {
  }

  /** `projects.map(p => p.id === projectId ? response.project : p)`. */
  function ReplaceProject(ps: seq<Project>, projectId: nat, p: Project): (r: seq<Project>)
    ensures |r| == |ps|
    ensures forall i :: 0 <= i < |ps| && ps[i].id != projectId ==> r[i] == ps[i]
    ensures forall i :: 0 <= i < |ps| && ps[i].id == projectId ==> r[i] == p
  {
    MapWhere(ps, (q: Project) => q.id == projectId, (q: Project) => p)
  }

  /** `projects.filter(p => p.id !== projectId)`. */
  function DeleteProjectById(ps: seq<Project>, projectId: nat): (r: seq<Project>)
    ensures |r| <= |ps|
    ensures forall i :: 0 <= i < |r| ==> r[i].id != projectId && r[i] in ps
    ensures forall i :: 0 <= i < |ps| && ps[i].id != projectId ==> ps[i] in r
  {
    Filter(ps, (q: Project) => q.id != projectId)
  }

  /** Deleting a project whose id is unique keeps the projects before and after it, in order. */
  lemma DeleteOneProject(ps: seq<Project>, i: nat)
    requires i < |ps|
    requires forall j :: 0 <= j < |ps| && j != i ==> ps[j].id != ps[i].id
    ensures DeleteProjectById(ps, ps[i].id) == ps[..i] + ps[i + 1..]
  {
    assert ps == ps[..i] + [ps[i]] + ps[i + 1..];
    FilterDropsOne(ps[..i], ps[i], ps[i + 1..], (q: Project) => q.id != ps[i].id);
  }

  /** The portfolio the editor shows the title of. */
  datatype PortfolioInfo = PortfolioInfo(id: nat, title: string)

  /** The editor's component state. */
  class EditorState {
    var portfolio: Option<PortfolioInfo>
    var draftTitle: string
    var isEditingTitle: bool
    var sections: seq<UiSection>
    var projects: seq<Project>
    var loading: bool
    var saving: bool
    var error: string

    constructor ()
      ensures portfolio.None? && draftTitle == "" && !isEditingTitle
      ensures sections == [] && projects == [] && loading && !saving && error == ""
    {
      portfolio, draftTitle, isEditingTitle := None, "", false;
      sections, projects := [], [];
      loading, saving, error := true, false, "";
    }

    /**
     * `loadData`: the portfolio, its sections and its projects, fetched one after the
     * other; the first failure stops the rest and is reported.
     */
    method Load(portfolioResponse: Outcome<PortfolioInfo>, sectionsResponse: Outcome<seq<BackendSection>>,
                projectsResponse: Outcome<seq<Project>>)
      modifies this`portfolio, this`draftTitle, this`sections, this`projects, this`loading, this`error
      ensures !loading
      ensures portfolioResponse.Err? ==>
        && error == "Failed to load portfolio: " + portfolioResponse.message
        && portfolio == old(portfolio) && draftTitle == old(draftTitle)
        && sections == old(sections) && projects == old(projects)
      ensures portfolioResponse.Ok? ==>
        portfolio == Some(portfolioResponse.value) && draftTitle == portfolioResponse.value.title
      ensures portfolioResponse.Ok? && sectionsResponse.Err? ==>
        && error == "Failed to load portfolio: " + sectionsResponse.message
        && sections == old(sections) && projects == old(projects)
      ensures portfolioResponse.Ok? && sectionsResponse.Ok? ==> sections == ToUiAll(sectionsResponse.value)
      ensures portfolioResponse.Ok? && sectionsResponse.Ok? && projectsResponse.Err? ==>
        error == "Failed to load portfolio: " + projectsResponse.message && projects == old(projects)
      ensures portfolioResponse.Ok? && sectionsResponse.Ok? && projectsResponse.Ok? ==>
        error == "" && projects == projectsResponse.value
    {
      error := "";
      loading := true;
      match portfolioResponse {
      case Err(message) =>
        error := "Failed to load portfolio: " + message;
      case Ok(p) =>
        portfolio := Some(p);
        draftTitle := p.title;
        match sectionsResponse
        case Err(message) =>
          error := "Failed to load portfolio: " + message;
        case Ok(list) =>
          sections := ToUiAll(list);
          match projectsResponse
          case Err(message) =>
            error := "Failed to load portfolio: " + message;
          case Ok(ps) =>
            projects := ps;
      }
      loading := false;
    }

    /** `handleTitleSave`: sends `{ title: draftTitle }`; the new title is kept once the update succeeds. */
    method TitleSave(response: Outcome<()>) returns (title: string)
      requires portfolio.Some?
      modifies this`portfolio, this`isEditingTitle, this`saving, this`error
      ensures title == draftTitle
      ensures !saving
      ensures response.Ok? ==>
        portfolio == Some(old(portfolio).value.(title := draftTitle)) && !isEditingTitle && error == old(error)
      ensures response.Err? ==>
        && portfolio == old(portfolio) && isEditingTitle == old(isEditingTitle)
        && error == "Failed to update title: " + response.message
    {
      title := draftTitle;
      saving := true;
      match response {
      case Ok(_) =>
        portfolio := Some(portfolio.value.(title := draftTitle));
        isEditingTitle := false;
      case Err(message) =>
        error := "Failed to update title: " + message;
      }
      saving := false;
    }

    /** `handleTitleCancel`: the draft goes back to the saved title. */
    method TitleCancel()
      requires portfolio.Some?
      modifies this`draftTitle, this`isEditingTitle
      ensures draftTitle == portfolio.value.title && !isEditingTitle
    {
      draftTitle := portfolio.value.title;
      isEditingTitle := false;
    }

    /** `handleAddSection`: the created section is appended as a fresh, empty card. */
    method AddSection(response: Outcome<CreatedRow>) returns (request: SectionRequest)
      modifies this`sections, this`saving, this`error
      ensures request == NewSectionRequest(|old(sections)|)
      ensures !saving
      ensures response.Ok? ==> sections == old(sections) + [NewCard(response.value)] && error == old(error)
      ensures response.Err? ==>
        sections == old(sections) && error == "Failed to create section: " + response.message
    {
      request := NewSectionRequest(|sections|);
      saving := true;
      match response {
      case Ok(row) =>
        sections := sections + [NewCard(row)];
      case Err(message) =>
        error := "Failed to create section: " + message;
      }
      saving := false;
    }

    /**
     * `handleUpdateSection`: the board is updated at once; the patch is sent (None when
     * building it threw) and a failed update is reported and asks for a reload.
     */
    method UpdateSection(id: nat, changes: Changes, response: Outcome<()>)
      returns (patch: Option<Patch>, reload: bool)
      modifies this`sections, this`error
      ensures sections == UpdateById(old(sections), id, changes)
      ensures patch == BuildPatch(old(sections), id, changes)
      ensures patch.Some? && response.Err? ==> error == "Failed to update section: " + response.message && reload
      ensures patch.None? || response.Ok? ==> error == old(error) && !reload
    {
      var old_sections := sections;
      sections := UpdateById(sections, id, changes);
      patch := BuildPatch(old_sections, id, changes);
      reload := false;
      if patch.Some? && response.Err? {
        error := "Failed to update section: " + response.message;
        reload := true;
      }
    }

    /** `handleSizeCommit`: the card keeps the size it was dragged to. */
    method SizeCommit(id: nat, width: int, height: int)
      modifies this`sections
      ensures sections == Resize(old(sections), id, width, height)
    {
      sections := Resize(sections, id, width, height);
    }

    /**
     * `handleDuplicateSection`: nothing happens for an unknown id; otherwise the copy's
     * request is sent and the created copy lands right after the original.
     */
    method DuplicateSection(id: nat, response: Outcome<CreatedRow>) returns (request: Option<SectionRequest>)
      modifies this`sections, this`saving, this`error
      ensures var original := Find(old(sections), (sec: UiSection) => HasId(sec, id));
        && (original.None? ==>
              request.None? && sections == old(sections) && saving == old(saving) && error == old(error))
        && (original.Some? ==> request == Some(DuplicateRequest(original.value)) && !saving)
        && (original.Some? && response.Ok? ==>
              sections == InsertCopy(old(sections), id, response.value) && error == old(error))
        && (original.Some? && response.Err? ==>
              sections == old(sections) && error == "Failed to duplicate section: " + response.message)
    {
      var original := Find(sections, (sec: UiSection) => HasId(sec, id));
      if original.None? {
        return None;
      }
      request := Some(DuplicateRequest(original.value));
      saving := true;
      match response {
      case Ok(row) =>
        sections := InsertCopy(sections, id, row);
      case Err(message) =>
        error := "Failed to duplicate section: " + message;
      }
      saving := false;
    }

    /** `handleDeleteSection`. */
    method DeleteSection(id: nat, response: Outcome<()>)
      modifies this`sections, this`saving, this`error
      ensures !saving
      ensures response.Ok? ==> sections == DeleteById(old(sections), id) && error == old(error)
      ensures response.Err? ==>
        sections == old(sections) && error == "Failed to delete section: " + response.message
    {
      saving := true;
      match response {
      case Ok(_) =>
        sections := DeleteById(sections, id);
      case Err(message) =>
        error := "Failed to delete section: " + message;
      }
      saving := false;
    }

    /**
     * `handleToggleArchive`: for a known id, sends `isVisible` equal to the card's
     * current `archived` and flips the card once the update succeeds.
     */
    method ToggleArchive(id: nat, response: Outcome<()>) returns (isVisible: Option<bool>)
      modifies this`sections, this`error
      ensures var section := Find(old(sections), (sec: UiSection) => HasId(sec, id));
        && (section.None? ==> isVisible.None? && sections == old(sections) && error == old(error))
        && (section.Some? ==> isVisible == Some(section.value.archived))
        && (section.Some? && response.Ok? ==> sections == ToggleArchived(old(sections), id) && error == old(error))
        && (section.Some? && response.Err? ==>
              sections == old(sections) && error == "Failed to toggle archive: " + response.message)
    {
      var section := Find(sections, (sec: UiSection) => HasId(sec, id));
      if section.None? {
        return None;
      }
      isVisible := Some(section.value.archived);
      match response {
      case Ok(_) =>
        sections := ToggleArchived(sections, id);
      case Err(message) =>
        error := "Failed to toggle archive: " + message;
      }
    }

    /** `handleAddProject`: the created project is appended. */
    method AddProject(response: Outcome<Project>)
      modifies this`projects, this`saving, this`error
      ensures !saving
      ensures response.Ok? ==> projects == old(projects) + [response.value] && error == old(error)
      ensures response.Err? ==>
        projects == old(projects) && error == "Failed to create project: " + response.message
    {
      saving := true;
      match response {
      case Ok(p) =>
        projects := projects + [p];
      case Err(message) =>
        error := "Failed to create project: " + message;
      }
      saving := false;
    }

    /** `handleUpdateProject`: the project with that id is replaced by the server's answer. */
    method UpdateProject(projectId: nat, response: Outcome<Project>)
      modifies this`projects, this`saving, this`error
      ensures !saving
      ensures response.Ok? ==>
        projects == ReplaceProject(old(projects), projectId, response.value) && error == old(error)
      ensures response.Err? ==>
        projects == old(projects) && error == "Failed to update project: " + response.message
    {
      saving := true;
      match response {
      case Ok(p) =>
        projects := ReplaceProject(projects, projectId, p);
      case Err(message) =>
        error := "Failed to update project: " + message;
      }
      saving := false;
    }

    /** `handleDeleteProject`. */
    method DeleteProject(projectId: nat, response: Outcome<()>)
      modifies this`projects, this`saving, this`error
      ensures !saving
      ensures response.Ok? ==> projects == DeleteProjectById(old(projects), projectId) && error == old(error)
      ensures response.Err? ==>
        projects == old(projects) && error == "Failed to delete project: " + response.message
    {
      saving := true;
      match response {
      case Ok(_) =>
        projects := DeleteProjectById(projects, projectId);
      case Err(message) =>
        error := "Failed to delete project: " + message;
      }
      saving := false;
    }
  }
}
