/**
 * The project dialog of components/ProjectsManager.jsx: the form a project is edited
 * in, the comma-separated technologies field and the add/update/feature actions the
 * dialog hands to its parent.
 */
module ProjectsManager {
  import opened Wrappers
  import opened Strings
  import opened Lists

  /** A project as the API returns it; the optional fields may be missing. */
  datatype Project = Project(
    id: nat,
    title: string,
    description: Option<string>,
    technologies: Option<seq<string>>,
    liveUrl: Option<string>,
    githubUrl: Option<string>,
    featuredImage: Option<string>,
    isFeatured: Option<bool>)

  /** The dialog's form: every field a string, technologies as one comma-separated string. */
  datatype FormData = FormData(
    title: string,
    description: string,
    technologies: string,
    liveUrl: string,
    githubUrl: string,
    featuredImage: string,
    isFeatured: bool)

  /** What `handleSave` hands on: the form with technologies parsed into a list. */
  datatype ProjectData = ProjectData(
    title: string,
    description: string,
    technologies: seq<string>,
    liveUrl: string,
    githubUrl: string,
    featuredImage: string,
    isFeatured: bool)

  /** The parent callback a dialog action invokes. */
  datatype Action =
    | AddProject(data: ProjectData)
    | UpdateProject(projectId: nat, data: ProjectData)
    | SetFeatured(projectId: nat, isFeatured: bool)
    | DeleteProject(projectId: nat)

  const EmptyForm := FormData("", "", "", "", "", "", false)

  /** `project.technologies?.join(', ') || ''`. */
  function FormatTechnologies(technologies: Option<seq<string>>): (s: string)
    ensures technologies.None? ==> s == ""
    ensures technologies.Some? && |technologies.value| == 1 ==> s == technologies.value[0]
  {
    match technologies
    case None => ""
    case Some(list) => Join(list, ", ")
  }

  /** The entries `trim` leaves non-empty, trimmed, in order: `.map(t => t.trim()).filter(Boolean)`. */
  function TrimAndDropEmpty(parts: seq<string>): (r: seq<string>)
    ensures |r| <= |parts|
    ensures forall i :: 0 <= i < |r| ==> r[i] != "" && IsTrimmed(r[i])
    ensures forall i :: 0 <= i < |r| ==> exists j :: 0 <= j < |parts| && r[i] == Trim(parts[j])
    ensures forall j :: 0 <= j < |parts| && Trim(parts[j]) != "" ==> Trim(parts[j]) in r
  {
    var trimmed := TrimEach(parts);
    var r := Filter(trimmed, NonBlank);
    forall i | 0 <= i < |r|
      ensures r[i] != "" && IsTrimmed(r[i])
      ensures exists j :: 0 <= j < |parts| && r[i] == Trim(parts[j])
    {
      var j :| 0 <= j < |trimmed| && trimmed[j] == r[i];
      assert r[i] == Trim(parts[j]);
    }
    forall j | 0 <= j < |parts| && Trim(parts[j]) != ""
      ensures Trim(parts[j]) in r
    {
      assert NonBlank(trimmed[j]);
    }
    r
  }

  /** One piece: its trim when that is not empty, nothing otherwise. */
  lemma TrimAndDropEmptyOne(p: string)
    ensures TrimAndDropEmpty([p]) == if Trim(p) == "" then [] else [Trim(p)]
  {
    var trimmed := TrimEach([p]);
    assert trimmed == [Trim(p)];
    assert trimmed[1..] == [];
  }

  /** The kept entries of two lists of pieces are those of the first, then those of the second. */
  lemma TrimAndDropEmptyConcat(a: seq<string>, b: seq<string>)
    ensures TrimAndDropEmpty(a + b) == TrimAndDropEmpty(a) + TrimAndDropEmpty(b)
  {
    TrimEachConcat(a, b);
    FilterConcat(TrimEach(a), TrimEach(b), NonBlank);
  }

  lemma TrimEachConcat(a: seq<string>, b: seq<string>)
    ensures TrimEach(a + b) == TrimEach(a) + TrimEach(b)
  {
  }

  /** `parts.map(t => t.trim())`. */
  function TrimEach(parts: seq<string>): (r: seq<string>)
    ensures |r| == |parts|
    ensures forall i :: 0 <= i < |parts| ==> r[i] == Trim(parts[i])
  {
    seq(|parts|, i requires 0 <= i < |parts| => Trim(parts[i]))
  }

  /** `Boolean` on a string: it is not empty. */
  predicate NonBlank(t: string) {
    t != ""
  }

  /** `technologies.split(',').map(t => t.trim()).filter(Boolean)`. */
  function ParseTechnologies(s: string): (r: seq<string>)
    ensures forall i :: 0 <= i < |r| ==> r[i] != "" && IsTrimmed(r[i]) && ',' !in r[i]
    ensures var parts := Split(s, ',');
      forall j :: 0 <= j < |parts| && Trim(parts[j]) != "" ==> Trim(parts[j]) in r
  {
    var parts := Split(s, ',');
    var r := TrimAndDropEmpty(parts);
    forall i | 0 <= i < |r|
      ensures ',' !in r[i]
    {
      var j :| 0 <= j < |parts| && r[i] == Trim(parts[j]);
      TrimKeepsOut(parts[j], ',');
    }
    r
  }

  /** An entry the technologies field can carry unchanged: non-empty, trimmed, free of commas. */
  predicate IsTechnology(t: string) {
    t != "" && IsTrimmed(t) && ',' !in t
  }

  /** Text without a comma is one entry: its trim, or nothing when it is blank. */
  lemma ParseTechnologiesOne(s: string)
    requires ',' !in s
    ensures ParseTechnologies(s) == if Trim(s) == "" then [] else [Trim(s)]
  {
    assert Split(s + [], ',') == [s + Split([], ',')[0]] + Split([], ',')[1..] by {
      SplitPrefix(s, [], ',');
    }
    assert s + [] == s && Split([], ',') == [""];
    TrimAndDropEmptyOne(s);
  }

  /**
   * Entries are saved in the order they were typed: the technologies of text with a
   * comma in it are those before the comma, then those after it.
   */
  lemma ParseTechnologiesConcat(a: string, b: string)
    ensures ParseTechnologies(a + "," + b) == ParseTechnologies(a) + ParseTechnologies(b)
  {
    assert a + "," + b == a + [','] + b;
    SplitAtSep(a, b, ',');
    TrimAndDropEmptyConcat(Split(a, ','), Split(b, ','));
  }

  /** Each entry after the first, with the space `join(', ')` puts in front of it. */
  function Spaced(list: seq<string>): seq<string> {
    seq(|list|, i requires 0 <= i < |list| => " " + list[i])
  }

  lemma {:induction false} JoinSpaced(list: seq<string>)
    requires |list| >= 1
    ensures Join(Spaced(list), ",") == " " + Join(list, ", ")
    decreases |list|
  {
    if |list| > 1 {
      JoinSpaced(list[1..]);
      assert Spaced(list)[1..] == Spaced(list[1..]);
    }
  }

  /** `join(', ')` is a plain comma join of the entries with a space put before all but the first. */
  lemma JoinCommaSpace(list: seq<string>)
    requires |list| >= 1
    ensures Join(list, ", ") == Join([list[0]] + Spaced(list[1..]), ",")
  {
    if |list| == 1 {
      assert [list[0]] + Spaced(list[1..]) == list;
    } else {
      JoinCommaSpaceLong(list);
    }
  }

  lemma JoinCommaSpaceLong(list: seq<string>)
    requires |list| > 1
    ensures Join(list, ", ") == Join([list[0]] + Spaced(list[1..]), ",")
  {
    var pieces := [list[0]] + Spaced(list[1..]);
    var rest := Join(list[1..], ", ");
    assert Join(list, ", ") == list[0] + ", " + rest;
    assert Join(pieces, ",") == list[0] + "," + (" " + rest) by {
      assert |pieces| > 1 && pieces[0] == list[0];
      assert pieces[1..] == Spaced(list[1..]);
      JoinSpaced(list[1..]);
    }
    CommaThenSpace(list[0], rest);
  }

  lemma CommaThenSpace(x: string, y: string)
    ensures x + "," + (" " + y) == x + ", " + y
  {
    assert "," + " " == ", ";
    assert x + "," + (" " + y) == x + ("," + " ") + y;
  }

  /** The comma-separated pieces of a formatted, non-empty list: each entry, all but the first after a space. */
  lemma SplitFormatted(list: seq<string>)
    requires |list| >= 1
    requires forall i :: 0 <= i < |list| ==> ',' !in list[i]
    ensures Split(Join(list, ", "), ',') == [list[0]] + Spaced(list[1..])
  {
    var pieces := [list[0]] + Spaced(list[1..]);
    JoinCommaSpace(list);
    forall i | 0 <= i < |pieces|
      ensures ',' !in pieces[i]
    {
      if i > 0 {
        assert pieces[i] == [' '] + list[i];
      }
    }
    SplitJoin(pieces, ',');
  }

  /** Trimming the pieces of a formatted list of technologies gives back the entries. */
  lemma TrimPieces(list: seq<string>)
    requires |list| >= 1
    requires forall i :: 0 <= i < |list| ==> IsTechnology(list[i])
    ensures var pieces := [list[0]] + Spaced(list[1..]);
      TrimEach(pieces) == list
  {
    var pieces := [list[0]] + Spaced(list[1..]);
    forall i | 0 <= i < |pieces|
      ensures Trim(pieces[i]) == list[i]
    {
      TrimPiece(list, i);
    }
  }

  lemma TrimPiece(list: seq<string>, i: nat)
    requires i < |list|
    requires IsTrimmed(list[i])
    ensures Trim(([list[0]] + Spaced(list[1..]))[i]) == list[i]
  {
    var pieces := [list[0]] + Spaced(list[1..]);
    if i == 0 {
      assert pieces[0] == list[0];
      TrimTrimmed(list[0]);
    } else {
      assert pieces[i] == " " + list[i] by {
        assert pieces[i] == Spaced(list[1..])[i - 1];
      }
      TrimSpaced(list[i]);
    }
  }

  /** The space `join(', ')` puts before an entry is gone after `trim`. */
  lemma TrimSpaced(t: string)
    requires IsTrimmed(t)
    ensures Trim(" " + t) == t
  {
    assert " " + t == [' '] + t;
    TrimLeadingWhitespace(' ', t);
    TrimTrimmed(t);
  }

  /**
   * Formatting a list of technologies for the form and saving the form unchanged gives
   * the same list back, as long as no entry is empty, padded or holds a comma.
   */
  lemma ParseFormatRoundTrip(list: seq<string>)
    requires forall i :: 0 <= i < |list| ==> IsTechnology(list[i])
    ensures ParseTechnologies(FormatTechnologies(Some(list))) == list
  {
    if |list| == 0 {
      assert Split("", ',') == [""];
      assert Trim("") == "";
    } else {
      SplitFormatted(list);
      TrimPieces(list);
      FilterKeepsAll(list, NonBlank);
    }
  }

  /** An entry that is only whitespace between two commas disappears on save. */
  lemma BlankEntryDropped(a: string, blank: string, b: string)
    requires IsTechnology(a) && IsTechnology(b)
    requires AllWhitespace(blank) && ',' !in blank
    ensures ParseTechnologies(a + "," + blank + "," + b) == [a, b]
  {
    SplitThree(a, blank, b);
    ThreePieces(a, blank, b);
    DropBlankMiddle(a, blank, b);
  }

  lemma ThreePieces(a: string, blank: string, b: string)
    ensures [a, blank, b] == [a] + [blank] + [b] && [a] + [b] == [a, b]
  {
  }

  lemma SplitThree(a: string, blank: string, b: string)
    requires ',' !in a && ',' !in blank && ',' !in b
    ensures Split(a + "," + blank + "," + b, ',') == [a, blank, b]
  {
    var parts := [a, blank, b];
    assert parts[1..] == [blank, b] && [blank, b][1..] == [b];
    assert Join([b], [',']) == b;
    assert Join([blank, b], [',']) == blank + [','] + b;
    assert Join(parts, [',']) == a + [','] + (blank + [','] + b);
    assert a + [','] + (blank + [','] + b) == a + "," + blank + "," + b;
    SplitJoin(parts, ',');
  }

  lemma DropBlankMiddle(a: string, blank: string, b: string)
    requires IsTechnology(a) && IsTechnology(b) && AllWhitespace(blank)
    ensures TrimAndDropEmpty([a] + [blank] + [b]) == [a] + [b]
  {
    var front := [a] + [blank];
    assert TrimAndDropEmpty(front) == [a] by {
      KeepsTechnology(a);
      DropsBlank(blank);
      TrimAndDropEmptyConcat([a], [blank]);
    }
    AppendTechnology(front, b);
  }

  lemma AppendTechnology(front: seq<string>, t: string)
    requires IsTechnology(t)
    ensures TrimAndDropEmpty(front + [t]) == TrimAndDropEmpty(front) + [t]
  {
    KeepsTechnology(t);
    TrimAndDropEmptyConcat(front, [t]);
  }

  lemma KeepsTechnology(t: string)
    requires IsTechnology(t)
    ensures TrimAndDropEmpty([t]) == [t]
  {
    TrimTrimmed(t);
    TrimAndDropEmptyOne(t);
  }

  lemma DropsBlank(blank: string)
    requires AllWhitespace(blank)
    ensures TrimAndDropEmpty([blank]) == []
  {
    AllWhitespaceTrimsEmpty(blank);
    TrimAndDropEmptyOne(blank);
  }

  /** The form `handleOpenDialog` fills in: from the project, or all empty for a new one. */
  function FormFor(project: Option<Project>): (f: FormData)
    ensures project.None? ==> f == EmptyForm
    ensures project.Some? ==>
      var p := project.value;
      && f.title == p.title
      && f.description == p.description.GetOr("")
      && f.technologies == FormatTechnologies(p.technologies)
      && f.liveUrl == p.liveUrl.GetOr("")
      && f.githubUrl == p.githubUrl.GetOr("")
      && f.featuredImage == p.featuredImage.GetOr("")
      && (f.isFeatured <==> p.isFeatured == Some(true))
  {
    match project
    case None => EmptyForm
    case Some(p) =>
      FormData(p.title, p.description.GetOr(""), FormatTechnologies(p.technologies),
               p.liveUrl.GetOr(""), p.githubUrl.GetOr(""), p.featuredImage.GetOr(""),
               p.isFeatured == Some(true))
  }

  /** The `projectData` of `handleSave`: the form as typed, technologies parsed. */
  function ToProjectData(f: FormData): (d: ProjectData)
    ensures d.title == f.title && d.description == f.description && d.liveUrl == f.liveUrl
    ensures d.githubUrl == f.githubUrl && d.featuredImage == f.featuredImage && d.isFeatured == f.isFeatured
    ensures d.technologies == ParseTechnologies(f.technologies)
  {
    ProjectData(f.title, f.description, ParseTechnologies(f.technologies),
                f.liveUrl, f.githubUrl, f.featuredImage, f.isFeatured)
  }

  /**
   * Opening an existing project whose technologies are well formed and saving without
   * edits hands back the project's own fields (missing ones as "" and false).
   */
  lemma OpenThenSaveKeepsProject(p: Project)
    requires p.technologies.Some?
    requires forall i :: 0 <= i < |p.technologies.value| ==> IsTechnology(p.technologies.value[i])
    ensures ToProjectData(FormFor(Some(p))) ==
      ProjectData(p.title, p.description.GetOr(""), p.technologies.value, p.liveUrl.GetOr(""),
                  p.githubUrl.GetOr(""), p.featuredImage.GetOr(""), p.isFeatured == Some(true))
  {
    ParseFormatRoundTrip(p.technologies.value);
  }

  /** `handleToggleFeatured`: the update carries the negation of the project's current flag. */
  function ToggleFeatured(p: Project): (a: Action)
    ensures a.SetFeatured? && a.projectId == p.id
    ensures a.isFeatured <==> p.isFeatured != Some(true)
  {
    SetFeatured(p.id, !(p.isFeatured == Some(true)))
  }

  /** Toggling a project after the first toggle took effect sends back its original flag. */
  lemma ToggleFeaturedTwice(p: Project)
    ensures var once := ToggleFeatured(p);
      ToggleFeatured(p.(isFeatured := Some(once.isFeatured))).isFeatured == (p.isFeatured == Some(true))
  {
  }

  /** `handleDelete`: the parent deletes only when the user confirms. */
  function Delete(projectId: nat, confirmed: bool): (a: Option<Action>)
    ensures a.Some? <==> confirmed
    ensures a.Some? ==> a.value == DeleteProject(projectId)
  {
    if confirmed then Some(DeleteProject(projectId)) else None
  }

  /** The dialog's component state. */
  class ProjectDialog {
    var dialogOpen: bool
    var editingProject: Option<Project>
    var formData: FormData

    constructor ()
      ensures !dialogOpen && editingProject.None? && formData == EmptyForm
    {
      dialogOpen, editingProject, formData := false, None, EmptyForm;
    }

    /** `handleOpenDialog(project)`. */
    method Open(project: Option<Project>)
      modifies this
      ensures dialogOpen && editingProject == project && formData == FormFor(project)
    {
      editingProject := project;
      formData := FormFor(project);
      dialogOpen := true;
    }

    /** The `onChange` handlers: the form takes what was typed. */
    method Edit(f: FormData)
      modifies this`formData
      ensures formData == f
    {
      formData := f;
    }

    /** `handleCloseDialog`: the form keeps its content, the edited project is forgotten. */
    method Close()
      modifies this`dialogOpen, this`editingProject
      ensures !dialogOpen && editingProject.None?
    {
      dialogOpen := false;
      editingProject := None;
    }

    /**
     * `handleSave`: update when a project is being edited, add otherwise, then close.
     * The Save button is disabled while the title is empty.
     */
    method Save() returns (action: Action)
      requires formData.title != ""
      modifies this`dialogOpen, this`editingProject
      ensures old(editingProject).Some? ==> action == UpdateProject(old(editingProject).value.id, ToProjectData(formData))
      ensures old(editingProject).None? ==> action == AddProject(ToProjectData(formData))
      ensures !dialogOpen && editingProject.None? && formData == old(formData)
    {
      var projectData := ToProjectData(formData);
      if editingProject.Some? {
        action := UpdateProject(editingProject.value.id, projectData);
      } else {
        action := AddProject(projectData);
      }
      Close();
    }
  }
}
