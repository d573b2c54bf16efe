/** The projects page: the `projects` list it holds, the filtered list it
    shows, and how loading, deleting and the form's success callback change
    them. Projects are plain objects. */
module ProjectsPage {
  import opened Common
  import opened Seqs
  import opened Js
  import Text
  import Backend
  import ProjectService

  /** The lowercased name, description or tags contain the lowercased
      (untrimmed) search term; a missing field reads as ''. */
  predicate SearchMatches(p: Object, term: string) {
    var t := Text.Lower(term);
    Text.Contains(LowerText(Get(p, "name_c")), t) ||
    Text.Contains(LowerText(Get(p, "description_c")), t) ||
    Text.Contains(LowerText(Get(p, "Tags")), t)
  }

  /** The search applies only when the term is not blank. */
  predicate SearchActive(term: string) {
    Text.Trim(term) != ""
  }

  /** The project passes the search and the status filter. */
  predicate KeepProject(p: Object, term: string, status: string) {
    (!SearchActive(term) || SearchMatches(p, term)) &&
    (status == "all" || StrictEquals(Get(p, "status_c"), Str(status)))
  }

  function SearchFilter(term: string): Object -> bool {
    (p: Object) => SearchMatches(p, term)
  }

  function StatusFilter(status: string): Object -> bool {
    (p: Object) => StrictEquals(Get(p, "status_c"), Str(status))
  }

  function ProjectFilter(term: string, status: string): Object -> bool {
    (p: Object) => KeepProject(p, term, status)
  }

  /** The list the page shows for a search term and a status filter. */
  function VisibleProjects(projects: seq<Object>, term: string, status: string): (r: seq<Object>)
    ensures forall p :: p in r <==> p in projects && KeepProject(p, term, status)
  {
    Filter(ProjectFilter(term, status), projects)
  }

  /** The shown list keeps the projects in their order. */
  lemma VisibleIsSubsequence(projects: seq<Object>, term: string, status: string)
    ensures IsSubsequence(VisibleProjects(projects, term, status), projects)
  {
    FilterIsSubsequence(ProjectFilter(term, status), projects);
  }

  /** A blank search with status 'all' shows every project. */
  lemma BlankSearchShowsAll(projects: seq<Object>, term: string)
    requires forall i :: 0 <= i < |term| ==> Text.IsSpace(term[i])
    ensures VisibleProjects(projects, term, "all") == projects
  {
    Text.TrimBlank(term, Text.TrimStart(term), Text.Trim(term));
    FilterAllKept(ProjectFilter(term, "all"), projects);
  }

  /** `filterProjects`: the search filter, then the status filter, each
      applied only when set. */
  method FilterProjects(projects: seq<Object>, searchTerm: string, statusFilter: string) returns (filtered: seq<Object>)
    ensures filtered == VisibleProjects(projects, searchTerm, statusFilter)
  {
    filtered := projects;
    if Text.Trim(searchTerm) != "" {
      filtered := Filter(SearchFilter(searchTerm), filtered);
    }
    if statusFilter != "all" {
      filtered := Filter(StatusFilter(statusFilter), filtered);
    }
    TwoFiltersAreOne(projects, searchTerm, statusFilter);
  }

  /** The two optional filters in sequence are the one combined filter. */
  lemma TwoFiltersAreOne(projects: seq<Object>, term: string, status: string)
    ensures var searched := if SearchActive(term) then Filter(SearchFilter(term), projects) else projects;
            (if status != "all" then Filter(StatusFilter(status), searched) else searched)
              == VisibleProjects(projects, term, status)
  {
    var keep := ProjectFilter(term, status);
    if SearchActive(term) && status != "all" {
      FilterFilter(SearchFilter(term), StatusFilter(status), projects);
      FilterCongruent(And(SearchFilter(term), StatusFilter(status)), keep, projects);
    } else if SearchActive(term) {
      FilterCongruent(SearchFilter(term), keep, projects);
    } else if status != "all" {
      FilterCongruent(StatusFilter(status), keep, projects);
    } else {
      FilterAllKept(keep, projects);
    }
  }

  function OtherProject(id: JsValue): Object -> bool {
    (p: Object) => !StrictEquals(Get(p, "Id"), id)
  }

  /** `prev.filter(p => p.Id !== id)`. */
  function RemoveProject(projects: seq<Object>, id: JsValue): (r: seq<Object>)
    ensures forall p :: p in r <==> p in projects && !StrictEquals(Get(p, "Id"), id)
  {
    Filter(OtherProject(id), projects)
  }

  /** `prev.map(p => p.Id === id ? { ...p, ...data } : p)`. */
  function MergeById(projects: seq<Object>, id: JsValue, data: Object): (r: seq<Object>)
    ensures |r| == |projects|
    ensures forall i :: 0 <= i < |projects| && !StrictEquals(Get(projects[i], "Id"), id) ==> r[i] == projects[i]
    ensures forall i :: 0 <= i < |projects| && StrictEquals(Get(projects[i], "Id"), id) ==>
              r[i].Keys == projects[i].Keys + data.Keys &&
              (forall k :: k in data ==> r[i][k] == data[k]) &&
              (forall k :: k in projects[i] && k !in data ==> r[i][k] == projects[i][k])
  {
    seq(|projects|, i requires 0 <= i < |projects| =>
      if StrictEquals(Get(projects[i], "Id"), id) then projects[i] + data else projects[i])
  }

  /** A merge whose data carries no `Id` changes no project's Id. */
  lemma MergeKeepsIds(projects: seq<Object>, id: JsValue, data: Object)
    requires "Id" !in data
    ensures forall i :: 0 <= i < |projects| ==> Get(MergeById(projects, id, data)[i], "Id") == Get(projects[i], "Id")
  {
  }

  /** Such a merge touches nothing outside the edited project: the list
      without that project is the same before and after. */
  lemma {:induction false} MergeOnlyTouchesId(projects: seq<Object>, id: JsValue, data: Object)
    requires "Id" !in data
    ensures RemoveProject(MergeById(projects, id, data), id) == RemoveProject(projects, id)
  {
    if projects != [] {
      var r := MergeById(projects, id, data);
      var keep := OtherProject(id);
      assert r[1..] == MergeById(projects[1..], id, data);
      MergeOnlyTouchesId(projects[1..], id, data);
      if StrictEquals(Get(projects[0], "Id"), id) {
        assert Get(r[0], "Id") == Get(projects[0], "Id");
        assert !keep(r[0]) && !keep(projects[0]);
      } else {
        assert r[0] == projects[0];
      }
    }
  }

  /** `handleDeleteProject` as written: once the user confirms and the
      delete call resolves, the project leaves the list, whatever the
      call returned. */
  function DeleteAsWritten(projects: seq<Object>, project: Object, confirmed: bool, deleted: Result<bool>): (r: seq<Object>)
    ensures forall p :: p in r <==>
              p in projects && !(confirmed && deleted.Ok? && StrictEquals(Get(p, "Id"), Get(project, "Id")))
  {
    if confirmed && deleted.Ok? then RemoveProject(projects, Get(project, "Id")) else projects
  }

  /** `handleDeleteProject` as intended: the project leaves the list only
      when the repository reports it deleted. */
  function DeleteChecked(projects: seq<Object>, project: Object, confirmed: bool, deleted: Result<bool>): (r: seq<Object>)
    ensures confirmed && deleted == Ok(true) ==> r == RemoveProject(projects, Get(project, "Id"))
    ensures !(confirmed && deleted == Ok(true)) ==> r == projects
  {
    if confirmed && deleted == Ok(true) then RemoveProject(projects, Get(project, "Id")) else projects
  }

  /** The repository never rejects, so a failed delete reaches the page as
      `false`: as written, the project disappears from the list although the
      backend still holds it; the corrected handler keeps it. */
  lemma DeleteAsWrittenDropsUndeleted(projects: seq<Object>, project: Object, client: Backend.Client<Backend.BatchResponse<Object>>)
    requires project in projects && Get(project, "Id") != NaN
    requires !ProjectService.Delete(Get(project, "Id"), client).result
    ensures var deleted := Ok(ProjectService.Delete(Get(project, "Id"), client).result);
            project !in DeleteAsWritten(projects, project, true, deleted) &&
            DeleteChecked(projects, project, true, deleted) == projects
  {
  }

  /** The corrected handler only ever removes projects the repository
      reported deleted, and then exactly those with that Id. */
  lemma DeleteCheckedOnlyOnSuccess(projects: seq<Object>, project: Object, confirmed: bool, deleted: Result<bool>)
    ensures DeleteChecked(projects, project, confirmed, deleted) != projects ==> confirmed && deleted == Ok(true)
    ensures IsSubsequence(DeleteChecked(projects, project, confirmed, deleted), projects)
  {
    FilterIsSubsequence(OtherProject(Get(project, "Id")), projects);
    if !(confirmed && deleted == Ok(true)) {
      FilterAllKept((p: Object) => true, projects);
      FilterIsSubsequence((p: Object) => true, projects);
    }
  }

  class ProjectsPageState {
    var projects: seq<Object>
    var filteredProjects: seq<Object>
    var loading: bool
    var error: Option<string>
    var searchTerm: string
    var statusFilter: string
    var showForm: bool
    var editingProject: Option<Object>

    /** The shown list is the filtered `projects`, as the filter effect
      leaves it after every change of its inputs. */
    ghost predicate ViewCurrent()
      reads this
    {
      filteredProjects == VisibleProjects(projects, searchTerm, statusFilter)
    }

    constructor()
      ensures projects == [] && filteredProjects == [] && loading && error == None
      ensures searchTerm == "" && statusFilter == "all" && !showForm && editingProject == None
      ensures ViewCurrent()
    {
      projects := [];
      filteredProjects := [];
      loading := true;
      error := None;
      searchTerm := "";
      statusFilter := "all";
      showForm := false;
      editingProject := None;
    }

    /** The filter effect. */
    method Refresh()
      modifies this
      ensures filteredProjects == VisibleProjects(projects, searchTerm, statusFilter)
      ensures projects == old(projects) && searchTerm == old(searchTerm) && statusFilter == old(statusFilter)
      ensures loading == old(loading) && error == old(error)
      ensures showForm == old(showForm) && editingProject == old(editingProject)
    {
      filteredProjects := FilterProjects(projects, searchTerm, statusFilter);
    }

    /** New search or status settings, then the filter effect. */
    method ChangeFilters(term: string, status: string)
      modifies this
      ensures searchTerm == term && statusFilter == status
      ensures projects == old(projects) && ViewCurrent()
      ensures loading == old(loading) && error == old(error)
      ensures showForm == old(showForm) && editingProject == old(editingProject)
    {
      searchTerm := term;
      statusFilter := status;
      Refresh();
    }

    /** `loadProjects` once the fetch has settled: a result (or `[]` for no
      result) replaces the list; a rejection empties it and shows the error. */
    method LoadProjects(fetched: Result<Option<seq<Object>>>)
      modifies this
      ensures fetched.Ok? ==> projects == fetched.value.GetOr([]) && error == None
      ensures fetched.Err? ==> projects == []
      ensures fetched.Err? ==> error == Some(if fetched.message != "" then fetched.message else "Failed to load projects")
      ensures !loading && ViewCurrent()
      ensures searchTerm == old(searchTerm) && statusFilter == old(statusFilter)
      ensures showForm == old(showForm) && editingProject == old(editingProject)
    {
      loading := true;
      error := None;
      match fetched {
        case Ok(data) => projects := data.GetOr([]);
        case Err(message) =>
          error := Some(if message != "" then message else "Failed to load projects");
          projects := [];
      }
      loading := false;
      Refresh();
    }

    /** `handleCreateProject`. */
    method CreateProject()
      modifies this
      ensures editingProject == None && showForm
      ensures projects == old(projects) && filteredProjects == old(filteredProjects)
      ensures searchTerm == old(searchTerm) && statusFilter == old(statusFilter)
      ensures loading == old(loading) && error == old(error)
      ensures old(ViewCurrent()) ==> ViewCurrent()
    {
      editingProject := None;
      showForm := true;
    }

    /** `handleEditProject`. */
    method EditProject(project: Object)
      modifies this
      ensures editingProject == Some(project) && showForm
      ensures projects == old(projects) && filteredProjects == old(filteredProjects)
      ensures searchTerm == old(searchTerm) && statusFilter == old(statusFilter)
      ensures loading == old(loading) && error == old(error)
      ensures old(ViewCurrent()) ==> ViewCurrent()
    {
      editingProject := Some(project);
      showForm := true;
    }

    /** `handleDeleteProject`, with the removal made conditional on the
      repository's answer. */
    method DeleteProject(project: Object, confirmed: bool, deleted: Result<bool>) returns (called: bool)
      modifies this
      ensures called == confirmed
      ensures projects == DeleteChecked(old(projects), project, confirmed, deleted)
      ensures ViewCurrent()
      ensures showForm == old(showForm) && editingProject == old(editingProject)
      ensures searchTerm == old(searchTerm) && statusFilter == old(statusFilter)
      ensures loading == old(loading) && error == old(error)
    {
      called := confirmed;
      if confirmed && deleted == Ok(true) {
        projects := RemoveProject(projects, Get(project, "Id"));
      }
      Refresh();
    }

    /** `handleFormSuccess`: the data is merged into the edited project, or
      a new project is put first; the form closes. */
    method FormSuccess(projectData: Object)
      modifies this
      ensures old(editingProject).Some? ==>
                projects == MergeById(old(projects), Get(old(editingProject).value, "Id"), projectData)
      ensures old(editingProject).None? ==> projects == [projectData] + old(projects)
      ensures !showForm && editingProject == None
      ensures ViewCurrent()
      ensures searchTerm == old(searchTerm) && statusFilter == old(statusFilter)
      ensures loading == old(loading) && error == old(error)
    {
      match editingProject {
        case Some(e) => projects := MergeById(projects, Get(e, "Id"), projectData);
        case None => projects := [projectData] + projects;
      }
      showForm := false;
      editingProject := None;
      Refresh();
    }

    /** `handleFormCancel`. */
    method FormCancel()
      modifies this
      ensures !showForm && editingProject == None
      ensures projects == old(projects) && filteredProjects == old(filteredProjects)
      ensures searchTerm == old(searchTerm) && statusFilter == old(statusFilter)
      ensures loading == old(loading) && error == old(error)
      ensures old(ViewCurrent()) ==> ViewCurrent()
    {
      showForm := false;
      editingProject := None;
    }
  }
}
