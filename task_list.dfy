/** The task list view: the `tasks` collection it holds, the filtered view
    it derives, the per-category counts, and how each handler changes the
    collection once the awaited service call has settled. */
module TaskList {
  import opened Common
  import opened Seqs
  import opened Records
  import Text

  /** The four filter settings: search text, status ("all", "active",
      "completed"), priority ("all" or a priority) and selected category. */
  datatype Filters = Filters(query: string, status: string, priority: string, category: Option<int>)

  /** The settings the view starts with: nothing is filtered. */
  const NoFilters: Filters := Filters("", "all", "all", None)

  /** The lowercased text field contains the lowercased query; a missing
      field matches nothing. */
  predicate TextMatches(field: Option<string>, query: string) {
    field.Some? && Text.Contains(Text.Lower(field.value), Text.Lower(query))
  }

  /** The task passes all four filters. */
  predicate Keep(t: Task, f: Filters)
  {
    (f.query == "" || TextMatches(t.title, f.query) || TextMatches(t.description, f.query)) &&
    !(f.status == "active" && t.completed) &&
    !(f.status == "completed" && !t.completed) &&
    (f.priority == "all" || t.priority == Some(f.priority)) &&
    // a selected category of 0 is falsy and filters nothing
    (f.category.None? || f.category.value == 0 || t.categoryId == f.category)
  }

  function KeepTask(f: Filters): Task -> bool {
    (t: Task) => Keep(t, f)
  }

  /** `getFilteredTasks`. */
  function FilteredTasks(tasks: seq<Task>, f: Filters): (view: seq<Task>)
    ensures forall t :: t in view <==> t in tasks && Keep(t, f)
  {
    Filter(KeepTask(f), tasks)
  }

  /** The view keeps the tasks in their order. */
  lemma FilteredIsSubsequence(tasks: seq<Task>, f: Filters)
    ensures IsSubsequence(FilteredTasks(tasks, f), tasks)
  {
    FilterIsSubsequence(KeepTask(f), tasks);
  }

  /** With the initial settings the view is the whole list. */
  lemma NoFiltersKeepAll(tasks: seq<Task>)
    ensures FilteredTasks(tasks, NoFilters) == tasks
  {
    FilterAllKept(KeepTask(NoFilters), tasks);
  }

  /** A created task shows up at the end of the view when it passes the filters. */
  lemma FilteredAfterAppend(tasks: seq<Task>, t: Task, f: Filters)
    ensures FilteredTasks(tasks + [t], f) == FilteredTasks(tasks, f) + (if Keep(t, f) then [t] else [])
  {
    FilterAppend(KeepTask(f), tasks, [t]);
  }

  function IsDone(t: Task): bool {
    t.completed
  }

  /** `activeTasks`. */
  function ActiveTasks(view: seq<Task>): (r: seq<Task>)
    ensures forall t :: t in r <==> t in view && !t.completed
  {
    var active := Not(IsDone);
    assert forall t :: active(t) == !t.completed;
    Filter(active, view)
  }

  /** `completedTasks`. */
  function CompletedTasks(view: seq<Task>): (r: seq<Task>)
    ensures forall t :: t in r <==> t in view && t.completed
  {
    Filter(IsDone, view)
  }

  /** The active and completed lists share no task and together hold
      exactly the tasks of the view. */
  lemma ActiveCompletedPartition(view: seq<Task>)
    ensures forall t :: !(t in ActiveTasks(view) && t in CompletedTasks(view))
    ensures |ActiveTasks(view)| + |CompletedTasks(view)| == |view|
    ensures multiset(ActiveTasks(view)) + multiset(CompletedTasks(view)) == multiset(view)
  {
    FilterPartition(IsDone, view);
  }

  /** Choosing status "active" or "completed" shows the same tasks as the
      active or completed part of the view with status "all". */
  lemma StatusFilterIsSplit(tasks: seq<Task>, f: Filters)
    ensures FilteredTasks(tasks, f.(status := "active")) == ActiveTasks(FilteredTasks(tasks, f.(status := "all")))
    ensures FilteredTasks(tasks, f.(status := "completed")) == CompletedTasks(FilteredTasks(tasks, f.(status := "all")))
  {
    var all := KeepTask(f.(status := "all"));
    var active, completed := KeepTask(f.(status := "active")), KeepTask(f.(status := "completed"));
    forall i | 0 <= i < |tasks|
      ensures And(all, Not(IsDone))(tasks[i]) == active(tasks[i])
      ensures And(all, IsDone)(tasks[i]) == completed(tasks[i])
    {
      var t := tasks[i];
      assert And(all, Not(IsDone))(t) == (Keep(t, f.(status := "all")) && !t.completed);
      assert And(all, IsDone)(t) == (Keep(t, f.(status := "all")) && t.completed);
    }
    FilterFilter(all, Not(IsDone), tasks);
    FilterCongruent(And(all, Not(IsDone)), active, tasks);
    FilterFilter(all, IsDone, tasks);
    FilterCongruent(And(all, IsDone), completed, tasks);
  }

  function InCategory(id: int): Task -> bool {
    (t: Task) => t.categoryId == Some(id)
  }

  /** The number of tasks of the whole list in category `id`. */
  function CountInCategory(tasks: seq<Task>, id: int): (n: nat)
    ensures n <= |tasks|
  {
    CountIf(InCategory(id), tasks)
  }

  /** A category's count is the size of the view that selects only that
      category, whatever other filters are set. */
  lemma CountIsCategoryView(tasks: seq<Task>, id: int)
    requires id != 0
    ensures CountInCategory(tasks, id) == |FilteredTasks(tasks, NoFilters.(category := Some(id)))|
  {
    FilterCongruent(InCategory(id), KeepTask(NoFilters.(category := Some(id))), tasks);
  }

  /** `prev.map(t => t.Id === id ? updated : t)`. */
  function ReplaceById(tasks: seq<Task>, id: int, updated: Task): (r: seq<Task>)
    ensures |r| == |tasks|
    ensures forall i :: 0 <= i < |tasks| && tasks[i].Id != id ==> r[i] == tasks[i]
    ensures forall i :: 0 <= i < |tasks| && tasks[i].Id == id ==> r[i] == updated
  {
    seq(|tasks|, i requires 0 <= i < |tasks| => if tasks[i].Id == id then updated else tasks[i])
  }

  function OtherId(id: int): Task -> bool {
    (t: Task) => t.Id != id
  }

  /** `prev.filter(t => t.Id !== id)`. */
  function RemoveById(tasks: seq<Task>, id: int): (r: seq<Task>)
    ensures forall t :: t in r <==> t in tasks && t.Id != id
  {
    Filter(OtherId(id), tasks)
  }

  /** A delete keeps the other tasks in their order. */
  lemma RemoveIsSubsequence(tasks: seq<Task>, id: int)
    ensures IsSubsequence(RemoveById(tasks, id), tasks)
  {
    FilterIsSubsequence(OtherId(id), tasks);
  }

  /** Two deletes give the same list in either order. */
  lemma RemovesCommute(tasks: seq<Task>, a: int, b: int)
    ensures RemoveById(RemoveById(tasks, a), b) == RemoveById(RemoveById(tasks, b), a)
  {
    FilterCommutes(OtherId(b), OtherId(a), tasks);
  }

  /** A replacement that keeps the Id touches nothing but that Id: the list
      without it is the same before and after. */
  lemma {:induction false} ReplaceOnlyTouchesId(tasks: seq<Task>, id: int, updated: Task)
    requires updated.Id == id
    ensures RemoveById(ReplaceById(tasks, id, updated), id) == RemoveById(tasks, id)
  {
    if tasks != [] {
      var r := ReplaceById(tasks, id, updated);
      assert r[1..] == ReplaceById(tasks[1..], id, updated);
      ReplaceOnlyTouchesId(tasks[1..], id, updated);
    }
  }

  /** `tasks.find(t => t.Id === id)`: the first task with that Id. */
  function FindTask(tasks: seq<Task>, id: int): (r: Option<Task>)
    ensures r.Some? ==> r.value in tasks && r.value.Id == id
    ensures r.Some? ==> exists i :: 0 <= i < |tasks| && tasks[i] == r.value && forall j :: 0 <= j < i ==> tasks[j].Id != id
    ensures r.None? <==> forall i :: 0 <= i < |tasks| ==> tasks[i].Id != id
  {
    if tasks == [] then None
    else if tasks[0].Id == id then Some(tasks[0])
    else
      var r := FindTask(tasks[1..], id);
      if r.Some? then
        var i :| 0 <= i < |tasks[1..]| && tasks[1..][i] == r.value && forall j :: 0 <= j < i ==> tasks[1..][j].Id != id;
        assert tasks[i + 1] == r.value && forall j :: 0 <= j < i + 1 ==> tasks[j].Id != id;
        r
      else r
  }

  /** The service call a completion toggle makes. */
  datatype ToggleCall = NoCall | MarkIncompleteCall(id: int) | MarkCompleteCall(id: int)

  /** A toggle of an unknown Id makes no call; otherwise it marks the task
      incomplete exactly when the local copy is completed. */
  function ToggleCallFor(tasks: seq<Task>, id: int): (c: ToggleCall)
    ensures c.NoCall? <==> FindTask(tasks, id).None?
    ensures c.MarkIncompleteCall? <==> FindTask(tasks, id).Some? && FindTask(tasks, id).value.completed
    ensures !c.NoCall? ==> c.id == id
  {
    match FindTask(tasks, id)
    case None => NoCall
    case Some(t) => if t.completed then MarkIncompleteCall(id) else MarkCompleteCall(id)
  }

  /** The service call a form submission makes. */
  datatype SubmitCall = UpdateCall(id: int) | CreateCall

  class TaskListController {
    var tasks: seq<Task>
    var categories: seq<Category>
    var loading: bool
    var error: string
    var showForm: bool
    var editingTask: Option<Task>

    /** The state the view is mounted with. */
    constructor()
      ensures tasks == [] && categories == [] && loading && error == ""
      ensures !showForm && editingTask == None
    {
      tasks := [];
      categories := [];
      loading := true;
      error := "";
      showForm := false;
      editingTask := None;
    }

    /** `loadData` once both fetches have settled: both lists are replaced
      together, or on a rejection neither is and the error is shown. */
    method LoadData(fetched: Result<(seq<Task>, seq<Category>)>)
      modifies this
      ensures fetched.Ok? ==> tasks == fetched.value.0 && categories == fetched.value.1 && error == ""
      ensures fetched.Err? ==> tasks == old(tasks) && categories == old(categories)
      ensures fetched.Err? ==> error == if fetched.message != "" then fetched.message else "Failed to load tasks"
      ensures !loading
      ensures showForm == old(showForm) && editingTask == old(editingTask)
    {
      loading := true;
      error := "";
      match fetched {
        case Ok(lists) =>
          tasks := lists.0;
          categories := lists.1;
        case Err(message) =>
          error := if message != "" then message else "Failed to load tasks";
      }
      loading := false;
    }

    /** `handleCreateTask`: an empty form. */
    method CreateTask()
      modifies this
      ensures editingTask == None && showForm
      ensures tasks == old(tasks) && categories == old(categories)
      ensures loading == old(loading) && error == old(error)
    {
      editingTask := None;
      showForm := true;
    }

    /** `handleEditTask`: the form prefilled with `task`. */
    method EditTask(task: Task)
      modifies this
      ensures editingTask == Some(task) && showForm
      ensures tasks == old(tasks) && categories == old(categories)
      ensures loading == old(loading) && error == old(error)
    {
      editingTask := Some(task);
      showForm := true;
    }

    /** `handleSubmitTask` once the update (when editing) or the create has
      settled: a returned task replaces the edited one or is appended; a
      resolved call closes the form whatever it returned. */
    method SubmitTask(saved: Result<Option<Task>>) returns (call: SubmitCall)
      modifies this
      ensures call == if old(editingTask).Some? then UpdateCall(old(editingTask).value.Id) else CreateCall
      ensures saved.Ok? && saved.value.Some? && call.UpdateCall? ==>
                tasks == ReplaceById(old(tasks), call.id, saved.value.value)
      ensures saved.Ok? && saved.value.Some? && call.CreateCall? ==> tasks == old(tasks) + [saved.value.value]
      ensures !(saved.Ok? && saved.value.Some?) ==> tasks == old(tasks)
      ensures saved.Ok? ==> !showForm && editingTask == None
      ensures saved.Err? ==> showForm == old(showForm) && editingTask == old(editingTask)
      ensures categories == old(categories)
      ensures loading == old(loading) && error == old(error)
    {
      match editingTask {
        case Some(e) =>
          call := UpdateCall(e.Id);
          if saved.Ok? && saved.value.Some? {
            tasks := ReplaceById(tasks, e.Id, saved.value.value);
          }
        case None =>
          call := CreateCall;
          if saved.Ok? && saved.value.Some? {
            tasks := tasks + [saved.value.value];
          }
      }
      if saved.Ok? {
        showForm := false;
        editingTask := None;
      }
    }

    /** `handleToggleComplete` once the mark call (if any) has settled. */
    method ToggleComplete(id: int, marked: Result<Option<Task>>) returns (call: ToggleCall)
      modifies this
      ensures call == ToggleCallFor(old(tasks), id)
      ensures !call.NoCall? && marked.Ok? && marked.value.Some? ==>
                tasks == ReplaceById(old(tasks), id, marked.value.value)
      ensures call.NoCall? || !(marked.Ok? && marked.value.Some?) ==> tasks == old(tasks)
      ensures categories == old(categories) && showForm == old(showForm) && editingTask == old(editingTask)
      ensures loading == old(loading) && error == old(error)
    {
      call := ToggleCallFor(tasks, id);
      if !call.NoCall? && marked.Ok? && marked.value.Some? {
        tasks := ReplaceById(tasks, id, marked.value.value);
      }
    }

    /** `handleDeleteTask`: nothing happens unless the user confirms; the task
      leaves the list only when the delete reports success. */
    method DeleteTask(id: int, confirmed: bool, deleted: Result<bool>) returns (called: bool)
      modifies this
      ensures called == confirmed
      ensures called && deleted == Ok(true) ==> tasks == RemoveById(old(tasks), id)
      ensures !(called && deleted == Ok(true)) ==> tasks == old(tasks)
      ensures categories == old(categories) && showForm == old(showForm) && editingTask == old(editingTask)
      ensures loading == old(loading) && error == old(error)
    {
      called := confirmed;
      if confirmed && deleted == Ok(true) {
        tasks := RemoveById(tasks, id);
      }
    }

    /** The form's cancel callback. */
    method CancelForm()
      modifies this
      ensures !showForm && editingTask == None
      ensures tasks == old(tasks) && categories == old(categories)
      ensures loading == old(loading) && error == old(error)
    {
      showForm := false;
      editingTask := None;
    }

    /** `getTaskCounts`: for every category Id, the number of tasks of the
      whole (unfiltered) list in that category. */
    method TaskCounts() returns (counts: map<int, nat>)
      ensures forall i :: 0 <= i < |categories| ==> categories[i].Id in counts
      ensures forall id :: id in counts ==> exists i :: 0 <= i < |categories| && categories[i].Id == id
      ensures forall id :: id in counts ==> counts[id] == CountInCategory(tasks, id)
    {
      counts := map[];
      var i := 0;
      while i < |categories|
        invariant 0 <= i <= |categories|
        invariant forall j :: 0 <= j < i ==> categories[j].Id in counts
        invariant forall id :: id in counts ==> exists j :: 0 <= j < i && categories[j].Id == id
        invariant forall id :: id in counts ==> counts[id] == CountInCategory(tasks, id)
      {
        counts := counts[categories[i].Id := CountInCategory(tasks, categories[i].Id)];
        i := i + 1;
      }
    }
  }
}
