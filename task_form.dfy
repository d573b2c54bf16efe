/** The task form: its field values, errors and uploaded files, the effect
    that resets them, validation against the current time, and the record
    it hands to `onSubmit`. */
module TaskForm {
  import opened Common
  import opened Js
  import opened Records
  import Text
  import TaskService

  const TitleRequired: string := "Title is required"
  const DueInPast: string := "Due date must be in the future"

  /** The values of an empty form, with the given category selected. */
  function BlankData(category: string): Object {
    map["title_c" := Str(""), "description_c" := Str(""), "priority_c" := Str("medium"),
        "due_date_c" := Str(""), "category_id_c" := Str(category)]
  }

  /** The form's values before the effect first runs. */
  function InitialData(): Object {
    BlankData("")
  }

  /** The values the effect sets: the edited task's fields ('' when missing,
      priority "medium" when missing, the due date to the minute, the
      category Id as text), or for a new task an empty form on the first
      category. */
  function ResetData(task: Option<Task>, categories: seq<Category>): (fd: Object)
    ensures fd.Keys == {"title_c", "description_c", "priority_c", "due_date_c", "category_id_c"}
    ensures task.None? ==> fd == BlankData(if |categories| > 0 then Text.IntToString(categories[0].Id) else "")
    ensures task.Some? ==> fd["title_c"] == Str(task.value.title.GetOr(""))
    ensures task.Some? ==> fd["description_c"] == Str(task.value.description.GetOr(""))
    ensures task.Some? ==>
              fd["priority_c"] == Str(if task.value.priority.GetOr("") != "" then task.value.priority.value else "medium")
    ensures task.Some? ==>
              fd["due_date_c"] == if task.value.dueDate.Some? then Time(ToMinute(task.value.dueDate.value)) else Str("")
    ensures task.Some? ==>
              fd["category_id_c"] == Str(if task.value.categoryId.Some? then Text.IntToString(task.value.categoryId.value) else "")
  {
    match task
    case None => BlankData(if |categories| > 0 then Text.IntToString(categories[0].Id) else "")
    case Some(t) =>
      map[
        "title_c" := Str(t.title.GetOr("")),
        "description_c" := Str(t.description.GetOr("")),
        "priority_c" := Str(if t.priority.GetOr("") != "" then t.priority.value else "medium"),
        "due_date_c" := if t.dueDate.Some? then Time(ToMinute(t.dueDate.value)) else Str(""),
        "category_id_c" := Str(if t.categoryId.Some? then Text.IntToString(t.categoryId.value) else "")]
  }

  /** The due date is given, parses, and is not after `now`. A date that
      does not parse compares false and is never in the past. */
  predicate DueNotInFuture(fd: Object, now: int) {
    Truthy(Get(fd, "due_date_c")) && AsDate(Get(fd, "due_date_c")).Some? &&
    AsDate(Get(fd, "due_date_c")).value <= now
  }

  /** The errors of the two checks, given their outcomes. */
  function ErrorsOf(titleBlank: bool, duePast: bool): map<string, string> {
    (if titleBlank then map["title_c" := TitleRequired] else map[]) +
    (if duePast then map["due_date_c" := DueInPast] else map[])
  }

  /** The errors `validateForm` finds at time `now`. */
  function TaskErrors(fd: Object, now: int): (e: map<string, string>)
    ensures e.Keys <= {"title_c", "due_date_c"}
    ensures "title_c" in e <==> Blank(Get(fd, "title_c"))
    ensures "due_date_c" in e <==> DueNotInFuture(fd, now)
    ensures "title_c" in e ==> e["title_c"] == TitleRequired
    ensures "due_date_c" in e ==> e["due_date_c"] == DueInPast
  {
    ErrorsOf(Blank(Get(fd, "title_c")), DueNotInFuture(fd, now))
  }

  /** The errors `validateForm` builds one check at a time are those of the
      two checks' outcomes. */
  lemma ErrorsAsBuilt(titleBlank: bool, duePast: bool, built: map<string, string>)
    requires built.Keys <= {"title_c", "due_date_c"}
    requires "title_c" in built <==> titleBlank
    requires "due_date_c" in built <==> duePast
    requires "title_c" in built ==> built["title_c"] == TitleRequired
    requires "due_date_c" in built ==> built["due_date_c"] == DueInPast
    ensures built == ErrorsOf(titleBlank, duePast)
    ensures |built| == 0 <==> !titleBlank && !duePast
  {
    if |built| == 0 {
      assert built.Keys == {};
    }
  }

  /** The record handed to `onSubmit`: the values with the category parsed,
      the due date as an ISO string or `null` when empty, and the files;
      nothing when converting the due date throws. */
  function SubmitData(fd: Object, files: seq<JsValue>): (r: Option<Object>)
    ensures r.None? <==> Truthy(Get(fd, "due_date_c")) && AsDate(Get(fd, "due_date_c")).None?
    ensures r.Some? ==> r.value.Keys == fd.Keys + {"category_id_c", "due_date_c", "files"}
    ensures r.Some? ==> forall k :: k in fd && k !in {"category_id_c", "due_date_c"} && k != "files" ==> r.value[k] == fd[k]
    ensures r.Some? ==> r.value["category_id_c"] == ParseIntValue(Get(fd, "category_id_c"))
    ensures r.Some? ==>
              r.value["due_date_c"] == (if Truthy(Get(fd, "due_date_c")) then Time(AsDate(Get(fd, "due_date_c")).value) else Null)
    ensures r.Some? ==> r.value["files"] == Arr(files)
  {
    var due := Get(fd, "due_date_c");
    if Truthy(due) && AsDate(due).None? then None
    else
      Some(fd + map[
        "category_id_c" := ParseIntValue(Get(fd, "category_id_c")),
        "due_date_c" := if Truthy(due) then Time(AsDate(due).value) else Null,
        "files" := Arr(files)])
  }

  /** A new task submitted on the default category reaches the repository's
      create payload with that category's Id, unless the Id is 0, which is
      falsy and sent as `null`. */
  lemma DefaultCategoryReachesCreate(categories: seq<Category>, files: seq<JsValue>, now: int)
    requires |categories| > 0
    ensures var sent := SubmitData(ResetData(None, categories), files);
            sent.Some? &&
            TaskService.CreatePayload(sent.value, now)["category_id_c"] ==
              if categories[0].Id == 0 then Null else Num(categories[0].Id)
  {
    var id := categories[0].Id;
    var fd := ResetData(None, categories);
    assert Get(fd, "due_date_c") == Str("");
    assert Get(fd, "category_id_c") == Str(Text.IntToString(id));
    ParseIntValueOfText(id);
    var sent := SubmitData(fd, files);
    assert Get(sent.value, "category_id_c") == Num(id);
    TaskService.CategoryReferenceOfText(id);
  }

  /** Saving an edited task without changes submits its category Id and its
      due date truncated to the minute. */
  lemma EditRoundTrip(task: Task, files: seq<JsValue>)
    ensures var sent := SubmitData(ResetData(Some(task), []), files);
            sent.Some? &&
            sent.value["category_id_c"] == (if task.categoryId.Some? then Num(task.categoryId.value) else NaN) &&
            sent.value["due_date_c"] == (if task.dueDate.Some? then Time(ToMinute(task.dueDate.value)) else Null)
  {
    var fd := ResetData(Some(task), []);
    var due := Get(fd, "due_date_c");
    assert due == if task.dueDate.Some? then Time(ToMinute(task.dueDate.value)) else Str("");
    assert Truthy(due) ==> AsDate(due) == Some(ToMinute(task.dueDate.value));
    var category := Get(fd, "category_id_c");
    if task.categoryId.Some? {
      assert category == Str(Text.IntToString(task.categoryId.value));
      ParseIntValueOfText(task.categoryId.value);
    } else {
      assert category == Str("");
    }
  }

  class TaskFormState {
    var formData: Object
    var errors: map<string, string>
    var uploadedFiles: seq<JsValue>

    constructor()
      ensures formData == InitialData() && errors == map[] && uploadedFiles == []
    {
      formData := InitialData();
      errors := map[];
      uploadedFiles := [];
    }

    /** The effect run when the task, the categories or the visibility change. */
    method Reset(task: Option<Task>, categories: seq<Category>)
      modifies this
      ensures formData == ResetData(task, categories)
      ensures errors == map[] && uploadedFiles == []
    {
      formData := ResetData(task, categories);
      errors := map[];
      uploadedFiles := [];
    }

    /** `handleInputChange`: sets the field, and clears its error if it has one. */
    method HandleInputChange(name: string, value: JsValue)
      modifies this
      ensures formData == old(formData)[name := value]
      ensures name in old(errors) && old(errors)[name] != "" ==> errors == old(errors)[name := ""]
      ensures !(name in old(errors) && old(errors)[name] != "") ==> errors == old(errors)
      ensures uploadedFiles == old(uploadedFiles)
    {
      formData := formData[name := value];
      if name in errors && errors[name] != "" {
        errors := errors[name := ""];
      }
    }

    /** `handleFileStateChange`: the uploader's files, or none. */
    method HandleFileStateChange(files: Option<seq<JsValue>>)
      modifies this
      ensures uploadedFiles == files.GetOr([])
      ensures formData == old(formData) && errors == old(errors)
    {
      uploadedFiles := if files.Some? then files.value else [];
    }

    /** `validateForm` at time `now`. */
    method ValidateForm(now: int) returns (valid: bool)
      modifies this
      ensures errors == TaskErrors(formData, now)
      ensures valid <==> errors == map[]
      ensures formData == old(formData) && uploadedFiles == old(uploadedFiles)
    {
      var fd := formData;
      var newErrors: map<string, string> := map[];
      if Blank(Get(fd, "title_c")) {
        newErrors := newErrors["title_c" := TitleRequired];
      }
      if Truthy(Get(fd, "due_date_c")) {
        var dueDate := AsDate(fd["due_date_c"]);
        if dueDate.Some? && dueDate.value <= now {
          newErrors := newErrors["due_date_c" := DueInPast];
        }
      }
      ErrorsAsBuilt(Blank(Get(fd, "title_c")), DueNotInFuture(fd, now), newErrors);
      errors := newErrors;
      valid := |newErrors| == 0;
    }

    /** `handleSubmit` at time `now`: only a valid form calls `onSubmit`. */
    method HandleSubmit(now: int) returns (sent: Option<Object>)
      modifies this
      ensures errors == TaskErrors(old(formData), now)
      ensures errors != map[] ==> sent == None
      ensures errors == map[] ==> sent == SubmitData(formData, uploadedFiles)
      ensures formData == old(formData) && uploadedFiles == old(uploadedFiles)
    {
      var valid := ValidateForm(now);
      if !valid {
        sent := None;
        return;
      }
      sent := SubmitData(formData, uploadedFiles);
    }
  }
}
