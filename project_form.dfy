/** The project form: its field values, its validation errors and its
    submission, which shapes the values into the record handed to the
    `onSubmit` callback. */
module ProjectForm {
  import opened Common
  import opened Js
  import Text
  import ProjectService

  const NameRequired: string := "Project name is required"
  const EndBeforeStart: string := "End date must be after start date"

  /** The values a new project starts with. */
  function InitialData(): Object {
    map["name_c" := Str(""), "description_c" := Str(""), "start_date_c" := Str(""),
        "end_date_c" := Str(""), "status_c" := Str("Not Started")]
  }

  /** `formatDateForInput`: a falsy value or one that is not a valid date
      gives ''; a date is rendered to the minute, which the input reads back
      as that minute. */
  function FormatDateForInput(v: JsValue): (r: JsValue)
    ensures !Truthy(v) || AsDate(v).None? ==> r == Str("")
    ensures Truthy(v) && AsDate(v).Some? ==> r == Time(ToMinute(AsDate(v).value))
  {
    if !Truthy(v) then Str("")
    else match AsDate(v)
      case Some(t) => Time(ToMinute(t))
      case None => Str("")
  }

  /** The values an edit starts with: the project's fields, '' for missing
      ones, dates rendered for the input, status 'Not Started' if missing. */
  function PrefillData(project: Object): (fd: Object)
    ensures fd.Keys == ProjectService.ProjectFields
    ensures fd["name_c"] == Or(Get(project, "name_c"), Str(""))
    ensures fd["description_c"] == Or(Get(project, "description_c"), Str(""))
    ensures fd["status_c"] == Or(Get(project, "status_c"), Str("Not Started"))
    ensures forall k :: k in {"start_date_c", "end_date_c"} ==> fd[k] == FormatDateForInput(Get(project, k))
  {
    map[
      "name_c" := Or(Get(project, "name_c"), Str("")),
      "description_c" := Or(Get(project, "description_c"), Str("")),
      "start_date_c" := if Truthy(Get(project, "start_date_c")) then FormatDateForInput(Get(project, "start_date_c")) else Str(""),
      "end_date_c" := if Truthy(Get(project, "end_date_c")) then FormatDateForInput(Get(project, "end_date_c")) else Str(""),
      "status_c" := Or(Get(project, "status_c"), Str("Not Started"))]
  }

  /** Both dates are given, both parse, and the start is not before the end.
      A date that does not parse compares false, so it never triggers this. */
  predicate DatesOutOfOrder(fd: Object) {
    Truthy(Get(fd, "start_date_c")) && Truthy(Get(fd, "end_date_c")) &&
    AsDate(Get(fd, "start_date_c")).Some? && AsDate(Get(fd, "end_date_c")).Some? &&
    AsDate(Get(fd, "start_date_c")).value >= AsDate(Get(fd, "end_date_c")).value
  }

  /** The errors of the two checks, given their outcomes. */
  function ErrorsOf(nameBlank: bool, outOfOrder: bool): map<string, string> {
    (if nameBlank then map["name_c" := NameRequired] else map[]) +
    (if outOfOrder then map["end_date_c" := EndBeforeStart] else map[])
  }

  /** The errors `validateForm` finds. */
  function ProjectErrors(fd: Object): (e: map<string, string>)
    ensures e.Keys <= {"name_c", "end_date_c"}
    ensures "name_c" in e <==> Blank(Get(fd, "name_c"))
    ensures "end_date_c" in e <==> DatesOutOfOrder(fd)
    ensures "name_c" in e ==> e["name_c"] == NameRequired
    ensures "end_date_c" in e ==> e["end_date_c"] == EndBeforeStart
  {
    ErrorsOf(Blank(Get(fd, "name_c")), DatesOutOfOrder(fd))
  }

  /** With at most one date given there is never a date error, and a
      form is valid exactly when it names the project and its dates, when
      both are given, are in order. */
  lemma ValidForm(fd: Object)
    ensures !Truthy(Get(fd, "start_date_c")) || !Truthy(Get(fd, "end_date_c")) ==> "end_date_c" !in ProjectErrors(fd)
    ensures ProjectErrors(fd) == map[] <==> !Blank(Get(fd, "name_c")) && !DatesOutOfOrder(fd)
  {
    if ProjectErrors(fd) == map[] {
      assert "name_c" !in ProjectErrors(fd);
    }
  }

  predicate IsDateField(k: string) {
    k == "start_date_c" || k == "end_date_c"
  }

  /** The value submitted for a truthy field: dates as ISO strings. */
  function SubmitValue(fd: Object, k: string): JsValue
    requires k in fd
  {
    if IsDateField(k) then ToIsoString(fd[k]).GetOr(fd[k]) else fd[k]
  }

  /** The submitted fields drawn from `fields`. */
  function SubmitFields(fd: Object, fields: set<string>): Object {
    map k | k in fields && k in fd && Truthy(fd[k]) :: SubmitValue(fd, k)
  }

  /** A truthy date that does not parse makes `toISOString` throw. */
  predicate DateThrows(fd: Object, k: string) {
    Truthy(Get(fd, k)) && AsDate(Get(fd, k)).None?
  }

  /** The record handed to `onSubmit`: only the truthy fields, dates as ISO
      strings; nothing when converting a date throws. */
  function SubmitData(fd: Object): (r: Option<Object>)
    ensures r.None? <==> DateThrows(fd, "start_date_c") || DateThrows(fd, "end_date_c")
    ensures r.Some? ==> r.value.Keys == set k | k in ProjectService.ProjectFields && Truthy(Get(fd, k))
    ensures r.Some? ==> forall k :: k in r.value && !IsDateField(k) ==> r.value[k] == fd[k]
    ensures r.Some? ==> forall k :: k in r.value && IsDateField(k) ==> r.value[k] == Time(AsDate(fd[k]).value)
  {
    if DateThrows(fd, "start_date_c") || DateThrows(fd, "end_date_c") then None
    else Some(SubmitFields(fd, ProjectService.ProjectFields))
  }

  /** One more `if` of the submit builder. */
  lemma SubmitFieldsStep(fd: Object, fields: set<string>, k: string)
    ensures SubmitFields(fd, fields + {k}) ==
              if Truthy(Get(fd, k)) then SubmitFields(fd, fields)[k := SubmitValue(fd, k)] else SubmitFields(fd, fields)
  {
  }

  /** The repository's create keeps everything the form submits. */
  lemma SubmittedSurvivesCreate(fd: Object)
    requires SubmitData(fd).Some?
    ensures PickTruthy(SubmitData(fd).value, ProjectService.ProjectFields) == SubmitData(fd).value
  {
  }

  /** Saving an edit without changes submits the project's truthy name,
      description and status unchanged and its dates truncated to the minute. */
  lemma EditRoundTrip(project: Object, k: string)
    requires k in ProjectService.ProjectFields && Truthy(Get(project, k))
    requires IsDateField(k) ==> AsDate(Get(project, k)).Some?
    ensures SubmitData(PrefillData(project)).Some?
    ensures var sent := SubmitData(PrefillData(project)).value;
            k in sent &&
            sent[k] == if IsDateField(k) then Time(ToMinute(AsDate(Get(project, k)).value)) else Get(project, k)
  {
    var fd := PrefillData(project);
    assert !DateThrows(fd, "start_date_c") && !DateThrows(fd, "end_date_c");
  }

  /** The errors `validateForm` builds one check at a time are those of the
      two checks' outcomes. */
  lemma ErrorsAsBuilt(nameBlank: bool, outOfOrder: bool, built: map<string, string>)
    requires built.Keys <= {"name_c", "end_date_c"}
    requires "name_c" in built <==> nameBlank
    requires "end_date_c" in built <==> outOfOrder
    requires "name_c" in built ==> built["name_c"] == NameRequired
    requires "end_date_c" in built ==> built["end_date_c"] == EndBeforeStart
    ensures built == ErrorsOf(nameBlank, outOfOrder)
    ensures |built| == 0 <==> !nameBlank && !outOfOrder
  {
    if |built| == 0 {
      assert built.Keys == {};
    }
  }

  /** Shapes the values one `if` per field, as `handleSubmit` does; `threw`
      when converting a date throws, which stops the shaping. */
  method BuildSubmitData(fd: Object) returns (submitData: Object, threw: bool)
    ensures threw <==> SubmitData(fd).None?
    ensures !threw ==> submitData == SubmitData(fd).value
  {
    submitData := map[];
    ghost var done: set<string> := {};
    assert submitData == SubmitFields(fd, done);
    SubmitFieldsStep(fd, done, "name_c");
    if Truthy(Get(fd, "name_c")) { submitData := submitData["name_c" := fd["name_c"]]; }
    done := done + {"name_c"};
    SubmitFieldsStep(fd, done, "description_c");
    if Truthy(Get(fd, "description_c")) { submitData := submitData["description_c" := fd["description_c"]]; }
    done := done + {"description_c"};
    submitData, threw := AddDate(fd, "start_date_c", submitData, done);
    done := done + {"start_date_c"};
    if !threw {
      submitData, threw := AddDate(fd, "end_date_c", submitData, done);
      done := done + {"end_date_c"};
    }
    if !threw {
      SubmitFieldsStep(fd, done, "status_c");
      if Truthy(Get(fd, "status_c")) { submitData := submitData["status_c" := fd["status_c"]]; }
      done := done + {"status_c"};
      assert done == ProjectService.ProjectFields;
    }
  }

  /** One date field of the shaping: a truthy date becomes its ISO string, or
      the conversion throws. */
  method AddDate(fd: Object, k: string, submitData: Object, ghost done: set<string>) returns (next: Object, threw: bool)
    requires IsDateField(k)
    requires submitData == SubmitFields(fd, done)
    ensures threw <==> DateThrows(fd, k)
    ensures !threw ==> next == SubmitFields(fd, done + {k})
  {
    SubmitFieldsStep(fd, done, k);
    next := submitData;
    threw := false;
    if Truthy(Get(fd, k)) {
      match ToIsoString(fd[k]) {
        case Some(iso) => next := submitData[k := iso];
        case None => threw := true;
      }
    }
  }

  class ProjectFormState {
    var formData: Object
    var errors: map<string, string>
    var isSubmitting: bool

    constructor()
      ensures formData == InitialData() && errors == map[] && !isSubmitting
    {
      formData := InitialData();
      errors := map[];
      isSubmitting := false;
    }

    /** The prefill effect: only an edited project replaces the values. */
    method Prefill(project: Option<Object>)
      modifies this
      ensures project.Some? ==> formData == PrefillData(project.value)
      ensures project.None? ==> formData == old(formData)
      ensures errors == old(errors) && isSubmitting == old(isSubmitting)
    {
      if project.Some? {
        formData := PrefillData(project.value);
      }
    }

    /** `handleInputChange`: sets the field, and clears its error if it has one. */
    method HandleInputChange(field: string, value: JsValue)
      modifies this
      ensures formData == old(formData)[field := value]
      ensures field in old(errors) && old(errors)[field] != "" ==> errors == old(errors)[field := ""]
      ensures !(field in old(errors) && old(errors)[field] != "") ==> errors == old(errors)
      ensures isSubmitting == old(isSubmitting)
    {
      formData := formData[field := value];
      if field in errors && errors[field] != "" {
        errors := errors[field := ""];
      }
    }

    /** `validateForm`: records the errors it finds and reports whether there are none. */
    method ValidateForm() returns (valid: bool)
      modifies this
      ensures errors == ProjectErrors(formData)
      ensures valid <==> errors == map[]
      ensures formData == old(formData) && isSubmitting == old(isSubmitting)
    {
      var fd := formData;
      var newErrors: map<string, string> := map[];
      if Blank(Get(fd, "name_c")) {
        newErrors := newErrors["name_c" := NameRequired];
      }
      if Truthy(Get(fd, "start_date_c")) && Truthy(Get(fd, "end_date_c")) {
        var startDate := AsDate(fd["start_date_c"]);
        var endDate := AsDate(fd["end_date_c"]);
        if startDate.Some? && endDate.Some? && startDate.value >= endDate.value {
          newErrors := newErrors["end_date_c" := EndBeforeStart];
        }
      }
      ErrorsAsBuilt(Blank(Get(fd, "name_c")), DatesOutOfOrder(fd), newErrors);
      errors := newErrors;
      valid := |newErrors| == 0;
    }

    /** `handleSubmit`: an invalid form is not submitted; a valid one is shaped
      field by field and handed to `onSubmit` when the form has that callback.
      A conversion that throws or a missing callback is caught, and the form
      is no longer submitting afterwards. */
    method HandleSubmit(hasOnSubmit: bool) returns (sent: Option<Object>)
      modifies this
      ensures errors == ProjectErrors(old(formData)) && formData == old(formData)
      ensures errors != map[] ==> sent == None && isSubmitting == old(isSubmitting)
      ensures errors == map[] ==> !isSubmitting
      ensures errors == map[] ==> sent == if hasOnSubmit then SubmitData(formData) else None
    {
      var valid := ValidateForm();
      if !valid {
        sent := None;
        return;
      }
      isSubmitting := true;
      var submitData, threw := BuildSubmitData(formData);
      sent := if !threw && hasOnSubmit then Some(submitData) else None;
      isSubmitting := false;
    }
  }
}
