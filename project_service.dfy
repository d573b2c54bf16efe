/** The project repository: reads and writes rows of `projects_c` through
    the backend client. No operation throws; every failure becomes an
    empty list, `null` or `false`, and a batch with a failed record counts
    as a failure. */
module ProjectService {
  import opened Common
  import opened Js
  import opened Backend

  /** The fields a create or update copies from the form. */
  const ProjectFields: set<string> := {"name_c", "description_c", "start_date_c", "end_date_c", "status_c"}

  /** The fields every project query asks for. */
  const ProjectQueryFields: seq<string> :=
    ["Id", "name_c", "description_c", "start_date_c", "end_date_c", "status_c", "CreatedOn", "ModifiedOn"]

  /** `{"field": {"Name": name}}`. */
  function FieldSpec(name: string): JsValue {
    Obj(map["field" := Obj(map["Name" := Str(name)])])
  }

  /** Newest first, by modification time. */
  const DefaultOrder: JsValue := Arr([Obj(map["fieldName" := Str("ModifiedOn"), "sorttype" := Str("DESC")])])

  /** The first page of 50. */
  const DefaultPaging: JsValue := Obj(map["limit" := Num(50), "offset" := Num(0)])

  /** The list query before the caller's parameters are spread over it. */
  function DefaultQuery(): Object {
    map[
      "fields" := Arr(seq(|ProjectQueryFields|, i requires 0 <= i < |ProjectQueryFields| => FieldSpec(ProjectQueryFields[i]))),
      "orderBy" := DefaultOrder,
      "pagingInfo" := DefaultPaging]
  }

  /** The list query: the defaults, each one overridden by a caller parameter
      of the same name. */
  function GetAllQuery(params: Object): (q: Object)
    ensures q.Keys == {"fields", "orderBy", "pagingInfo"} + params.Keys
    ensures forall k :: k in params ==> q[k] == params[k]
    ensures "orderBy" !in params ==> q["orderBy"] == DefaultOrder
    ensures "pagingInfo" !in params ==> q["pagingInfo"] == DefaultPaging
    ensures "fields" !in params ==> q["fields"] == DefaultQuery()["fields"]
  {
    DefaultQuery() + params
  }

  /** All projects (first page by default): the fetched rows, or `[]`. */
  function GetAll(params: Object, client: Client<FetchResponse<seq<Object>>>): (x: Exchange<Object, seq<Object>>)
    ensures x.sent.Some? <==> !client.NoClient?
    ensures x.sent.Some? ==> x.sent.value == GetAllQuery(params)
    ensures x.result != [] ==>
              client.Replies? && client.response.success && client.response.data == Some(x.result)
    ensures client.Replies? && client.response.success && client.response.data.Some? ==>
              x.result == client.response.data.value
  {
    match client
    case NoClient => Exchange(None, [])
    case Fails => Exchange(Some(GetAllQuery(params)), [])
    case Replies(resp) =>
      Exchange(Some(GetAllQuery(params)), if resp.success then resp.data.GetOr([]) else [])
  }

  /** One project by Id: the row whenever the response carries one (the
      success flag is not consulted), else `null`. */
  function GetById(id: JsValue, client: Client<FetchResponse<Object>>): (x: Exchange<JsValue, Option<Object>>)
    ensures x.sent.Some? <==> !client.NoClient?
    ensures x.sent.Some? ==> x.sent.value == id
    ensures x.result.Some? <==> client.Replies? && client.response.data.Some?
    ensures x.result.Some? ==> x.result == client.response.data
  {
    match client
    case NoClient => Exchange(None, None)
    case Fails => Exchange(Some(id), None)
    case Replies(resp) => Exchange(Some(id), resp.data)
  }

  /** The record a create sends, one `if` per field: only truthy fields. */
  method BuildCreateData(data: Object) returns (clean: Object)
    ensures clean == PickTruthy(data, ProjectFields)
  {
    clean := map[];
    ghost var done: set<string> := {};
    assert clean == PickTruthy(data, done);
    PickTruthyStep(data, done, "name_c");
    if Truthy(Get(data, "name_c")) { clean := clean["name_c" := data["name_c"]]; }
    done := done + {"name_c"};
    PickTruthyStep(data, done, "description_c");
    if Truthy(Get(data, "description_c")) { clean := clean["description_c" := data["description_c"]]; }
    done := done + {"description_c"};
    PickTruthyStep(data, done, "start_date_c");
    if Truthy(Get(data, "start_date_c")) { clean := clean["start_date_c" := data["start_date_c"]]; }
    done := done + {"start_date_c"};
    PickTruthyStep(data, done, "end_date_c");
    if Truthy(Get(data, "end_date_c")) { clean := clean["end_date_c" := data["end_date_c"]]; }
    done := done + {"end_date_c"};
    PickTruthyStep(data, done, "status_c");
    if Truthy(Get(data, "status_c")) { clean := clean["status_c" := data["status_c"]]; }
    done := done + {"status_c"};
    assert done == ProjectFields;
  }

  /** The record an update sends: the Id, then every field that is not
      `undefined` (an emptied field is sent as `''` or `null`). */
  function UpdateData(id: JsValue, data: Object): (clean: Object)
    ensures clean.Keys == {"Id"} + set k | k in ProjectFields && Get(data, k) != Undefined
    ensures clean["Id"] == id
    ensures forall k :: k in clean && k != "Id" ==> clean[k] == data[k]
  {
    map["Id" := id] + PickDefined(data, ProjectFields)
  }

  /** The update record with the fields drawn from `fields`. */
  function UpdateDataOn(id: JsValue, data: Object, fields: set<string>): Object {
    map["Id" := id] + PickDefined(data, fields)
  }

  /** One more `if` of the update builder. */
  lemma UpdateDataOnStep(id: JsValue, data: Object, fields: set<string>, k: string)
    requires k != "Id"
    ensures UpdateDataOn(id, data, fields + {k}) ==
              if Get(data, k) != Undefined then UpdateDataOn(id, data, fields)[k := data[k]]
              else UpdateDataOn(id, data, fields)
  {
    PickDefinedStep(data, fields, k);
  }

  /** Builds the update record one `if` per field, as the repository does. */
  method BuildUpdateData(id: JsValue, data: Object) returns (clean: Object)
    ensures clean == UpdateData(id, data)
  {
    clean := map["Id" := id];
    ghost var done: set<string> := {};
    assert clean == UpdateDataOn(id, data, done);
    UpdateDataOnStep(id, data, done, "name_c");
    if Get(data, "name_c") != Undefined { clean := clean["name_c" := data["name_c"]]; }
    done := done + {"name_c"};
    UpdateDataOnStep(id, data, done, "description_c");
    if Get(data, "description_c") != Undefined { clean := clean["description_c" := data["description_c"]]; }
    done := done + {"description_c"};
    UpdateDataOnStep(id, data, done, "start_date_c");
    if Get(data, "start_date_c") != Undefined { clean := clean["start_date_c" := data["start_date_c"]]; }
    done := done + {"start_date_c"};
    UpdateDataOnStep(id, data, done, "end_date_c");
    if Get(data, "end_date_c") != Undefined { clean := clean["end_date_c" := data["end_date_c"]]; }
    done := done + {"end_date_c"};
    UpdateDataOnStep(id, data, done, "status_c");
    if Get(data, "status_c") != Undefined { clean := clean["status_c" := data["status_c"]]; }
    done := done + {"status_c"};
    assert done == ProjectFields;
  }

  /** Create a project: the created row, or `null` when any record failed. */
  function Create(data: Object, client: Client<BatchResponse<Object>>): (x: Exchange<Object, Option<Object>>)
    ensures x.sent.Some? <==> !client.NoClient?
    ensures x.sent.Some? ==> x.sent.value == PickTruthy(data, ProjectFields)
    ensures x.result.Some? ==> client.Replies? && x.result == FirstSuccessIfNoneFailed(client.response)
    ensures client.Replies? ==> x.result == FirstSuccessIfNoneFailed(client.response)
  {
    match client
    case NoClient => Exchange(None, None)
    case Fails => Exchange(Some(PickTruthy(data, ProjectFields)), None)
    case Replies(resp) => Exchange(Some(PickTruthy(data, ProjectFields)), FirstSuccessIfNoneFailed(resp))
  }

  /** Update a project: the updated row, or `null` when any record failed. */
  function Update(id: JsValue, data: Object, client: Client<BatchResponse<Object>>): (x: Exchange<Object, Option<Object>>)
    ensures x.sent.Some? <==> !client.NoClient?
    ensures x.sent.Some? ==> x.sent.value == UpdateData(id, data)
    ensures x.result.Some? ==> client.Replies? && x.result == FirstSuccessIfNoneFailed(client.response)
    ensures client.Replies? ==> x.result == FirstSuccessIfNoneFailed(client.response)
  {
    match client
    case NoClient => Exchange(None, None)
    case Fails => Exchange(Some(UpdateData(id, data)), None)
    case Replies(resp) => Exchange(Some(UpdateData(id, data)), FirstSuccessIfNoneFailed(resp))
  }

  /** Delete a project: `true` only when some record was deleted and none failed. */
  function Delete(id: JsValue, client: Client<BatchResponse<Object>>): (x: Exchange<seq<JsValue>, bool>)
    ensures x.sent.Some? <==> !client.NoClient?
    ensures x.sent.Some? ==> x.sent.value == [id]
    ensures x.result <==> client.Replies? && AllDeleted(client.response)
  {
    match client
    case NoClient => Exchange(None, false)
    case Fails => Exchange(Some([id]), false)
    case Replies(resp) => Exchange(Some([id]), AllDeleted(resp))
  }

  /** What the form clears is sent on update but dropped on create: a field
      holding `''` reaches the backend only through an update. */
  lemma EmptiedFieldOnlyUpdated(id: JsValue, data: Object, k: string)
    requires k in ProjectFields && Get(data, k) == Str("")
    ensures k !in PickTruthy(data, ProjectFields)
    ensures k in UpdateData(id, data) && UpdateData(id, data)[k] == Str("")
  {
  }
}
