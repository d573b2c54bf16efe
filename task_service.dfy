/** The task repository: reads and writes rows of `tasks_c` through the
    backend client. No operation throws; every failure becomes an empty
    list, `null` or `false`. */
module TaskService {
  import opened Common
  import opened Js
  import opened Backend
  import opened Records
  import Text

  /** The fields every task query asks for. */
  const TaskQueryFields: seq<string> :=
    ["title_c", "description_c", "priority_c", "due_date_c", "category_id_c",
     "completed_c", "created_at_c", "completed_at_c"]

  /** The fields an update copies from its input when they are not `undefined`. */
  const UpdatableFields: set<string> :=
    {"title_c", "description_c", "priority_c", "due_date_c", "category_id_c",
     "completed_c", "completed_at_c"}

  /** All tasks: the fetched rows, or `[]` on any failure. */
  function GetAll(client: Client<FetchResponse<seq<Task>>>): (x: Exchange<seq<string>, seq<Task>>)
    ensures x.sent.Some? <==> !client.NoClient?
    ensures x.sent.Some? ==> x.sent.value == TaskQueryFields
    ensures x.result != [] ==>
              client.Replies? && client.response.success && client.response.data == Some(x.result)
    ensures client.Replies? && client.response.success && client.response.data.Some? ==>
              x.result == client.response.data.value
  {
    match client
    case NoClient => Exchange(None, [])
    case Fails => Exchange(Some(TaskQueryFields), [])
    case Replies(resp) =>
      Exchange(Some(TaskQueryFields), if resp.success then resp.data.GetOr([]) else [])
  }

  /** One task by Id: the row, or `null` on any failure. */
  function GetById(id: int, client: Client<FetchResponse<Task>>): (x: Exchange<int, Option<Task>>)
    ensures x.sent.Some? <==> !client.NoClient?
    ensures x.sent.Some? ==> x.sent.value == id
    ensures x.result.Some? <==> client.Replies? && client.response.success && client.response.data.Some?
    ensures x.result.Some? ==> x.result == client.response.data
  {
    match client
    case NoClient => Exchange(None, None)
    case Fails => Exchange(Some(id), None)
    case Replies(resp) => Exchange(Some(id), if resp.success then resp.data else None)
  }

  /** `v ? parseInt(v) : null`: how a category reference is written. */
  function CategoryReference(v: JsValue): (r: JsValue)
    ensures !Truthy(v) ==> r == Null
    ensures Truthy(v) ==> r.Num? || r == NaN
    ensures v.Num? && v.n != 0 ==> r == v
  {
    if Truthy(v) then ParseIntValue(v) else Null
  }

  /** The category Id a form holds as text is sent as that number; the
      number itself is sent unchanged unless it is 0, which is falsy. */
  lemma CategoryReferenceOfText(n: int)
    ensures CategoryReference(Str(Text.IntToString(n))) == Num(n)
    ensures CategoryReference(Num(n)) == if n == 0 then Null else Num(n)
  {
    Text.ParseIntToString(n);
    assert Text.ParseInt(Text.IntToString(n)) == Some(n);
    assert Text.IntToString(n) != "";
  }

  /** The record a create sends: the four text fields as given, the
      category reference normalised, not completed, created `now`. */
  function CreatePayload(data: Object, now: int): (p: Object)
    ensures p.Keys == {"title_c", "description_c", "priority_c", "due_date_c", "category_id_c",
                       "completed_c", "created_at_c", "completed_at_c"}
    ensures forall k :: k in {"title_c", "description_c", "priority_c", "due_date_c"} ==> p[k] == Get(data, k)
    ensures p["category_id_c"] == CategoryReference(Get(data, "category_id_c"))
    ensures p["completed_c"] == Bool(false) && p["completed_at_c"] == Null
    ensures p["created_at_c"] == Time(now)
  {
    map[
      "title_c" := Get(data, "title_c"),
      "description_c" := Get(data, "description_c"),
      "priority_c" := Get(data, "priority_c"),
      "due_date_c" := Get(data, "due_date_c"),
      "category_id_c" := CategoryReference(Get(data, "category_id_c")),
      "completed_c" := Bool(false),
      "created_at_c" := Time(now),
      "completed_at_c" := Null]
  }

  /** Create a task: the created row, or `null`. A partial failure still
      returns the first created row. */
  function Create(data: Object, now: int, client: Client<BatchResponse<Task>>): (x: Exchange<Object, Option<Task>>)
    ensures x.sent.Some? <==> !client.NoClient?
    ensures x.sent.Some? ==> x.sent.value == CreatePayload(data, now)
    ensures x.result.Some? ==> client.Replies? && x.result == FirstSuccess(client.response)
    ensures client.Replies? ==> x.result == FirstSuccess(client.response)
  {
    match client
    case NoClient => Exchange(None, None)
    case Fails => Exchange(Some(CreatePayload(data, now)), None)
    case Replies(resp) => Exchange(Some(CreatePayload(data, now)), FirstSuccess(resp))
  }

  /** The value an update writes for a field present in its input: the
      category reference is normalised, the others are copied. */
  function UpdateValue(data: Object, k: string): JsValue
    requires k in data
  {
    if k == "category_id_c" then CategoryReference(data[k]) else data[k]
  }

  /** The update fields drawn from `fields`. */
  function UpdateDataOn(data: Object, fields: set<string>): Object {
    map k | k in fields && k in data && data[k] != Undefined :: UpdateValue(data, k)
  }

  /** The fields an update writes: every updatable field that is not
      `undefined`, with the category reference normalised. */
  function UpdateData(data: Object): (u: Object)
    ensures u.Keys == set k | k in UpdatableFields && Get(data, k) != Undefined
    ensures forall k :: k in u && k != "category_id_c" ==> u[k] == data[k]
    ensures "category_id_c" in u ==> u["category_id_c"] == CategoryReference(data["category_id_c"])
  {
    UpdateDataOn(data, UpdatableFields)
  }

  /** One more `if` of the update builder. */
  lemma UpdateDataOnStep(data: Object, fields: set<string>, k: string)
    ensures UpdateDataOn(data, fields + {k}) ==
              if Get(data, k) != Undefined then UpdateDataOn(data, fields)[k := UpdateValue(data, k)]
              else UpdateDataOn(data, fields)
  {
  }

  /** Builds the update fields one `if` at a time, as the repository does. */
  method BuildUpdateData(data: Object) returns (u: Object)
    ensures u == UpdateData(data)
  {
    u := map[];
    ghost var done: set<string> := {};
    assert u == UpdateDataOn(data, done);
    u := AddIfDefined(data, "title_c", u, done);
    done := done + {"title_c"};
    u := AddIfDefined(data, "description_c", u, done);
    done := done + {"description_c"};
    u := AddIfDefined(data, "priority_c", u, done);
    done := done + {"priority_c"};
    u := AddIfDefined(data, "due_date_c", u, done);
    done := done + {"due_date_c"};
    u := AddIfDefined(data, "category_id_c", u, done);
    done := done + {"category_id_c"};
    u := AddIfDefined(data, "completed_c", u, done);
    done := done + {"completed_c"};
    u := AddIfDefined(data, "completed_at_c", u, done);
    done := done + {"completed_at_c"};
    assert done == UpdatableFields;
  }

  /** One `if` of the builder: a field that is not `undefined` is written. */
  method AddIfDefined(data: Object, k: string, u: Object, ghost done: set<string>) returns (next: Object)
    requires u == UpdateDataOn(data, done)
    ensures next == UpdateDataOn(data, done + {k})
  {
    UpdateDataOnStep(data, done, k);
    next := u;
    if Get(data, k) != Undefined {
      next := u[k := if k == "category_id_c" then CategoryReference(data[k]) else data[k]];
    }
  }

  /** The record an update sends: the Id, then the update fields. */
  function UpdatePayload(id: int, data: Object): (p: Object)
    ensures p.Keys == {"Id"} + UpdateData(data).Keys
    ensures p["Id"] == Num(id)
    ensures forall k :: k in p && k != "Id" ==> p[k] == UpdateData(data)[k]
  {
    map["Id" := Num(id)] + UpdateData(data)
  }

  /** Update a task: the updated row, or `null`. */
  function Update(id: int, data: Object, client: Client<BatchResponse<Task>>): (x: Exchange<Object, Option<Task>>)
    ensures x.sent.Some? <==> !client.NoClient?
    ensures x.sent.Some? ==> x.sent.value == UpdatePayload(id, data)
    ensures x.result.Some? ==> client.Replies? && x.result == FirstSuccess(client.response)
    ensures client.Replies? ==> x.result == FirstSuccess(client.response)
  {
    match client
    case NoClient => Exchange(None, None)
    case Fails => Exchange(Some(UpdatePayload(id, data)), None)
    case Replies(resp) => Exchange(Some(UpdatePayload(id, data)), FirstSuccess(resp))
  }

  /** Delete a task: whether some record was deleted. */
  function Delete(id: int, client: Client<BatchResponse<Task>>): (x: Exchange<seq<int>, bool>)
    ensures x.sent.Some? <==> !client.NoClient?
    ensures x.sent.Some? ==> x.sent.value == [id]
    ensures x.result <==> client.Replies? && SomeDeleted(client.response)
  {
    match client
    case NoClient => Exchange(None, false)
    case Fails => Exchange(Some([id]), false)
    case Replies(resp) => Exchange(Some([id]), SomeDeleted(resp))
  }

  function MarkCompleteData(now: int): Object {
    map["completed_c" := Bool(true), "completed_at_c" := Time(now)]
  }

  function MarkIncompleteData(): Object {
    map["completed_c" := Bool(false), "completed_at_c" := Null]
  }

  /** Mark a task complete: an update of the completion pair only. */
  function MarkComplete(id: int, now: int, client: Client<BatchResponse<Task>>): (x: Exchange<Object, Option<Task>>)
    ensures x.sent.Some? ==> x.sent.value == map["Id" := Num(id), "completed_c" := Bool(true), "completed_at_c" := Time(now)]
    ensures x == Update(id, MarkCompleteData(now), client)
  {
    MarkPayload(id, MarkCompleteData(now));
    Update(id, MarkCompleteData(now), client)
  }

  /** Mark a task not complete: an update that clears the completion time. */
  function MarkIncomplete(id: int, client: Client<BatchResponse<Task>>): (x: Exchange<Object, Option<Task>>)
    ensures x.sent.Some? ==> x.sent.value == map["Id" := Num(id), "completed_c" := Bool(false), "completed_at_c" := Null]
    ensures x == Update(id, MarkIncompleteData(), client)
  {
    MarkPayload(id, MarkIncompleteData());
    Update(id, MarkIncompleteData(), client)
  }

  /** An update of the completion pair sends exactly the Id and that pair. */
  lemma MarkPayload(id: int, pair: Object)
    requires pair.Keys == {"completed_c", "completed_at_c"}
    requires pair["completed_c"] != Undefined && pair["completed_at_c"] != Undefined
    ensures UpdatePayload(id, pair) == map["Id" := Num(id), "completed_c" := pair["completed_c"],
                                          "completed_at_c" := pair["completed_at_c"]]
  {
    var u := UpdateData(pair);
    assert u.Keys == {"completed_c", "completed_at_c"} by {
      assert Get(pair, "completed_c") != Undefined && Get(pair, "completed_at_c") != Undefined;
      forall k | k in u ensures k in {"completed_c", "completed_at_c"} {
        assert Get(pair, k) != Undefined;
      }
    }
  }

  /** The completion flag and the completion time agree: the flag is set
      exactly when a completion time is written. */
  predicate CompletionAgrees(p: Object) {
    Truthy(Get(p, "completed_c")) <==> Truthy(Get(p, "completed_at_c"))
  }

  /** Every write that touches completion keeps the flag and the time in step. */
  lemma CompletionWritesAgree(id: int, data: Object, now: int)
    ensures CompletionAgrees(CreatePayload(data, now))
    ensures CompletionAgrees(UpdatePayload(id, MarkCompleteData(now)))
    ensures CompletionAgrees(UpdatePayload(id, MarkIncompleteData()))
  {
    var created := CreatePayload(data, now);
    assert Get(created, "completed_c") == Bool(false) && Get(created, "completed_at_c") == Null;
    MarkPayload(id, MarkCompleteData(now));
    var complete := UpdatePayload(id, MarkCompleteData(now));
    assert Get(complete, "completed_c") == Bool(true) && Get(complete, "completed_at_c") == Time(now);
    MarkPayload(id, MarkIncompleteData());
    var incomplete := UpdatePayload(id, MarkIncompleteData());
    assert Get(incomplete, "completed_c") == Bool(false) && Get(incomplete, "completed_at_c") == Null;
  }
}
