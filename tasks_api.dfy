/**
 * The decision logic of the task API client: turning a fetch response into
 * data or an error, mapping server documents to tasks, and building the JSON
 * bodies of create and update requests. Requests themselves are not modelled:
 * each operation takes the response it would receive.
 */
module TasksApi {
  import opened Wrappers
  import opened Js
  import opened Text
  import opened Dates
  import opened TaskItem
  import opened TaskForm

  const StatusMessagePrefix := "Request failed with status "
  /** The message `createTask` returns when the server sends none. */
  const CreatedMessage := "Tạo task thành công"

  /**
   * `handleResponse(res)`: a response that is not ok throws an Error whose
   * message is the body's `message`, else its `error`, else one made from
   * the status code; an ok response gives its parsed body, or `null` when the
   * body did not parse.
   */
  function HandleResponse(res: Response): (r: Result<JValue, Exception>)
    ensures r.Success? <==> res.ok
    ensures r.Success? ==> r.value == Data(res)
    ensures r.Failure? ==> r.error.Raised?
    ensures r.Failure? && Truthy(OptGet(Data(res), "message")) ==>
      r.error.message == ToStr(OptGet(Data(res), "message"))
    ensures r.Failure? && !Truthy(OptGet(Data(res), "message")) && Truthy(OptGet(Data(res), "error")) ==>
      r.error.message == ToStr(OptGet(Data(res), "error"))
    ensures r.Failure? && !Truthy(OptGet(Data(res), "message")) && !Truthy(OptGet(Data(res), "error")) ==>
      r.error.message == StatusMessagePrefix + NatToString(res.status)
  {
    var data := Data(res);
    if !res.ok then
      var message := Or(OptGet(data, "message"), Or(OptGet(data, "error"), JStr(StatusMessagePrefix + NatToString(res.status))));
      Failure(Raised(ToStr(message)))
    else
      Success(data)
  }

  /** When the server explains nothing, the status code can be read back from the message. */
  lemma StatusMessageNamesStatus(res: Response)
    requires !res.ok && !Truthy(OptGet(Data(res), "message")) && !Truthy(OptGet(Data(res), "error"))
    ensures var m := HandleResponse(res).error.message;
      |m| > |StatusMessagePrefix| && m[..|StatusMessagePrefix|] == StatusMessagePrefix &&
      (forall i :: |StatusMessagePrefix| <= i < |m| ==> IsDigit(m[i])) &&
      ParseNat(m[|StatusMessagePrefix|..]) == res.status
  {
    var m := HandleResponse(res).error.message;
    assert m[|StatusMessagePrefix|..] == NatToString(res.status);
    ParseNatToString(res.status);
  }

  /** `new Date(v).toISOString()` for a date field that may be missing: falsy gives `undefined`, an invalid date throws. */
  function OptionalIso(v: JValue, env: DateEnv): (r: Result<Option<string>, Exception>)
    ensures !Truthy(v) ==> r == Success(None)
    ensures Truthy(v) && env.toIso(v).None? ==> r == Failure(RangeFault)
    ensures Truthy(v) && env.toIso(v).Some? ==> r == Success(env.toIso(v))
  {
    if !Truthy(v) then Success(None)
    else match env.toIso(v)
      case None => Failure(RangeFault)
      case Some(s) => Success(Some(s))
  }

  /** A time stamp field: its ISO form, or the current moment when it is missing. */
  function IsoOrNow(v: JValue, env: DateEnv): (r: Result<string, Exception>)
    ensures !Truthy(v) ==> r == Success(env.now.iso)
    ensures Truthy(v) && env.toIso(v).None? ==> r == Failure(RangeFault)
    ensures Truthy(v) && env.toIso(v).Some? ==> r == Success(env.toIso(v).value)
  {
    if !Truthy(v) then Success(env.now.iso)
    else match env.toIso(v)
      case None => Failure(RangeFault)
      case Some(s) => Success(s)
  }

  /** Some date field of `doc` is set but not a valid date, so converting it throws. */
  predicate HasInvalidDate(doc: JValue, env: DateEnv) {
    exists key :: key in ["dueDate", "createdAt", "updatedAt"] &&
      Truthy(OptGet(doc, key)) && env.toIso(OptGet(doc, key)).None?
  }

  /**
   * `mapTask(doc)`: the identifier is `_id` when truthy, else `id`; a missing
   * `completed` is false; an empty description is dropped; the owner is
   * `user._id` when truthy, else `user`; a missing due date stays missing, a
   * missing time stamp becomes the current moment, and a set date is
   * converted to its ISO form. Reading `doc._id` throws
   * when `doc` is null or undefined, and converting a set but invalid date
   * throws.
   */
  function MapTask(doc: JValue, env: DateEnv): Result<Task, Exception> {
    if doc == JNull || doc == JUndefined then Failure(TypeFault)
    else
      var due := OptionalIso(OptGet(doc, "dueDate"), env);
      var created := IsoOrNow(OptGet(doc, "createdAt"), env);
      var updated := IsoOrNow(OptGet(doc, "updatedAt"), env);
      if due.Failure? || created.Failure? || updated.Failure? then
        Failure(RangeFault)
      else
        Success(Task(
          id := AsString(Or(OptGet(doc, "_id"), OptGet(doc, "id"))),
          title := AsString(OptGet(doc, "title")),
          description := AsString(Or(OptGet(doc, "description"), JUndefined)),
          completed := Truthy(OptGet(doc, "completed")),
          userId := AsString(Or(OptGet(OptGet(doc, "user"), "_id"), OptGet(doc, "user"))),
          dueDate := due.value,
          createdAt := Some(created.value),
          updatedAt := Some(updated.value)))
  }

  /**
   * What `mapTask` promises: which field each task field comes from, the
   * defaults of a missing value, and the documents it throws on.
   */
  lemma MapTaskSpec(doc: JValue, env: DateEnv)
    ensures doc == JNull || doc == JUndefined ==> MapTask(doc, env) == Failure(TypeFault)
    ensures MapTask(doc, env).Failure? <==> doc == JNull || doc == JUndefined || HasInvalidDate(doc, env)
    ensures MapTask(doc, env).Success? ==>
      var t := MapTask(doc, env).value;
      && t.id == (if Truthy(OptGet(doc, "_id")) then AsString(OptGet(doc, "_id")) else AsString(OptGet(doc, "id")))
      && t.title == AsString(OptGet(doc, "title"))
      && (t.description.None? <==> !Truthy(OptGet(doc, "description")) || !OptGet(doc, "description").JStr?)
      && (t.description.Some? ==> OptGet(doc, "description") == JStr(t.description.value) && t.description.value != "")
      && t.completed == Truthy(OptGet(doc, "completed"))
      && t.userId == (if Truthy(OptGet(OptGet(doc, "user"), "_id")) then AsString(OptGet(OptGet(doc, "user"), "_id"))
                      else AsString(OptGet(doc, "user")))
      && (t.dueDate.None? <==> !Truthy(OptGet(doc, "dueDate")))
      && (t.dueDate.Some? ==> t.dueDate == env.toIso(OptGet(doc, "dueDate")))
      && t.createdAt.Some? && t.updatedAt.Some?
      && (!Truthy(OptGet(doc, "createdAt")) ==> t.createdAt == Some(env.now.iso))
      && (!Truthy(OptGet(doc, "updatedAt")) ==> t.updatedAt == Some(env.now.iso))
      && (Truthy(OptGet(doc, "createdAt")) ==> t.createdAt == env.toIso(OptGet(doc, "createdAt")))
      && (Truthy(OptGet(doc, "updatedAt")) ==> t.updatedAt == env.toIso(OptGet(doc, "updatedAt")))
  {
    if doc != JNull && doc != JUndefined {
      var due := OptionalIso(OptGet(doc, "dueDate"), env);
      var created := IsoOrNow(OptGet(doc, "createdAt"), env);
      var updated := IsoOrNow(OptGet(doc, "updatedAt"), env);
      if due.Failure? || created.Failure? || updated.Failure? {
        if due.Failure? { assert "dueDate" in ["dueDate", "createdAt", "updatedAt"]; }
        else if created.Failure? { assert "createdAt" in ["dueDate", "createdAt", "updatedAt"]; }
        else { assert "updatedAt" in ["dueDate", "createdAt", "updatedAt"]; }
      }
    }
  }

  /** A text field that is either missing or a non-empty string, as the server stores it. */
  predicate NonEmptyOrMissing(s: Option<string>) {
    s.None? || s.value != ""
  }

  /** The document a server would send for task `t`. */
  function TaskDocument(t: Task): JValue {
    JObj(map[
      "_id" := OptStr(t.id),
      "title" := OptStr(t.title),
      "description" := OptStr(t.description),
      "completed" := JBool(t.completed),
      "user" := OptStr(t.userId),
      "dueDate" := OptStr(t.dueDate),
      "createdAt" := OptStr(t.createdAt),
      "updatedAt" := OptStr(t.updatedAt)])
  }

  /** A string field of a document, `undefined` when missing. */
  function OptStr(s: Option<string>): JValue {
    if s.Some? then JStr(s.value) else JUndefined
  }

  /** Each field of a task's document holds that task field, and a string owner has no `_id`. */
  lemma TaskDocumentFields(t: Task)
    ensures OptGet(TaskDocument(t), "_id") == OptStr(t.id)
    ensures OptGet(TaskDocument(t), "id") == JUndefined
    ensures OptGet(TaskDocument(t), "title") == OptStr(t.title)
    ensures OptGet(TaskDocument(t), "description") == OptStr(t.description)
    ensures OptGet(TaskDocument(t), "completed") == JBool(t.completed)
    ensures OptGet(TaskDocument(t), "user") == OptStr(t.userId)
    ensures OptGet(OptStr(t.userId), "_id") == JUndefined
    ensures OptGet(TaskDocument(t), "dueDate") == OptStr(t.dueDate)
    ensures OptGet(TaskDocument(t), "createdAt") == OptStr(t.createdAt)
    ensures OptGet(TaskDocument(t), "updatedAt") == OptStr(t.updatedAt)
  {
    var m := TaskDocument(t).fields;
    assert "id" !in m;
  }

  /**
   * Mapping the document of a stored task gives the task back, provided its
   * optional text fields are missing or non-empty, its time stamps are set,
   * and each of its date strings is already in the ISO form the device
   * produces.
   */
  lemma MapTaskRoundTrip(t: Task, env: DateEnv)
    requires t.id.Some? && t.id.value != ""
    requires NonEmptyOrMissing(t.description) && NonEmptyOrMissing(t.userId) && NonEmptyOrMissing(t.dueDate)
    requires t.createdAt.Some? && t.createdAt.value != "" && t.updatedAt.Some? && t.updatedAt.value != ""
    requires t.dueDate.Some? ==> env.toIso(JStr(t.dueDate.value)) == t.dueDate
    requires env.toIso(JStr(t.createdAt.value)) == t.createdAt
    requires env.toIso(JStr(t.updatedAt.value)) == t.updatedAt
    ensures MapTask(TaskDocument(t), env) == Success(t)
  {
    var doc := TaskDocument(t);
    TaskDocumentFields(t);
    MapTaskSpec(doc, env);
    assert !HasInvalidDate(doc, env);
  }

  /**
   * `data.tasks.map(mapTask)`: the documents mapped one to one, in order; the
   * first document that cannot be mapped raises its exception.
   */
  function MapTasks(docs: seq<JValue>, env: DateEnv): (r: Result<seq<Task>, Exception>)
    ensures r.Success? ==> |r.value| == |docs| && forall i :: 0 <= i < |docs| ==> MapTask(docs[i], env) == Success(r.value[i])
    ensures r.Failure? <==> exists i :: 0 <= i < |docs| && MapTask(docs[i], env).Failure?
    ensures r.Failure? ==> exists i :: 0 <= i < |docs| && MapTask(docs[i], env) == Failure(r.error)
                                && forall j :: 0 <= j < i ==> MapTask(docs[j], env).Success?
  {
    if docs == [] then Success([])
    else
      match MapTask(docs[0], env)
      case Failure(e) => Failure(e)
      case Success(t) =>
        match MapTasks(docs[1..], env)
        case Failure(e) =>
          ghost var i :| 0 <= i < |docs[1..]| && MapTask(docs[1..][i], env) == Failure(e)
                         && forall j :: 0 <= j < i ==> MapTask(docs[1..][j], env).Success?;
          assert MapTask(docs[i + 1], env) == Failure(e);
          assert forall j :: 0 <= j < i + 1 ==> MapTask(docs[j], env).Success? by {
            forall j | 0 <= j < i + 1 ensures MapTask(docs[j], env).Success? {
              if j > 0 { assert docs[j] == docs[1..][j - 1]; }
            }
          }
          Failure(e)
        case Success(ts) =>
          assert forall i :: 0 <= i < |docs| ==> MapTask(docs[i], env) == Success(([t] + ts)[i]) by {
            forall i | 0 <= i < |docs| ensures MapTask(docs[i], env) == Success(([t] + ts)[i]) {
              if i > 0 { assert docs[i] == docs[1..][i - 1]; }
            }
          }
          Success([t] + ts)
  }

  /**
   * `fetchTasks`: an error response raises as `handleResponse` decides; an
   * ok response whose body did not parse throws reading `data.tasks`; a body
   * whose `tasks` is not an array gives no tasks; otherwise the documents are
   * mapped one to one.
   */
  function FetchTasks(res: Response, env: DateEnv): (r: Result<seq<Task>, Exception>)
    ensures !res.ok ==> r == Failure(HandleResponse(res).error)
    ensures res.ok && (Data(res) == JNull || Data(res) == JUndefined) ==> r == Failure(TypeFault)
    ensures res.ok && Data(res) != JNull && Data(res) != JUndefined && !OptGet(Data(res), "tasks").JArr? ==>
      r == Success([])
    ensures res.ok && OptGet(Data(res), "tasks").JArr? ==> r == MapTasks(OptGet(Data(res), "tasks").items, env)
  {
    var data :- HandleResponse(res);
    var tasks :- Get(data, "tasks");
    if !tasks.JArr? then Success([]) else MapTasks(tasks.items, env)
  }

  /** A response `{tasks: null}` or `{}` gives the empty list, not an error. */
  lemma MissingArrayIsEmpty(status: nat, env: DateEnv)
    ensures FetchTasks(Response(true, status, Some(JObj(map["tasks" := JNull]))), env) == Success([])
    ensures FetchTasks(Response(true, status, Some(JObj(map[]))), env) == Success([])
  {
  }

  /** The JSON object `JSON.stringify` writes for a payload: keys whose value is `undefined` are left out. */
  function WithString(m: map<string, JValue>, key: string, v: Option<string>): map<string, JValue> {
    if v.Some? then m[key := JStr(v.value)] else m
  }

  /**
   * The body of `createTask`: title, description, and `dueDate ||
   * undefined`, so an empty or missing due date is left out of the body.
   */
  function CreatePayload(values: TaskFormValues): (body: JValue)
    ensures body.JObj?
    ensures "completed" !in body.fields
    ensures "title" in body.fields <==> values.title.Some?
    ensures values.title.Some? ==> body.fields["title"] == JStr(values.title.value)
    ensures "description" in body.fields <==> values.description.Some?
    ensures values.description.Some? ==> body.fields["description"] == JStr(values.description.value)
    ensures "dueDate" in body.fields <==> values.dueDate.Some? && values.dueDate.value != ""
    ensures "dueDate" in body.fields ==> body.fields["dueDate"] == JStr(values.dueDate.value)
  {
    var due := if values.dueDate.Some? && values.dueDate.value != "" then values.dueDate else None;
    JObj(WithString(WithString(WithString(map[], "title", values.title), "description", values.description), "dueDate", due))
  }

  /**
   * The body of `updateTask`: title, description, `completed`, and `dueDate
   * || null`, so the due-date key is always sent, as null to clear it.
   */
  function UpdatePayload(values: TaskFormValues): (body: JValue)
    ensures body.JObj?
    ensures "completed" in body.fields && body.fields["completed"] == JBool(values.completed)
    ensures "title" in body.fields <==> values.title.Some?
    ensures values.title.Some? ==> body.fields["title"] == JStr(values.title.value)
    ensures "description" in body.fields <==> values.description.Some?
    ensures values.description.Some? ==> body.fields["description"] == JStr(values.description.value)
    ensures "dueDate" in body.fields
    ensures body.fields["dueDate"] == if values.dueDate.Some? && values.dueDate.value != "" then JStr(values.dueDate.value) else JNull
  {
    var due := if values.dueDate.Some? && values.dueDate.value != "" then JStr(values.dueDate.value) else JNull;
    var m := WithString(WithString(map[], "title", values.title), "description", values.description);
    JObj(m["completed" := JBool(values.completed)]["dueDate" := due])
  }

  /** Create and update disagree on a missing due date: create leaves the key out, update sends null. */
  lemma MissingDueDateDiffers(values: TaskFormValues)
    requires values.dueDate.None? || values.dueDate.value == ""
    ensures "dueDate" !in CreatePayload(values).fields
    ensures UpdatePayload(values).fields["dueDate"] == JNull
  {
  }

  /** `createTask`'s result: the server's message, or "Tạo task thành công" when it sends none. */
  function CreateTask(res: Response): (r: Result<JValue, Exception>)
    ensures !res.ok ==> r == Failure(HandleResponse(res).error)
    ensures res.ok && (Data(res) == JNull || Data(res) == JUndefined) ==> r == Failure(TypeFault)
    ensures res.ok && Data(res) != JNull && Data(res) != JUndefined ==>
      r == Success(if Truthy(OptGet(Data(res), "message")) then OptGet(Data(res), "message") else JStr(CreatedMessage))
  {
    var data :- HandleResponse(res);
    var message :- Get(data, "message");
    Success(Or(message, JStr(CreatedMessage)))
  }

  /** `updateTask`'s result: the `task` of the body, mapped. A body without one throws in `mapTask`. */
  function UpdateTask(res: Response, env: DateEnv): (r: Result<Task, Exception>)
    ensures !res.ok ==> r == Failure(HandleResponse(res).error)
    ensures res.ok && (Data(res) == JNull || Data(res) == JUndefined) ==> r == Failure(TypeFault)
    ensures res.ok && Data(res) != JNull && Data(res) != JUndefined ==> r == MapTask(OptGet(Data(res), "task"), env)
    ensures res.ok && Data(res).JObj? && "task" !in Data(res).fields ==> r == Failure(TypeFault)
  {
    var data :- HandleResponse(res);
    var doc :- Get(data, "task");
    MapTask(doc, env)
  }

  /** `deleteTask`: succeeds exactly when the response is ok. */
  function DeleteTask(res: Response): (r: Result<(), Exception>)
    ensures r.Success? <==> res.ok
    ensures r.Failure? ==> r == Failure(HandleResponse(res).error)
  {
    var _ :- HandleResponse(res);
    Success(())
  }
}
