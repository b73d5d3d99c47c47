/**
 * The web client's API layer: JSON values as the browser parses them, the
 * normalization of a task record that may carry the store's field names
 * (`TaskID`) or the client's (`task_id`), the value each fetch hands its
 * caller, and the default workflow tables the visualizer draws.
 */
module WebApi {
  import opened Wrappers
  import Models
  import WorkflowTables
  import HttpApi

  /**
   * A JavaScript value built from JSON. `JUndefined` never comes out of a
   * parse; it is what reading an absent key gives, and what an object
   * literal may hold.
   */
  datatype Json = JUndefined | JNull | JBool(b: bool) | JNum(n: real) | JStr(s: string) | JArr(items: seq<Json>) | JObj(fields: map<string, Json>)

  /** `null` or `undefined`. */
  predicate Nullish(v: Json) {
    v.JNull? || v.JUndefined?
  }

  /** How a promise settles: with a value, or rejected, with the message of the `Error` (`None` for a reason that is no `Error`). */
  datatype Outcome<T> = Resolved(value: T) | Rejected(message: Option<string>)

  /** The message of a rejection, or `fallback` when the reason is no `Error`. */
  function MessageOr(message: Option<string>, fallback: string): string {
    if message.Some? then message.value else fallback
  }

  const TypeError := "TypeError: cannot read properties of null"
  const FetchTasksFailed := "Failed to fetch tasks"
  const FetchBootstrapFailed := "Failed to fetch bootstrap"
  const FetchReviewsFailed := "Failed to fetch reviews"
  const ApproveFailed := "Failed to approve task"

  /** The `limit` every task fetch asks for. */
  const TaskFetchLimit := 200

  /**
   * `v?.key` for the record keys used here (none is `length` or a
   * prototype member): only an object has them.
   */
  function Prop(v: Json, key: string): Json {
    if v.JObj? && key in v.fields then v.fields[key] else JUndefined
  }

  /** `a ?? b`. */
  function Coalesce(a: Json, b: Json): Json {
    if Nullish(a) then b else a
  }

  /** JavaScript truthiness (`NaN` is not a value here). */
  predicate Truthy(v: Json) {
    match v
    case JUndefined => false
    case JNull => false
    case JBool(b) => b
    case JNum(n) => n != 0.0
    case JStr(s) => s != ""
    case _ => true
  }

  // ------------------------------------------------------------------ tasks

  /** A task as the client holds it: nine fields, each of which may be `undefined`. */
  datatype Task = Task(taskId: Json, title: Json, status: Json, assignee: Json, dri: Json, workflowId: Json,
                       currentStage: Json, createdAt: Json, updatedAt: Json)

  const PascalKeys: seq<string> := ["TaskID", "Title", "Status", "Assignee", "DRI", "WorkflowID", "CurrentStage", "CreatedAt", "UpdatedAt"]
  const SnakeKeys: seq<string> := ["task_id", "title", "status", "assignee", "dri", "workflow_id", "current_stage", "created_at", "updated_at"]

  /** The `i`-th field of a task, in the order of the key tables. */
  function Field(t: Task, i: nat): Json
    requires i < 9
  {
    match i
    case 0 => t.taskId
    case 1 => t.title
    case 2 => t.status
    case 3 => t.assignee
    case 4 => t.dri
    case 5 => t.workflowId
    case 6 => t.currentStage
    case 7 => t.createdAt
    case _ => t.updatedAt
  }

  /** One normalized field: the PascalCase value, else the snake_case one. */
  function Pick(t: Json, i: nat): Json
    requires i < 9
  {
    Coalesce(Prop(t, PascalKeys[i]), Prop(t, SnakeKeys[i]))
  }

  /** `normalizeTask`: reading a field of `null` or `undefined` throws; anything else gives a task. */
  function NormalizeTask(t: Json): (r: Result<Task>)
    ensures r.Err? <==> Nullish(t)
  {
    if Nullish(t) then Err(TypeError)
    else Ok(Task(Pick(t, 0), Pick(t, 1), Pick(t, 2), Pick(t, 3), Pick(t, 4), Pick(t, 5), Pick(t, 6), Pick(t, 7), Pick(t, 8)))
  }

  /**
   * Each of the nine fields is the PascalCase value when that is neither
   * `null` nor `undefined`, and the snake_case value otherwise.
   */
  lemma NormalizeTaskFields(t: Json, i: nat)
    requires !Nullish(t) && i < 9
    ensures !Nullish(Prop(t, PascalKeys[i])) ==> Field(NormalizeTask(t).value, i) == Prop(t, PascalKeys[i])
    ensures Nullish(Prop(t, PascalKeys[i])) ==> Field(NormalizeTask(t).value, i) == Prop(t, SnakeKeys[i])
  {
  }

  /** The object `normalizeTask` builds: the nine snake_case keys, some perhaps `undefined`. */
  function TaskJson(t: Task): Json {
    JObj(map["task_id" := t.taskId, "title" := t.title, "status" := t.status, "assignee" := t.assignee,
      "dri" := t.dri, "workflow_id" := t.workflowId, "current_stage" := t.currentStage,
      "created_at" := t.createdAt, "updated_at" := t.updatedAt])
  }

  /** The object of a task holds no PascalCase key: each of its keys starts with a lower-case letter. */
  lemma TaskJsonNoPascal(t: Task, i: nat)
    requires i < 9
    ensures Prop(TaskJson(t), PascalKeys[i]).JUndefined?
  {
    assert forall k :: k in TaskJson(t).fields ==> 'a' <= k[0] <= 'z';
    assert 'A' <= PascalKeys[i][0] <= 'Z';
  }

  /** Each snake_case key of a task's object holds its field. */
  lemma TaskJsonSnake(t: Task, i: nat)
    requires i < 9
    ensures Prop(TaskJson(t), SnakeKeys[i]) == Field(t, i)
  {
  }

  /** Normalizing the record of a client task gives that task back. */
  lemma TaskJsonRoundTrip(t: Task)
    ensures NormalizeTask(TaskJson(t)) == Ok(t)
  {
    forall i: nat | i < 9
      ensures Pick(TaskJson(t), i) == Field(t, i)
    {
      TaskJsonNoPascal(t, i);
      TaskJsonSnake(t, i);
    }
    assert Pick(TaskJson(t), 0) == t.taskId && Pick(TaskJson(t), 1) == t.title && Pick(TaskJson(t), 2) == t.status;
    assert Pick(TaskJson(t), 3) == t.assignee && Pick(TaskJson(t), 4) == t.dri && Pick(TaskJson(t), 5) == t.workflowId;
    assert Pick(TaskJson(t), 6) == t.currentStage && Pick(TaskJson(t), 7) == t.createdAt && Pick(TaskJson(t), 8) == t.updatedAt;
  }

  /** `normalizeTask` is idempotent: its output carries only snake_case keys. */
  lemma NormalizeIdempotent(t: Json)
    requires !Nullish(t)
    ensures NormalizeTask(TaskJson(NormalizeTask(t).value)) == NormalizeTask(t)
  {
    TaskJsonRoundTrip(NormalizeTask(t).value);
  }

  /** `items.map(normalizeTask)`: it throws at a `null` element, else keeps length and order. */
  function NormalizeAll(items: seq<Json>): (r: Result<seq<Task>>)
    ensures r.Ok? <==> forall k :: 0 <= k < |items| ==> !Nullish(items[k])
    ensures r.Ok? ==> |r.value| == |items| && forall k :: 0 <= k < |items| ==> r.value[k] == NormalizeTask(items[k]).value
  {
    if items == [] then Ok([])
    else
      var rest := NormalizeAll(items[1..]);
      if Nullish(items[0]) then Err(TypeError)
      else if rest.Err? then rest
      else Ok([NormalizeTask(items[0]).value] + rest.value)
  }

  /** `fetchTasks`: a failed response rejects, a body that is no array gives no tasks, an array is normalized element by element. */
  function FetchTasks(ok: bool, list: Json): (r: Result<seq<Task>>)
    ensures !ok ==> r == Err(FetchTasksFailed)
    ensures ok && !list.JArr? ==> r == Ok([])
    ensures ok && list.JArr? ==> (r.Ok? <==> forall k :: 0 <= k < |list.items| ==> !Nullish(list.items[k]))
    ensures ok && list.JArr? && r.Ok? ==> (|r.value| == |list.items| &&
      forall k :: 0 <= k < |list.items| ==> r.value[k] == NormalizeTask(list.items[k]).value)
  {
    if !ok then Err(FetchTasksFailed)
    else if list.JArr? then NormalizeAll(list.items)
    else Ok([])
  }

  /** `fetchBootstrap`: `tasks` is normalized when it is an array; nothing else of the body changes. */
  function FetchBootstrap(ok: bool, data: Json): (r: Result<Json>)
    ensures !ok ==> r == Err(FetchBootstrapFailed)
    ensures ok && Nullish(data) ==> r.Err?
    ensures ok && !Nullish(data) && !Prop(data, "tasks").JArr? ==> r == Ok(data)
    ensures r.Ok? ==> forall k :: k != "tasks" ==> Prop(r.value, k) == Prop(data, k)
    ensures r.Ok? && Prop(data, "tasks").JArr? ==>
      var items := Prop(data, "tasks").items;
      Prop(r.value, "tasks").JArr? && |Prop(r.value, "tasks").items| == |items| &&
      forall k :: 0 <= k < |items| ==> !Nullish(items[k]) && Prop(r.value, "tasks").items[k] == TaskJson(NormalizeTask(items[k]).value)
  {
    if !ok then Err(FetchBootstrapFailed)
    else if Nullish(data) then Err(TypeError)
    else
      var tasks := Prop(data, "tasks");
      if tasks.JArr? then
        match NormalizeAll(tasks.items)
        case Err(e) => Err(e)
        case Ok(ts) => Ok(JObj(data.fields["tasks" := JArr(seq(|ts|, k requires 0 <= k < |ts| => TaskJson(ts[k])))]))
      else Ok(data)
  }

  /** `fetchMessages`: no messages on a failed response; else the array, else a truthy `messages`, else none. */
  function FetchMessages(ok: bool, data: Json): (r: Result<Json>)
    ensures r.Err? <==> ok && Nullish(data)
    ensures !ok ==> r == Ok(JArr([]))
    ensures ok && data.JArr? ==> r == Ok(data)
    ensures ok && !data.JArr? && Truthy(Prop(data, "messages")) ==> r == Ok(Prop(data, "messages"))
    ensures ok && !Nullish(data) && !data.JArr? && !Truthy(Prop(data, "messages")) ==> r == Ok(JArr([]))
  {
    if !ok then Ok(JArr([]))
    else if data.JArr? then Ok(data)
    else if Nullish(data) then Err(TypeError)
    else
      var messages := Prop(data, "messages");
      if Truthy(messages) then Ok(messages) else Ok(JArr([]))
  }

  /** `fetchTaskReviews`: a failed response rejects; else `reviews`, or none when it is `null` or missing. */
  function FetchTaskReviews(ok: bool, data: Json): (r: Result<Json>)
    ensures r.Err? <==> !ok || Nullish(data)
    ensures r.Ok? ==> !Nullish(r.value)
    ensures r.Ok? && !Nullish(Prop(data, "reviews")) ==> r.value == Prop(data, "reviews")
    ensures r.Ok? && Nullish(Prop(data, "reviews")) ==> r.value == JArr([])
  {
    if !ok then Err(FetchReviewsFailed)
    else if Nullish(data) then Err(TypeError)
    else Ok(Coalesce(Prop(data, "reviews"), JArr([])))
  }

  /** `tasks.filter(keep)`. */
  function Filter(ts: seq<Task>, keep: Task -> bool): (r: seq<Task>)
    ensures |r| <= |ts|
  {
    if ts == [] then [] else (if keep(ts[0]) then [ts[0]] else []) + Filter(ts[1..], keep)
  }

  /** A filter keeps every copy of a kept task and no copy of another. */
  lemma {:induction false} FilterCount(ts: seq<Task>, keep: Task -> bool, t: Task)
    ensures multiset(Filter(ts, keep))[t] == if keep(t) then multiset(ts)[t] else 0
    ensures t in Filter(ts, keep) <==> t in ts && keep(t)
  {
    if ts != [] {
      FilterCount(ts[1..], keep, t);
      assert ts == [ts[0]] + ts[1..];
      assert multiset(ts) == multiset([ts[0]]) + multiset(ts[1..]);
    }
  }

  /** A filter keeps order: filtering a concatenation concatenates the filtered parts. */
  lemma {:induction false} FilterAppend(a: seq<Task>, b: seq<Task>, keep: Task -> bool)
    ensures Filter(a + b, keep) == Filter(a, keep) + Filter(b, keep)
  {
    if a != [] {
      FilterAppend(a[1..], b, keep);
      assert (a + b)[0] == a[0] && (a + b)[1..] == a[1..] + b;
      var head := if keep(a[0]) then [a[0]] else [];
      calc {
        Filter(a + b, keep);
        head + Filter(a[1..] + b, keep);
        head + (Filter(a[1..], keep) + Filter(b, keep));
        (head + Filter(a[1..], keep)) + Filter(b, keep);
      }
    } else {
      assert a + b == b;
    }
  }

  // --------------------------------------------------------------- requests

  /** The outcome `approveTask` sends: `outcome || "approved"`. */
  function ApproveOutcome(outcome: string): (r: string)
    ensures r != ""
    ensures outcome != "" ==> r == outcome
  {
    if outcome == "" then "approved" else outcome
  }

  /** The client's default outcome is the server's: both approve an empty outcome as `approved`. */
  lemma ApproveOutcomeMatchesServer(outcome: string)
    ensures ApproveOutcome(outcome) == HttpApi.ApprovalOutcome(outcome)
    ensures HttpApi.ApprovalOutcome(ApproveOutcome(outcome)) == HttpApi.ApprovalOutcome(outcome)
  {
  }

  /** The status `createTask` sends: `todo` when the caller gives none. */
  function CreateStatus(status: Option<string>): (r: string)
    ensures status.None? ==> r == Models.StatusTodo
    ensures status.Some? ==> r == status.value
  {
    if status.Some? then status.value else "todo"
  }

  /** A task created with the default status passes the server's status check. */
  lemma CreateStatusAccepted()
    ensures HttpApi.CreateStatusAllowed(CreateStatus(None))
  {
  }

  // ------------------------------------------------------- default workflow

  /** `DEFAULT_WORKFLOW_STAGES`, with no candidate pools. */
  const DefaultWorkflowStages: seq<Models.Stage> := [
    Models.Stage("Coding", "agent", "submit_for_review,done", ""),
    Models.Stage("InReview", "agent", "approved,changes_requested", ""),
    Models.Stage("InApproval", "human", "approved,changes_requested", ""),
    Models.Stage("Merging", "merge", "done", ""),
    Models.Stage("Done", "terminal", "", "")
  ]

  /** `DEFAULT_WORKFLOW_TRANSITIONS`. */
  const DefaultWorkflowTransitions: seq<Models.Edge> := [
    Models.Edge("Coding", "submit_for_review", "InReview"),
    Models.Edge("Coding", "done", "Done"),
    Models.Edge("InReview", "approved", "InApproval"),
    Models.Edge("InReview", "changes_requested", "Coding"),
    Models.Edge("InApproval", "approved", "Merging"),
    Models.Edge("InApproval", "changes_requested", "Coding"),
    Models.Edge("Merging", "done", "Done")
  ]

  /** The client's tables are the ones the store seeds. */
  lemma DefaultTablesMatchSeed()
    ensures DefaultWorkflowStages == WorkflowTables.DefaultStages
    ensures DefaultWorkflowTransitions == WorkflowTables.DefaultEdges
  {
  }

  /**
   * No two transitions share a (from, outcome) pair, every transition joins
   * two stages, and none leaves `Done`, the one terminal stage, whose
   * outcomes are empty.
   */
  lemma DefaultWorkflowShape(outcome: string)
    ensures WorkflowTables.Functional(DefaultWorkflowTransitions)
    ensures forall k :: 0 <= k < |DefaultWorkflowTransitions| ==>
      DefaultWorkflowTransitions[k].from in WorkflowTables.StageNames(DefaultWorkflowStages) &&
      DefaultWorkflowTransitions[k].to in WorkflowTables.StageNames(DefaultWorkflowStages)
    ensures WorkflowTables.NextStage(DefaultWorkflowTransitions, "Done", outcome).None?
    ensures forall k :: 0 <= k < |DefaultWorkflowStages| && DefaultWorkflowStages[k].kind == Models.StageTypeTerminal ==>
      DefaultWorkflowStages[k].name == "Done" && DefaultWorkflowStages[k].outcomes == ""
  {
    DefaultTablesMatchSeed();
    WorkflowTables.DefaultEdgesFunctional();
    WorkflowTables.DefaultEdgesJoinStages();
    WorkflowTables.DefaultDoneIsSink(outcome);
  }
}
