/**
 * The HTTP API's task rules: approving a task at a human stage, requesting
 * a review, patching status and assignee, and creating a task; the clamping
 * of `limit` query parameters; the API key check; and two small helpers.
 * Request decoding, routing and JSON encoding are not modelled: a handler
 * receives the decoded fields and answers with a `Reply`.
 */
module HttpApi {
  import opened Wrappers
  import opened Models
  import opened StoreSpec
  import opened WorkflowTables
  import opened TaskStore
  import opened Events
  import Scheduler
  import Reviews

  const StatusOK := 200
  const StatusBadRequest := 400
  const StatusUnauthorized := 401
  const StatusNotFound := 404
  const StatusInternalServerError := 500

  const DefaultApprovalOutcome := "approved"
  const SubmitForReviewOutcome := "submit_for_review"
  const NoWorkflowOrStage := "task has no workflow or current stage"
  const NoWorkflow := "task has no workflow"
  const NoReviewTransition := "no submit_for_review transition from current stage"
  const TaskNotFound := "task not found"
  const TitleRequired := "title required"
  const BadPatchStatus := "status must be todo, in_progress, in_review, in_approval, merging, done, failed, or cancelled"
  const BadCreateStatus := "status must be todo or in_progress"
  const BadApiKey := "invalid or missing API key"
  /** The journal endpoint's byte limit. */
  const MaxJournalBytes := 512 * 1024

  /** A handler's answer: the successful result of each endpoint, or an error status and message. */
  datatype Reply =
    | Moved(stage: string)
    | Row(task: Task)
    | Created(id: int)
    | Tasks(rows: seq<Task>)
    | Messages(messages: seq<Message>)
    | Error(code: int, message: string)

  /** The current stage of a task, `""` when it has none. */
  function CurrentStage(t: Task): string {
    OrEmpty(t.currentStage)
  }

  /** The task a handler under `/teams/{team}/tasks/{id}` works on: 500 for an unknown team, 404 for a task not the team's. */
  function LoadError(s: Store, team: string, id: int): (r: Option<Reply>)
    reads s
    ensures r.None? <==> s.HasTeam(team) && s.HasTeamTask(team, id)
    ensures r.Some? ==> r.value.Error? && (r.value.code == StatusNotFound <==> s.HasTeam(team))
  {
    match s.GetTaskByIDAndTeam(team, id)
    case Err(e) => Some(Error(StatusInternalServerError, e))
    case Ok(None) => Some(Error(StatusNotFound, TaskNotFound))
    case Ok(Some(_)) => None
  }

  // ---------------------------------------------------------------- approve

  /** The outcome an approval applies: `approved` when none is given. */
  function ApprovalOutcome(outcome: string): string {
    if outcome == "" then DefaultApprovalOutcome else outcome
  }

  /**
   * The stage an approval moves to: only a task with a workflow and a
   * current stage can be approved, along the first edge from that stage for
   * the outcome.
   */
  function ApproveTarget(t: Task, edges: seq<Edge>, outcome: string): (r: Result<string>)
    ensures r.Err? <==> (!HasWorkflow(t) || t.currentStage.None? ||
      Transition(edges, CurrentStage(t), ApprovalOutcome(outcome)) == "")
    ensures r.Err? && (!HasWorkflow(t) || t.currentStage.None?) ==> r.error == NoWorkflowOrStage
    ensures r.Ok? ==> r.value != "" && exists k :: (0 <= k < |edges| && Matches(edges[k], CurrentStage(t), ApprovalOutcome(outcome)) &&
      edges[k].to == r.value && forall j :: 0 <= j < k ==> !Matches(edges[j], CurrentStage(t), ApprovalOutcome(outcome)))
  {
    if !HasWorkflow(t) || t.currentStage.None? then Err(NoWorkflowOrStage)
    else
      var o := ApprovalOutcome(outcome);
      var next := Transition(edges, t.currentStage.value, o);
      if next == "" then Err("no transition for stage " + t.currentStage.value + " with outcome " + o)
      else
        var k := FirstMatch(edges, t.currentStage.value, o);
        assert edges[k].to == next;
        Ok(next)
  }

  /** An empty outcome approves exactly as `approved` does. */
  lemma ApproveDefaultsOutcome(t: Task, edges: seq<Edge>)
    ensures ApproveTarget(t, edges, "") == ApproveTarget(t, edges, DefaultApprovalOutcome)
  {
  }

  /** The row after an approval to `next`: at that stage, and done, with its assignee cleared, when `next` is terminal. */
  function Approved(t: Task, next: string, stages: seq<Stage>, now: int): (r: Task)
    ensures r.currentStage == Some(next) && r.updatedAt == now
    ensures r.id == t.id && r.team == t.team && r.workflowId == t.workflowId && r.createdAt == t.createdAt
    ensures IsTerminalStage(stages, next) ==> r.status == StatusDone && r.assignee.None?
    ensures !IsTerminalStage(stages, next) ==> r.status == t.status && r.assignee == t.assignee
  {
    var moved := t.(currentStage := Some(next), updatedAt := now);
    if IsTerminalStage(stages, next) then Updated(moved, StatusDone, None, now) else moved
  }

  /** The event an approval or review request publishes. */
  function StageEvent(team: string, id: int, next: string): Payload {
    map["type" := Str(TaskUpdateType), "team" := Str(team), "task_id" := Int(id), "current_stage" := Str(next)]
  }

  /** `POST /teams/{team}/tasks/{id}/approve`. */
  method Approve(s: Store, hub: Hub, team: string, id: int, outcome: string) returns (reply: Reply)
    requires s.Valid()
    modifies s, hub
    ensures s.Valid()
    ensures old(LoadError(s, team, id)).Some? ==>
      reply == old(LoadError(s, team, id)).value && s.tasks == old(s.tasks) && hub.published == old(hub.published)
    ensures old(LoadError(s, team, id)).None? ==>
      var t := old(s.tasks[id - 1]);
      var target := ApproveTarget(t, old(s.EdgesOf(OrEmpty(t.workflowId))), outcome);
      (target.Err? ==> reply == Error(StatusBadRequest, target.error) && s.tasks == old(s.tasks) && hub.published == old(hub.published)) &&
      (target.Ok? ==> (reply == Moved(target.value) &&
        s.tasks == old(s.tasks)[id - 1 := Approved(t, target.value, old(s.StagesOf(OrEmpty(t.workflowId))), old(s.now))] &&
        hub.published == old(hub.published) + [StageEvent(team, id, target.value)]))
    ensures s.now == old(s.now) && s.messages == old(s.messages) && s.workflows == old(s.workflows) && s.teams == old(s.teams)
    ensures s.reviews == old(s.reviews) && s.agents == old(s.agents) && s.repos == old(s.repos) && s.allowlist == old(s.allowlist)
  {
    var load := LoadError(s, team, id);
    if load.Some? {
      return load.value;
    }
    var t := s.tasks[id - 1];
    var wf := OrEmpty(t.workflowId);
    var target := ApproveTarget(t, s.EdgesOf(wf), outcome);
    if target.Err? {
      return Error(StatusBadRequest, target.error);
    }
    var next := target.value;
    var stages := s.StagesOf(wf);
    s.UpdateTaskStage(id, next);
    if IsTerminalStage(stages, next) {
      s.UpdateTask(id, StatusDone, None);
    }
    hub.Publish(StageEvent(team, id, next));
    return Moved(next);
  }

  // --------------------------------------------------------- request review

  /** The stage a review request moves to: along the first `submit_for_review` edge from the current stage (`""` when none). */
  function ReviewTarget(t: Task, edges: seq<Edge>): (r: Result<string>)
    ensures r.Err? <==> !HasWorkflow(t) || Transition(edges, CurrentStage(t), SubmitForReviewOutcome) == ""
    ensures r.Err? ==> r.error == (if HasWorkflow(t) then NoReviewTransition else NoWorkflow)
    ensures r.Ok? ==> r.value != "" && exists k :: (0 <= k < |edges| && Matches(edges[k], CurrentStage(t), SubmitForReviewOutcome) &&
      edges[k].to == r.value && forall j :: 0 <= j < k ==> !Matches(edges[j], CurrentStage(t), SubmitForReviewOutcome))
  {
    if !HasWorkflow(t) then Err(NoWorkflow)
    else
      var next := Transition(edges, CurrentStage(t), SubmitForReviewOutcome);
      if next == "" then Err(NoReviewTransition)
      else
        var k := FirstMatch(edges, CurrentStage(t), SubmitForReviewOutcome);
        assert edges[k].to == next;
        Ok(next)
  }

  /**
   * The row after a review request to `next`: at that stage, and, when it
   * is the `InReview` stage and the team has agents, assigned to the
   * reviewer chosen for the moved task.
   */
  function ReviewRequested(t: Task, next: string, stages: seq<Stage>, agents: seq<Agent>, now: int): (r: Task)
    ensures r.currentStage == Some(next) && r.status == t.status && r.updatedAt == now
    ensures r.id == t.id && r.team == t.team && r.workflowId == t.workflowId && r.createdAt == t.createdAt && r.dri == t.dri
    ensures next != Reviews.InReviewStage || agents == [] ==> r.assignee == t.assignee
  {
    WithReviewer(t.(currentStage := Some(next), updatedAt := now), stages, agents, now)
  }

  /** A task that has just entered a stage, assigned to its reviewer when that stage is `InReview` and a reviewer is found. */
  function WithReviewer(moved: Task, stages: seq<Stage>, agents: seq<Agent>, now: int): Task {
    var reviewer := Reviews.Reviewer(moved, stages, agents);
    if moved.currentStage == Some(Reviews.InReviewStage) && agents != [] && reviewer != "" then Updated(moved, "", Some(reviewer), now)
    else moved
  }

  /**
   * A review request into `InReview` assigns one of the team's agents, and
   * not the task's DRI when any other agent exists.
   */
  lemma ReviewRequestAssignsReviewer(t: Task, stages: seq<Stage>, agents: seq<Agent>, now: int)
    requires forall k :: 0 <= k < |agents| ==> agents[k].name != ""
    requires exists k :: 0 <= k < |agents| && agents[k].name != OrEmpty(t.dri)
    ensures var r := ReviewRequested(t, Reviews.InReviewStage, stages, agents, now);
      r.assignee.Some? && (exists k :: 0 <= k < |agents| && r.assignee.value == agents[k].name) &&
      r.assignee.value != OrEmpty(t.dri)
  {
    var moved := t.(currentStage := Some(Reviews.InReviewStage), updatedAt := now);
    Reviews.ReviewerIsAgent(moved, stages, agents);
    Reviews.ReviewerAvoidsDri(moved, stages, agents);
  }

  /** The event of a review request, with the assignee, `null` when there is none. */
  function ReviewEvent(team: string, id: int, next: string, assignee: Option<string>): Payload {
    StageEvent(team, id, next)["assignee" := OptStr(assignee)]
  }

  /** `POST /teams/{team}/tasks/{id}/request-review`. */
  method RequestReview(s: Store, hub: Hub, team: string, id: int) returns (reply: Reply)
    requires s.Valid()
    modifies s, hub
    ensures s.Valid()
    ensures old(LoadError(s, team, id)).Some? ==>
      reply == old(LoadError(s, team, id)).value && s.tasks == old(s.tasks) && hub.published == old(hub.published)
    ensures old(LoadError(s, team, id)).None? ==>
      var t := old(s.tasks[id - 1]);
      var target := ReviewTarget(t, old(s.EdgesOf(OrEmpty(t.workflowId))));
      (target.Err? ==> reply == Error(StatusBadRequest, target.error) && s.tasks == old(s.tasks) && hub.published == old(hub.published)) &&
      (target.Ok? ==> (reply == Moved(target.value) &&
        s.tasks == old(s.tasks)[id - 1 := ReviewRequested(t, target.value, old(s.StagesOf(t.workflowId.value)), old(s.AgentsOf(team)), old(s.now))] &&
        hub.published == old(hub.published) + [ReviewEvent(team, id, target.value, s.tasks[id - 1].assignee)]))
    ensures s.now == old(s.now) && s.messages == old(s.messages) && s.workflows == old(s.workflows) && s.teams == old(s.teams)
    ensures s.reviews == old(s.reviews) && s.agents == old(s.agents) && s.repos == old(s.repos) && s.allowlist == old(s.allowlist)
  {
    var load := LoadError(s, team, id);
    if load.Some? {
      return load.value;
    }
    var t := s.tasks[id - 1];
    var target := ReviewTarget(t, s.EdgesOf(OrEmpty(t.workflowId)));
    if target.Err? {
      return Error(StatusBadRequest, target.error);
    }
    var next := target.value;
    ghost var rows, now := s.tasks, s.now;
    ghost var stages, agents := s.StagesOf(t.workflowId.value), s.AgentsOf(team);
    s.SetTaskWorkflowAndStage(id, t.workflowId.value, next);
    assert s.tasks == rows[id - 1 := t.(currentStage := Some(next), updatedAt := now)];
    assert s.StagesOf(t.workflowId.value) == stages && s.AgentsOf(team) == agents;
    AssignReviewer(s, team, id);
    assert s.tasks == rows[id - 1 := ReviewRequested(t, next, stages, agents, now)];
    hub.Publish(ReviewEvent(team, id, next, s.tasks[id - 1].assignee));
    return Moved(next);
  }

  /** The reviewer assignment of a review request, on the row that has just entered its stage. */
  method AssignReviewer(s: Store, team: string, id: int)
    requires s.Valid() && s.HasTask(id) && HasWorkflow(s.tasks[id - 1]) && s.tasks[id - 1].updatedAt == s.now
    modifies s
    ensures s.Valid()
    ensures s.tasks == old(s.tasks)[id - 1 := WithReviewer(old(s.tasks[id - 1]), old(s.StagesOf(s.tasks[id - 1].workflowId.value)), old(s.AgentsOf(team)), old(s.now))]
    ensures s.now == old(s.now) && s.messages == old(s.messages) && s.workflows == old(s.workflows) && s.teams == old(s.teams)
    ensures s.reviews == old(s.reviews) && s.agents == old(s.agents) && s.repos == old(s.repos) && s.allowlist == old(s.allowlist)
  {
    var agents := s.AgentsOf(team);
    var updated := s.tasks[id - 1];
    if |agents| > 0 && updated.currentStage == Some(Reviews.InReviewStage) {
      var reviewer := Reviews.PickReviewer(s, team, updated, agents);
      if reviewer != "" {
        s.UpdateTask(id, "", Some(reviewer));
        assert s.tasks[id - 1] == Updated(updated, "", Some(reviewer), s.now);
      }
    }
  }

  // ------------------------------------------------------------------ patch

  /** The statuses a PATCH may set. */
  const PatchStatuses: set<string> :=
    {StatusTodo, StatusInProgress, StatusInReview, StatusInApproval, StatusMerging, StatusDone, StatusFailed, StatusCancelled}

  /** The status a PATCH writes: an omitted or empty one leaves the status as it is (`""`); an unknown one is refused. */
  function PatchStatus(status: Option<string>): (r: Result<string>)
    ensures r.Err? <==> status.Some? && status.value != "" && status.value !in PatchStatuses
    ensures r.Err? ==> r.error == BadPatchStatus
    ensures r.Ok? ==> r.value == OrEmpty(status) && (r.value == "" || r.value in PatchStatuses)
  {
    var st := OrEmpty(status);
    if st != "" && st !in PatchStatuses then Err(BadPatchStatus) else Ok(st)
  }

  /**
   * There is no transition check: any known status can be set from any
   * status, the pipeline statuses included, so a task can be moved straight
   * to `done` or back to `todo` from anywhere.
   */
  lemma PatchSkipsTransitionCheck(t: Task, status: string, assignee: Option<string>, now: int)
    requires status in PatchStatuses
    ensures PatchStatus(Some(status)) == Ok(status)
    ensures Updated(t, PatchStatus(Some(status)).value, assignee, now).status == status
  {
  }

  /** `PATCH /teams/{team}/tasks/{id}`: the updated row is published and returned. */
  method Patch(s: Store, hub: Hub, team: string, id: int, status: Option<string>, assignee: Option<string>) returns (reply: Reply)
    requires s.Valid()
    modifies s, hub
    ensures s.Valid()
    ensures old(LoadError(s, team, id)).Some? || PatchStatus(status).Err? ==> s.tasks == old(s.tasks) && hub.published == old(hub.published)
    ensures old(LoadError(s, team, id)).Some? ==> reply == old(LoadError(s, team, id)).value
    ensures old(LoadError(s, team, id)).None? && PatchStatus(status).Err? ==> reply == Error(StatusBadRequest, BadPatchStatus)
    ensures old(LoadError(s, team, id)).None? && PatchStatus(status).Ok? ==>
      var u := Updated(old(s.tasks[id - 1]), PatchStatus(status).value, assignee, old(s.now));
      reply == Row(u) && s.tasks == old(s.tasks)[id - 1 := u] &&
      hub.published == old(hub.published) + [Scheduler.TaskUpdate(team, id, u.status, u.assignee)]
    ensures s.now == old(s.now) && s.messages == old(s.messages) && s.workflows == old(s.workflows) && s.teams == old(s.teams)
    ensures s.reviews == old(s.reviews) && s.agents == old(s.agents) && s.repos == old(s.repos) && s.allowlist == old(s.allowlist)
  {
    var load := LoadError(s, team, id);
    if load.Some? {
      return load.value;
    }
    var st := PatchStatus(status);
    if st.Err? {
      return Error(StatusBadRequest, st.error);
    }
    s.UpdateTask(id, st.value, assignee);
    var updated := s.tasks[id - 1];
    Scheduler.PublishTaskUpdate(hub, team, id, updated.status, updated.assignee);
    return Row(updated);
  }

  // ----------------------------------------------------------------- create

  /** The statuses a new task may be created with. */
  predicate CreateStatusAllowed(status: string) {
    status == "" || status == StatusTodo || status == StatusInProgress
  }

  /** The event announcing a new task. */
  function CreatedEvent(team: string, id: int): Payload {
    map["type" := Str(TaskUpdateType), "team" := Str(team), "task_id" := Int(id)]
  }

  /**
   * `POST /teams/{team}/tasks`: a title and a status of todo or
   * in-progress (or none, which is todo) are required, and the team's
   * default workflow is attached when it has one.
   */
  method Create(s: Store, hub: Hub, team: string, title: string, status: string) returns (reply: Reply)
    requires s.Valid()
    modifies s, hub
    ensures s.Valid()
    ensures reply.Created? <==> title != "" && CreateStatusAllowed(status) && old(s.HasTeam(team))
    ensures !reply.Created? ==> reply.Error? && reply.code == StatusBadRequest && s.tasks == old(s.tasks) && hub.published == old(hub.published)
    ensures title == "" ==> reply == Error(StatusBadRequest, TitleRequired)
    ensures title != "" && !CreateStatusAllowed(status) ==> reply == Error(StatusBadRequest, BadCreateStatus)
    ensures reply.Created? ==> (reply.id == |old(s.tasks)| + 1 &&
      s.tasks == old(s.tasks) + [old(s.NewTask(|s.tasks| + 1, team, title, status, DefaultWorkflow(s, team)))] &&
      s.tasks[reply.id - 1].status in {StatusTodo, StatusInProgress} &&
      hub.published == old(hub.published) + [CreatedEvent(team, reply.id)])
    ensures s.now == old(s.now) && s.messages == old(s.messages) && s.workflows == old(s.workflows) && s.teams == old(s.teams)
    ensures s.reviews == old(s.reviews) && s.agents == old(s.agents) && s.repos == old(s.repos) && s.allowlist == old(s.allowlist)
  {
    if title == "" {
      return Error(StatusBadRequest, TitleRequired);
    }
    if !CreateStatusAllowed(status) {
      return Error(StatusBadRequest, BadCreateStatus);
    }
    var w := s.GetWorkflowIDByTeamAndName(team, DefaultWorkflowName, 1);
    var wf: Option<string> := None;
    if w.Ok? && w.value != "" {
      wf := Some(w.value);
    }
    assert wf == DefaultWorkflow(s, team);
    var id, err := s.CreateTask(team, title, status, wf);
    if err.Some? {
      return Error(StatusBadRequest, err.value);
    }
    hub.Publish(CreatedEvent(team, id));
    return Created(id);
  }

  // ----------------------------------------------------------------- limits

  /**
   * The `limit` query parameter as the handlers read it, from the integer
   * `Sscanf` parses (`None` when it parses none): a positive one is clamped
   * to `max`, and any other parsed value is kept.
   */
  function ListLimitAsWritten(parsed: Option<int>, max: int): int {
    match parsed
    case None => 0
    case Some(n) => if n > 0 then (if n > max then max else n) else n
  }

  /** As written, `?limit=-1` reaches the store, where SQLite reads a negative limit as no limit at all. */
  lemma NegativeLimitUnboundedAsWritten()
    ensures ListLimitAsWritten(Some(-1), DefaultTaskListLimit) == -1
    ensures TaskCap(SQLite, ListLimitAsWritten(Some(-1), DefaultTaskListLimit)).None?
    ensures TaskCap(SQLite, ListLimitAsWritten(None, DefaultTaskListLimit)) == Some(PreparedTaskLimit)
  {
  }

  /** The clamp as documented: a positive limit is clamped to `max`, and a non-positive or unparseable one is 0. */
  function ListLimit(parsed: Option<int>, max: int): (r: int)
    requires max > 0
    ensures 0 <= r <= max
    ensures parsed.Some? && 0 < parsed.value <= max ==> r == parsed.value
    ensures parsed.Some? && parsed.value > max ==> r == max
    ensures parsed.None? || parsed.value <= 0 ==> r == 0
  {
    match parsed
    case None => 0
    case Some(n) => if n > 0 then (if n > max then max else n) else 0
  }

  /**
   * The corrected clamp agrees with the one as written on every positive or
   * unparseable value, and on SQLite every query is then bounded.
   */
  lemma ListLimitCorrected(parsed: Option<int>, max: int)
    requires max > 0
    ensures parsed.None? || parsed.value > 0 ==> ListLimit(parsed, max) == ListLimitAsWritten(parsed, max)
    ensures TaskCap(SQLite, ListLimit(parsed, max)).Some?
    ensures TaskCap(SQLite, ListLimit(parsed, max)).value <= PreparedTaskLimit
  {
  }

  /** `GET /teams/{team}/tasks`: 404 for an unknown team, else the newest tasks within the clamped limit. */
  method ListTasks(s: Store, team: string, parsed: Option<int>) returns (reply: Reply)
    requires s.Valid()
    ensures reply.Error? <==> !s.HasTeam(team)
    ensures reply.Error? ==> reply.code == StatusNotFound
    ensures reply.Tasks? ==> reply.rows == Take(TeamNewestFirst(s.tasks, team), TaskCap(s.backend, ListLimit(parsed, DefaultTaskListLimit)))
    ensures reply.Tasks? && s.backend == SQLite ==> |reply.rows| <= PreparedTaskLimit
    ensures reply.Tasks? && parsed.Some? && parsed.value > 0 ==> |reply.rows| <= DefaultTaskListLimit
  {
    var limit := ListLimit(parsed, DefaultTaskListLimit);
    var r := s.ListTasks(team, limit);
    if r.Err? {
      return Error(StatusNotFound, r.error);
    }
    return Tasks(r.value);
  }

  /** `GET /teams/{team}/messages`: 500 for an unknown team, else the newest messages within the clamped limit. */
  method ListMessages(s: Store, team: string, recipient: string, parsed: Option<int>) returns (reply: Reply)
    requires s.Valid()
    ensures reply.Error? <==> !s.HasTeam(team)
    ensures reply.Error? ==> reply.code == StatusInternalServerError
    ensures reply.Messages? ==>
      reply.messages == Take(InboxNewestFirst(s.messages, team, recipient), MessageCap(ListLimit(parsed, DefaultMessageListLimit)))
    ensures reply.Messages? && parsed.Some? && parsed.value > 0 ==> |reply.messages| <= DefaultMessageListLimit
  {
    var limit := ListLimit(parsed, DefaultMessageListLimit);
    var r := s.ListMessages(team, recipient, limit);
    if r.Err? {
      return Error(StatusInternalServerError, r.error);
    }
    return Messages(r.value);
  }

  /** The journal endpoint's byte limit. */
  function JournalLimit(parsed: Option<int>): (r: int)
    ensures 0 <= r <= MaxJournalBytes
    ensures parsed.Some? && 0 < parsed.value <= MaxJournalBytes ==> r == parsed.value
    ensures parsed.Some? && parsed.value > MaxJournalBytes ==> r == MaxJournalBytes
  {
    ListLimit(parsed, MaxJournalBytes)
  }

  // ---------------------------------------------------------------- API key

  /** The paths served without a key. */
  predicate ExemptPath(path: string) {
    path == "/health" || path == "/metrics"
  }

  /** The key a request presents: the `X-API-Key` header, or the `api_key` query parameter when the header is empty. */
  function PresentedKey(header: string, query: string): string {
    if header == "" then query else header
  }

  /**
   * Is a request let through: always when no key is configured (the check
   * is not installed), for the exempt paths, and otherwise exactly when the
   * presented key is the configured one.
   */
  function Admits(apiKey: string, path: string, header: string, query: string): (ok: bool)
    ensures apiKey == "" || ExemptPath(path) ==> ok
    ensures apiKey != "" && !ExemptPath(path) && header != "" ==> (ok <==> header == apiKey)
    ensures apiKey != "" && !ExemptPath(path) && header == "" ==> (ok <==> query == apiKey)
  {
    apiKey == "" || ExemptPath(path) || PresentedKey(header, query) == apiKey
  }

  /** A configured key is never matched by a request without one, and a wrong header is not rescued by a right query parameter. */
  lemma AdmitsNeedsKey(apiKey: string, path: string, header: string, query: string)
    requires apiKey != "" && !ExemptPath(path)
    ensures header == "" && query == "" ==> !Admits(apiKey, path, header, query)
    ensures header != "" && header != apiKey ==> !Admits(apiKey, path, header, query)
  {
  }

  /** The middleware's answer to a refused request. */
  function Refusal(): Reply {
    Error(StatusUnauthorized, BadApiKey)
  }

  // ---------------------------------------------------------------- helpers

  newtype byte = x: int | 0 <= x < 256

  /** The bytes `bytesTrimSpace` trims: space, newline, carriage return and tab. */
  predicate IsTrimByte(c: byte) {
    c == 32 || c == 10 || c == 13 || c == 9
  }

  /** `bytesTrimSpace`: the sub-slice between the leading and the trailing trimmed bytes. */
  method BytesTrimSpace(b: seq<byte>) returns (r: seq<byte>)
    ensures exists i, j :: (0 <= i <= j <= |b| && r == b[i..j] &&
      (forall k :: 0 <= k < i ==> IsTrimByte(b[k])) && (forall k :: j <= k < |b| ==> IsTrimByte(b[k])))
    ensures r == [] || (!IsTrimByte(r[0]) && !IsTrimByte(r[|r| - 1]))
    ensures r == [] <==> forall k :: 0 <= k < |b| ==> IsTrimByte(b[k])
  {
    var i := 0;
    var j := |b|;
    while i < j && IsTrimByte(b[i])
      invariant 0 <= i <= j == |b|
      invariant forall k :: 0 <= k < i ==> IsTrimByte(b[k])
    {
      i := i + 1;
    }
    while j > i && IsTrimByte(b[j - 1])
      invariant i <= j <= |b|
      invariant forall k :: j <= k < |b| ==> IsTrimByte(b[k])
    {
      j := j - 1;
    }
    r := b[i..j];
  }

  /** `nilIfEmpty`: an empty string is JSON `null`. */
  function NilIfEmpty(s: string): (r: Option<string>)
    ensures r.None? <==> s == ""
    ensures r.Some? ==> r.value == s
  {
    if s == "" then None else Some(s)
  }

  /** `nilIfEmpty` loses nothing: reading `null` back as the empty string restores the input. */
  lemma NilIfEmptyRoundTrip(s: string)
    ensures OrEmpty(NilIfEmpty(s)) == s
    ensures NilIfEmpty(OrEmpty(NilIfEmpty(s))) == NilIfEmpty(s)
  {
  }
}
