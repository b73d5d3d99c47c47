/**
 * The store as in-memory tables: teams, agents and repositories per team,
 * tasks, workflows, reviews, messages and the network allowlist.  Task and
 * message ids are their positions in insertion order plus one, as an
 * auto-increment key gives them; `now` is an abstract clock that the caller
 * advances.  SQL text, drivers and statement failures are not modelled: every
 * statement takes effect.
 */
module TaskStore {
  import opened Wrappers
  import opened GoStrings
  import opened Models
  import opened StoreSpec
  import WorkflowTables

  /** A row of the workflows table, with its stages and transitions. */
  datatype WorkflowRow = WorkflowRow(id: string, def: Workflow)

  datatype Review = Review(taskId: int, team: string, reviewer: string, outcome: string, comments: string, createdAt: int)

  class Store {
    const backend: Backend
    var teams: seq<string>
    var agents: map<string, seq<Agent>>
    var repos: map<string, seq<Repo>>
    var tasks: seq<Task>
    var workflows: seq<WorkflowRow>
    var reviews: seq<Review>
    var messages: seq<Message>
    var allowlist: set<string>
    var now: int

    /** Ids are positions, rows are stamped no later than the clock, and the wildcard stands alone. */
    ghost predicate Valid()
      reads this
    {
      (forall k :: 0 <= k < |tasks| ==> tasks[k].id == k + 1 && tasks[k].createdAt <= now)
      && CreatedInOrder(tasks)
      && (forall k :: 0 <= k < |messages| ==> messages[k].id == k + 1)
      && WildcardAlone(allowlist)
    }

    constructor(b: Backend, teams0: seq<string>, agents0: map<string, seq<Agent>>, repos0: map<string, seq<Repo>>,
                workflows0: seq<WorkflowRow>, allowlist0: set<string>, now0: int)
      requires WildcardAlone(allowlist0)
      ensures Valid()
      ensures backend == b && teams == teams0 && agents == agents0 && repos == repos0
      ensures workflows == workflows0 && allowlist == allowlist0 && now == now0
      ensures tasks == [] && reviews == [] && messages == []
    {
      backend := b;
      teams := teams0;
      agents := agents0;
      repos := repos0;
      tasks := [];
      workflows := workflows0;
      reviews := [];
      messages := [];
      allowlist := allowlist0;
      now := now0;
    }

    /** The passing of time between operations. */
    method Advance(t: int)
      requires Valid() && now <= t
      modifies this
      ensures Valid() && now == t
      ensures tasks == old(tasks) && messages == old(messages) && allowlist == old(allowlist)
      ensures teams == old(teams) && workflows == old(workflows) && reviews == old(reviews)
      ensures agents == old(agents) && repos == old(repos)
    {
      now := t;
    }

    predicate HasTeam(name: string)
      reads this
    {
      name in teams
    }

    /** The row with task id `id`, when there is one. */
    predicate HasTask(id: int)
      reads this
    {
      1 <= id <= |tasks|
    }

    /** The row of the team's task `id`: the `WHERE task_id = ? AND team_id = ?` rows. */
    predicate HasTeamTask(team: string, id: int)
      reads this
    {
      HasTask(id) && tasks[id - 1].team == team
    }

    /** `GetTaskByIDAndTeam`: the team must exist; a task of another team is not found. */
    function GetTaskByIDAndTeam(team: string, id: int): (r: Result<Option<Task>>)
      reads this
      ensures r.Err? <==> !HasTeam(team)
      ensures r.Ok? && r.value.Some? ==> HasTeamTask(team, id) && r.value.value == tasks[id - 1]
      ensures r.Ok? && r.value.None? ==> !HasTeamTask(team, id)
    {
      if !HasTeam(team) then Err(TeamNotFound(team))
      else if HasTeamTask(team, id) then Ok(Some(tasks[id - 1]))
      else Ok(None)
    }

    /** The agents of a team in creation order (the error of an unknown team is folded into the empty list). */
    function AgentsOf(team: string): seq<Agent>
      reads this
    {
      if team in agents then agents[team] else []
    }

    /** The repositories of a team in creation order. */
    function ReposOf(team: string): seq<Repo>
      reads this
    {
      if team in repos then repos[team] else []
    }

    /** The stored workflow with id `id`, if any. */
    function FindWorkflow(id: string): (r: Option<Workflow>)
      reads this
      ensures r.None? <==> forall k :: 0 <= k < |workflows| ==> workflows[k].id != id
    {
      FindRow(workflows, id)
    }

    /** `GetWorkflowStages`: no stages for an unknown workflow. */
    function StagesOf(id: string): seq<Stage>
      reads this
    {
      match FindWorkflow(id)
      case Some(w) => w.stages
      case None => []
    }

    /** `GetWorkflowTransitions`: no transitions for an unknown workflow. */
    function EdgesOf(id: string): seq<Edge>
      reads this
    {
      match FindWorkflow(id)
      case Some(w) => w.edges
      case None => []
    }

    /** The initial stage of a stored workflow; an unknown one has no stages and so none. */
    function InitialStageOf(id: string): Result<string>
      reads this
    {
      InitialStage(StagesOf(id), EdgesOf(id))
    }

    // ------------------------------------------------------------ task writes

    /**
     * `CreateTask`: an unknown team or an empty title is an error; an empty
     * status becomes todo.  A non-empty workflow id whose initial stage
     * resolves is stored with that stage; otherwise the task has neither, and
     * the failure is not reported.
     */
    method CreateTask(team: string, title: string, status: string, workflowId: Option<string>) returns (id: int, err: Error)
      requires Valid()
      modifies this
      ensures Valid()
      ensures err.Some? <==> !HasTeam(team) || title == ""
      ensures !HasTeam(team) ==> err == Some(TeamNotFound(team))
      ensures HasTeam(team) && title == "" ==> err == Some("title required")
      ensures err.Some? ==> id == 0 && tasks == old(tasks)
      ensures err.None? ==> id == |old(tasks)| + 1 && tasks == old(tasks) + [NewTask(id, team, title, status, workflowId)]
      ensures now == old(now) && messages == old(messages) && allowlist == old(allowlist) && workflows == old(workflows)
      ensures teams == old(teams) && reviews == old(reviews) && agents == old(agents) && repos == old(repos)
    {
      if !HasTeam(team) {
        return 0, Some(TeamNotFound(team));
      }
      if title == "" {
        return 0, Some("title required");
      }
      var s := if status == "" then StatusTodo else status;
      id := |tasks| + 1;
      var row := Task(id, team, title, s, None, None, 0, None, None, None, None, None, None, now, now);
      if workflowId.Some? && workflowId.value != "" {
        var initial := GetWorkflowInitialStage(workflowId.value);
        if initial.Ok? {
          row := row.(workflowId := workflowId, currentStage := Some(initial.value));
        }
      }
      assert row == NewTask(id, team, title, status, workflowId);
      AppendTask(row);
      return id, None;
    }

    /** Inserts a new row with the next id, stamped now. */
    method AppendTask(t: Task)
      requires Valid() && t.id == |tasks| + 1 && t.createdAt == now
      modifies this
      ensures Valid()
      ensures tasks == old(tasks) + [t]
      ensures now == old(now) && messages == old(messages) && allowlist == old(allowlist) && workflows == old(workflows)
      ensures teams == old(teams) && reviews == old(reviews) && agents == old(agents) && repos == old(repos)
    {
      tasks := tasks + [t];
    }

    /** The row `CreateTask` inserts. */
    function NewTask(id: int, team: string, title: string, status: string, workflowId: Option<string>): (t: Task)
      reads this
      ensures t.id == id && t.team == team && t.title == title && t.createdAt == now && t.updatedAt == now
      ensures t.status == if status == "" then StatusTodo else status
      ensures t.assignee.None? && t.dri.None? && t.attemptCount == 0
      ensures t.workflowId.Some? <==> workflowId.Some? && workflowId.value != "" && InitialStageOf(workflowId.value).Ok?
      ensures t.workflowId.Some? ==> t.workflowId == workflowId && t.currentStage == Some(InitialStageOf(workflowId.value).value)
      ensures t.workflowId.None? ==> t.currentStage.None?
    {
      var row := Task(id, team, title, if status == "" then StatusTodo else status,
                      None, None, 0, None, None, None, None, None, None, now, now);
      if workflowId.Some? && workflowId.value != "" && InitialStageOf(workflowId.value).Ok? then
        row.(workflowId := workflowId, currentStage := Some(InitialStageOf(workflowId.value).value))
      else row
    }

    /** Replaces the row of task `id` (which exists) and nothing else. */
    method SetRow(id: int, t: Task)
      requires Valid() && HasTask(id)
      requires t.id == id && t.createdAt == tasks[id - 1].createdAt
      modifies this
      ensures Valid()
      ensures tasks == old(tasks)[id - 1 := t]
      ensures now == old(now) && messages == old(messages) && allowlist == old(allowlist) && workflows == old(workflows)
      ensures teams == old(teams) && reviews == old(reviews) && agents == old(agents) && repos == old(repos)
    {
      tasks := tasks[id - 1 := t];
    }

    /** `UpdateTask`: no row, no change. */
    method UpdateTask(id: int, status: string, assignee: Option<string>)
      requires Valid()
      modifies this
      ensures Valid()
      ensures old(HasTask(id)) ==> tasks == old(tasks)[id - 1 := Updated(old(tasks)[id - 1], status, assignee, now)]
      ensures !old(HasTask(id)) ==> tasks == old(tasks)
      ensures now == old(now) && messages == old(messages) && allowlist == old(allowlist) && workflows == old(workflows)
      ensures teams == old(teams) && reviews == old(reviews) && agents == old(agents) && repos == old(repos)
    {
      if HasTask(id) {
        SetRow(id, Updated(tasks[id - 1], status, assignee, now));
      }
    }

    /**
     * `ClaimTask`: true exactly when the team exists and task `id` is the
     * team's and still todo; only then is the row changed.
     */
    method ClaimTask(team: string, id: int, assignee: string) returns (claimed: bool, err: Error)
      requires Valid()
      modifies this
      ensures Valid()
      ensures err.Some? <==> !HasTeam(team)
      ensures claimed <==> HasTeam(team) && old(HasTask(id)) && Claimable(old(tasks)[id - 1], team)
      ensures claimed ==> tasks == old(tasks)[id - 1 := Claimed(old(tasks)[id - 1], assignee, now)]
      ensures !claimed ==> tasks == old(tasks)
      ensures now == old(now) && messages == old(messages) && allowlist == old(allowlist) && workflows == old(workflows)
      ensures teams == old(teams) && reviews == old(reviews) && agents == old(agents) && repos == old(repos)
    {
      if !HasTeam(team) {
        return false, Some(TeamNotFound(team));
      }
      if HasTask(id) && Claimable(tasks[id - 1], team) {
        SetRow(id, Claimed(tasks[id - 1], assignee, now));
        return true, None;
      }
      return false, None;
    }

    /** `SetTaskFailed`. */
    method SetTaskFailed(id: int)
      requires Valid()
      modifies this
      ensures Valid()
      ensures old(HasTask(id)) ==> tasks == old(tasks)[id - 1 := Failed(old(tasks)[id - 1], now)]
      ensures !old(HasTask(id)) ==> tasks == old(tasks)
      ensures now == old(now) && messages == old(messages) && allowlist == old(allowlist) && workflows == old(workflows)
      ensures teams == old(teams) && reviews == old(reviews) && agents == old(agents) && repos == old(repos)
    {
      if HasTask(id) {
        SetRow(id, Failed(tasks[id - 1], now));
      }
    }

    /** `RequeueTask`: only the team's own task is touched. */
    method RequeueTask(team: string, id: int) returns (err: Error)
      requires Valid()
      modifies this
      ensures Valid()
      ensures err.Some? <==> !HasTeam(team)
      ensures HasTeam(team) && old(HasTeamTask(team, id)) ==> tasks == old(tasks)[id - 1 := Requeued(old(tasks)[id - 1], now)]
      ensures !(HasTeam(team) && old(HasTeamTask(team, id))) ==> tasks == old(tasks)
      ensures now == old(now) && messages == old(messages) && allowlist == old(allowlist) && workflows == old(workflows)
      ensures teams == old(teams) && reviews == old(reviews) && agents == old(agents) && repos == old(repos)
    {
      if !HasTeam(team) {
        return Some(TeamNotFound(team));
      }
      if HasTeamTask(team, id) {
        SetRow(id, Requeued(tasks[id - 1], now));
      }
      return None;
    }

    /** `SetTaskCancelled`: cancelled with no assignee; the git fields stay for the caller to clean. */
    method SetTaskCancelled(team: string, id: int) returns (err: Error)
      requires Valid()
      modifies this
      ensures Valid()
      ensures err.Some? <==> !HasTeam(team)
      ensures HasTeam(team) && old(HasTeamTask(team, id)) ==>
        tasks == old(tasks)[id - 1 := old(tasks)[id - 1].(status := StatusCancelled, assignee := None, updatedAt := now)]
      ensures !(HasTeam(team) && old(HasTeamTask(team, id))) ==> tasks == old(tasks)
      ensures now == old(now) && messages == old(messages) && allowlist == old(allowlist) && workflows == old(workflows)
      ensures teams == old(teams) && reviews == old(reviews) && agents == old(agents) && repos == old(repos)
    {
      if !HasTeam(team) {
        return Some(TeamNotFound(team));
      }
      if HasTeamTask(team, id) {
        SetRow(id, tasks[id - 1].(status := StatusCancelled, assignee := None, updatedAt := now));
      }
      return None;
    }

    /** `ClearTaskGitFields`. */
    method ClearTaskGitFields(id: int)
      requires Valid()
      modifies this
      ensures Valid()
      ensures old(HasTask(id)) ==> tasks == old(tasks)[id - 1 := old(tasks)[id - 1].(worktreePath := None, branchName := None,
                                                              baseSha := None, repoName := None, updatedAt := now)]
      ensures !old(HasTask(id)) ==> tasks == old(tasks)
      ensures now == old(now) && messages == old(messages) && allowlist == old(allowlist) && workflows == old(workflows)
      ensures teams == old(teams) && reviews == old(reviews) && agents == old(agents) && repos == old(repos)
    {
      if HasTask(id) {
        SetRow(id, tasks[id - 1].(worktreePath := None, branchName := None, baseSha := None, repoName := None, updatedAt := now));
      }
    }

    /** `UpdateTaskGitFields`: each missing value is stored as NULL. */
    method UpdateTaskGitFields(id: int, worktreePath: Option<string>, branchName: Option<string>,
                               baseSha: Option<string>, repoName: Option<string>)
      requires Valid()
      modifies this
      ensures Valid()
      ensures old(HasTask(id)) ==> tasks == old(tasks)[id - 1 := old(tasks)[id - 1].(worktreePath := worktreePath, branchName := branchName,
                                                              baseSha := baseSha, repoName := repoName, updatedAt := now)]
      ensures !old(HasTask(id)) ==> tasks == old(tasks)
      ensures now == old(now) && messages == old(messages) && allowlist == old(allowlist) && workflows == old(workflows)
      ensures teams == old(teams) && reviews == old(reviews) && agents == old(agents) && repos == old(repos)
    {
      if HasTask(id) {
        SetRow(id, tasks[id - 1].(worktreePath := worktreePath, branchName := branchName,
                                  baseSha := baseSha, repoName := repoName, updatedAt := now));
      }
    }

    /** `UpdateTaskStage`. */
    method UpdateTaskStage(id: int, stage: string)
      requires Valid()
      modifies this
      ensures Valid()
      ensures old(HasTask(id)) ==> tasks == old(tasks)[id - 1 := old(tasks)[id - 1].(currentStage := Some(stage), updatedAt := now)]
      ensures !old(HasTask(id)) ==> tasks == old(tasks)
      ensures now == old(now) && messages == old(messages) && allowlist == old(allowlist) && workflows == old(workflows)
      ensures teams == old(teams) && reviews == old(reviews) && agents == old(agents) && repos == old(repos)
    {
      if HasTask(id) {
        SetRow(id, tasks[id - 1].(currentStage := Some(stage), updatedAt := now));
      }
    }

    /** `SetTaskWorkflowAndStage`. */
    method SetTaskWorkflowAndStage(id: int, workflowId: string, stage: string)
      requires Valid()
      modifies this
      ensures Valid()
      ensures old(HasTask(id)) ==>
        tasks == old(tasks)[id - 1 := old(tasks)[id - 1].(workflowId := Some(workflowId), currentStage := Some(stage), updatedAt := now)]
      ensures !old(HasTask(id)) ==> tasks == old(tasks)
      ensures now == old(now) && messages == old(messages) && allowlist == old(allowlist) && workflows == old(workflows)
      ensures teams == old(teams) && reviews == old(reviews) && agents == old(agents) && repos == old(repos)
    {
      if HasTask(id) {
        SetRow(id, tasks[id - 1].(workflowId := Some(workflowId), currentStage := Some(stage), updatedAt := now));
      }
    }

    /**
     * `RewindTask`: back to todo with no assignee, at the workflow's initial
     * stage, or at no stage without a workflow.  A missing task, or a
     * workflow without an initial stage, is an error and changes nothing.
     */
    method RewindTask(team: string, id: int) returns (err: Error)
      requires Valid()
      modifies this
      ensures Valid()
      ensures !HasTeam(team) ==> err == Some(TeamNotFound(team)) && tasks == old(tasks)
      ensures HasTeam(team) && !old(HasTeamTask(team, id)) ==> err == Some("task not found") && tasks == old(tasks)
      ensures HasTeam(team) && old(HasTeamTask(team, id)) ==> err == RewindError(old(tasks)[id - 1])
      ensures err.None? ==> old(HasTeamTask(team, id)) && tasks == old(tasks)[id - 1 := Rewound(old(tasks)[id - 1])]
      ensures err.Some? ==> tasks == old(tasks)
      ensures now == old(now) && messages == old(messages) && allowlist == old(allowlist) && workflows == old(workflows)
      ensures teams == old(teams) && reviews == old(reviews) && agents == old(agents) && repos == old(repos)
    {
      var found := GetTaskByIDAndTeam(team, id);
      if found.Err? {
        return Some(found.error);
      }
      if found.value.None? {
        return Some("task not found");
      }
      var t := found.value.value;
      if t.workflowId.Some? && t.workflowId.value != "" {
        var initial := GetWorkflowInitialStage(t.workflowId.value);
        if initial.Err? {
          return Some(initial.error);
        }
        SetRow(id, t.(status := StatusTodo, assignee := None, currentStage := Some(initial.value), updatedAt := now));
        return None;
      }
      SetRow(id, t.(status := StatusTodo, assignee := None, currentStage := None, updatedAt := now));
      return None;
    }

    /** Why rewinding `t` fails: only a workflow without an initial stage. */
    function RewindError(t: Task): Error
      reads this
    {
      if t.workflowId.Some? && t.workflowId.value != "" && InitialStageOf(t.workflowId.value).Err?
      then Some(InitialStageOf(t.workflowId.value).error)
      else None
    }

    /** The rewound row: todo, unassigned, at the initial stage or at none. */
    function Rewound(t: Task): (r: Task)
      reads this
      ensures r.status == StatusTodo && r.assignee.None? && r.id == t.id && r.team == t.team && r.createdAt == t.createdAt
      ensures t.workflowId.None? || t.workflowId.value == "" ==> r.currentStage.None?
      ensures t.workflowId.Some? && t.workflowId.value != "" && InitialStageOf(t.workflowId.value).Ok? ==>
        r.currentStage == Some(InitialStageOf(t.workflowId.value).value)
    {
      var stage := if t.workflowId.Some? && t.workflowId.value != "" && InitialStageOf(t.workflowId.value).Ok?
                   then Some(InitialStageOf(t.workflowId.value).value) else None;
      t.(status := StatusTodo, assignee := None, currentStage := stage, updatedAt := now)
    }

    // ------------------------------------------------------------ task reads

    /**
     * `NextRunnableTaskForTeam`: a runnable task of the team with the oldest
     * update time, or none when the team has no runnable task.
     */
    method NextRunnableTaskForTeam(team: string) returns (r: Result<Option<Task>>)
      requires Valid()
      ensures r.Err? <==> !HasTeam(team)
      ensures r.Ok? && r.value.None? ==> forall k :: 0 <= k < |tasks| ==> !Runnable(tasks[k], team)
      ensures r.Ok? && r.value.Some? ==> r.value.value in tasks && Runnable(r.value.value, team)
      ensures r.Ok? && r.value.Some? ==>
        forall k :: 0 <= k < |tasks| && Runnable(tasks[k], team) ==> r.value.value.updatedAt <= tasks[k].updatedAt
    {
      if !HasTeam(team) {
        return Err(TeamNotFound(team));
      }
      var best: Option<Task> := None;
      var i := 0;
      while i < |tasks|
        invariant 0 <= i <= |tasks|
        invariant best.None? ==> forall k :: 0 <= k < i ==> !Runnable(tasks[k], team)
        invariant best.Some? ==> best.value in tasks[..i] && Runnable(best.value, team)
        invariant best.Some? ==> forall k :: 0 <= k < i && Runnable(tasks[k], team) ==> best.value.updatedAt <= tasks[k].updatedAt
      {
        if Runnable(tasks[i], team) && (best.None? || tasks[i].updatedAt < best.value.updatedAt) {
          best := Some(tasks[i]);
        }
        i := i + 1;
      }
      return Ok(best);
    }

    /** `ListTasks`: the team's tasks newest first, limited as the backend reads `limit`. */
    method ListTasks(team: string, limit: int) returns (r: Result<seq<Task>>)
      requires Valid()
      ensures r.Err? <==> !HasTeam(team)
      ensures r.Ok? ==> r.value == Take(TeamNewestFirst(tasks, team), TaskCap(backend, limit))
    {
      if !HasTeam(team) {
        return Err(TeamNotFound(team));
      }
      var cap := TaskCap(backend, limit);
      var out: seq<Task> := [];
      var i := |tasks|;
      while i > 0 && (cap.None? || |out| < cap.value)
        invariant 0 <= i <= |tasks|
        invariant out == TeamNewestFirst(tasks[i..], team)
        invariant cap.Some? ==> |out| <= cap.value
      {
        i := i - 1;
        assert tasks[i..][1..] == tasks[i + 1..];
        if tasks[i].team == team {
          out := out + [tasks[i]];
        }
      }
      TeamNewestFirstSplit(tasks, i, team);
      return Ok(out);
    }

    /**
     * `ListTasksInStage` with its limit: the team's tasks at `stage`.  The
     * order by update time is not modelled: the rows come in insertion order.
     */
    method ListTasksInStage(team: string, stage: string, limit: int) returns (r: Result<seq<Task>>)
      requires Valid()
      ensures r.Err? <==> !HasTeam(team)
      ensures r.Ok? ==> forall t :: t in r.value ==> t in tasks && t.team == team && t.currentStage == Some(stage)
      ensures r.Ok? && limit > 0 ==> |r.value| <= limit
      ensures r.Ok? && (limit <= 0 || |r.value| < limit) ==>
        forall k :: 0 <= k < |tasks| && tasks[k].team == team && tasks[k].currentStage == Some(stage) ==> tasks[k] in r.value
      ensures r.Ok? ==> r.value == StageListing(tasks, team, stage, limit)
    {
      if !HasTeam(team) {
        return Err(TeamNotFound(team));
      }
      var out: seq<Task> := [];
      var i := 0;
      while i < |tasks| && (limit <= 0 || |out| < limit)
        invariant 0 <= i <= |tasks|
        invariant out == AtStage(tasks[..i], team, stage)
        invariant limit > 0 ==> |out| <= limit
      {
        if tasks[i].team == team && tasks[i].currentStage == Some(stage) {
          out := out + [tasks[i]];
        }
        AtStageStep(tasks, i, team, stage);
        i := i + 1;
      }
      StageListingFound(tasks, i, team, stage, limit);
      assert forall k :: 0 <= k < |tasks| ==> tasks[k] in tasks;
      return Ok(out);
    }

    // -------------------------------------------------------------- workflows

    /**
     * `GetWorkflowInitialStage`: collects the targets of the forward
     * transitions, then scans the stages for the alphabetically first one
     * outside them.
     */
    method GetWorkflowInitialStage(id: string) returns (r: Result<string>)
      ensures r == InitialStageOf(id)
    {
      var stages := StagesOf(id);
      var targets := CollectTargets(ForwardEdges(EdgesOf(id)));
      var best := ScanLeast(stages, targets);
      if best.None? {
        return Err(NoInitialStage);
      }
      return Ok(best.value);
    }

    /** The `ORDER BY name LIMIT 1` scan over the stages outside `targets`. */
    static method ScanLeast(stages: seq<Stage>, targets: set<string>) returns (best: Option<string>)
      ensures best == LeastOutside(stages, targets)
    {
      best := None;
      var i := 0;
      while i < |stages|
        invariant 0 <= i <= |stages|
        invariant best.None? ==> forall k :: 0 <= k < i ==> stages[k].name in targets
        invariant best.Some? ==> LeastOutsideOf(stages[..i], targets, best.value)
      {
        var n := stages[i].name;
        if n !in targets && (best.None? || !LessEq(best.value, n)) {
          if best.Some? {
            LessEqTotal(best.value, n);
          }
          StageScanStep(stages, targets, i, best, n);
          best := Some(n);
        } else if n !in targets {
          StageScanKeep(stages, targets, i, best.value);
        } else {
          assert stages[..i + 1] == stages[..i] + [stages[i]];
        }
        i := i + 1;
      }
      assert stages[..|stages|] == stages;
      var expected := LeastOutside(stages, targets);
      if best.Some? {
        LeastOutsideUnique(stages, targets, best.value, expected.value);
      }
    }

    /** The `SELECT DISTINCT to_stage` scan. */
    static method CollectTargets(edges: seq<Edge>) returns (targets: set<string>)
      ensures targets == Targets(edges)
    {
      targets := {};
      var j := 0;
      while j < |edges|
        invariant 0 <= j <= |edges|
        invariant forall n :: n in targets <==> exists q :: 0 <= q < j && edges[q].to == n
      {
        targets := targets + {edges[j].to};
        j := j + 1;
      }
    }

    /** `GetWorkflowIDByTeamAndName`: the first matching workflow's id, or `""` when there is none. */
    method GetWorkflowIDByTeamAndName(team: string, name: string, version: int) returns (r: Result<string>)
      ensures r.Err? <==> !HasTeam(team)
      ensures r.Ok? ==> r.value == FirstWorkflowId(workflows, team, name, version)
    {
      if !HasTeam(team) {
        return Err(TeamNotFound(team));
      }
      var i := 0;
      while i < |workflows|
        invariant 0 <= i <= |workflows|
        invariant FirstWorkflowId(workflows, team, name, version) == FirstWorkflowId(workflows[i..], team, name, version)
      {
        assert workflows[i..][1..] == workflows[i + 1..];
        if workflows[i].id != "" && MatchesWorkflow(workflows[i], team, name, version) {
          return Ok(workflows[i].id);
        }
        i := i + 1;
      }
      return Ok("");
    }

    /**
     * `CreateWorkflow`: the team must exist and name, version and source path
     * be valid; `default` version 1 is seeded with the default stages and
     * transitions, any other workflow starts empty.  `id` stands for the
     * random id the store draws.
     */
    method CreateWorkflow(team: string, name: string, version: int, sourcePath: string, id: string) returns (r: Result<string>)
      requires Valid()
      requires id != "" && forall k :: 0 <= k < |workflows| ==> workflows[k].id != id
      modifies this
      ensures Valid()
      ensures r.Err? <==> !HasTeam(team) || name == "" || version <= 0 || sourcePath == ""
      ensures r.Err? ==> workflows == old(workflows)
      ensures r.Ok? ==> r.value == id && workflows == old(workflows) + [WorkflowRow(id, Workflow(team, name, version,
        if name == "default" && version == 1 then WorkflowTables.DefaultStages else [],
        if name == "default" && version == 1 then WorkflowTables.DefaultEdges else []))]
      ensures tasks == old(tasks) && now == old(now) && messages == old(messages) && allowlist == old(allowlist)
      ensures teams == old(teams) && reviews == old(reviews) && agents == old(agents) && repos == old(repos)
    {
      if !HasTeam(team) {
        return Err(TeamNotFound(team));
      }
      if name == "" {
        return Err("workflow name required");
      }
      if version <= 0 {
        return Err("workflow version must be > 0");
      }
      if sourcePath == "" {
        return Err("workflow source path required");
      }
      var w := Workflow(team, name, version, [], []);
      if name == "default" && version == 1 {
        w := w.(stages := WorkflowTables.DefaultStages, edges := WorkflowTables.DefaultEdges);
      }
      workflows := workflows + [WorkflowRow(id, w)];
      return Ok(id);
    }

    /** `CreateTaskReview`: the team must exist; the review row is recorded as given. */
    method CreateTaskReview(team: string, taskId: int, reviewer: string, outcome: string, comments: string) returns (err: Error)
      requires Valid()
      modifies this
      ensures Valid()
      ensures err.Some? <==> !HasTeam(team)
      ensures err.None? ==> reviews == old(reviews) + [Review(taskId, team, reviewer, outcome, comments, now)]
      ensures err.Some? ==> reviews == old(reviews)
      ensures tasks == old(tasks) && now == old(now) && messages == old(messages) && allowlist == old(allowlist)
      ensures teams == old(teams) && workflows == old(workflows) && agents == old(agents) && repos == old(repos)
    {
      if !HasTeam(team) {
        return Some(TeamNotFound(team));
      }
      reviews := reviews + [Review(taskId, team, reviewer, outcome, comments, now)];
      return None;
    }

    // -------------------------------------------------------------- allowlist

    /** `ResetAllowlist`. */
    method ResetAllowlist()
      requires Valid()
      modifies this
      ensures Valid() && allowlist == Reset()
      ensures tasks == old(tasks) && now == old(now) && messages == old(messages) && workflows == old(workflows)
      ensures teams == old(teams) && reviews == old(reviews) && agents == old(agents) && repos == old(repos)
    {
      allowlist := {};
      allowlist := allowlist + {Wildcard};
    }

    /** `AllowDomain`. */
    method AllowDomain(d: string) returns (err: Error)
      requires Valid()
      modifies this
      ensures Valid()
      ensures err.Some? <==> Allow(old(allowlist), d).Err?
      ensures err.None? ==> allowlist == Allow(old(allowlist), d).value
      ensures err.Some? ==> allowlist == old(allowlist)
      ensures tasks == old(tasks) && now == old(now) && messages == old(messages) && workflows == old(workflows)
      ensures teams == old(teams) && reviews == old(reviews) && agents == old(agents) && repos == old(repos)
    {
      AllowlistInvariant(allowlist, d);
      if d == "" {
        return Some("domain required");
      }
      if d == Wildcard {
        ResetAllowlist();
        return None;
      }
      allowlist := allowlist - {Wildcard};
      allowlist := allowlist + {d};
      return None;
    }

    /** `DisallowDomain`. */
    method DisallowDomain(d: string) returns (err: Error)
      requires Valid()
      modifies this
      ensures Valid()
      ensures err.Some? <==> Disallow(old(allowlist), d).Err?
      ensures err.None? ==> allowlist == Disallow(old(allowlist), d).value
      ensures err.Some? ==> allowlist == old(allowlist)
      ensures tasks == old(tasks) && now == old(now) && messages == old(messages) && workflows == old(workflows)
      ensures teams == old(teams) && reviews == old(reviews) && agents == old(agents) && repos == old(repos)
    {
      AllowlistInvariant(allowlist, d);
      if d == "" {
        return Some("domain required");
      }
      allowlist := allowlist - {d};
      if allowlist == {} {
        ResetAllowlist();
      }
      return None;
    }

    // --------------------------------------------------------------- messages

    /** `CreateMessage`: the team must exist; the message gets the next id and the current time. */
    method CreateMessage(team: string, sender: string, recipient: string, content: string) returns (id: int, err: Error)
      requires Valid()
      modifies this
      ensures Valid()
      ensures err.Some? <==> !HasTeam(team)
      ensures err.Some? ==> id == 0 && messages == old(messages)
      ensures err.None? ==> id == |old(messages)| + 1 && messages == old(messages) + [Message(id, team, sender, recipient, content, now)]
      ensures tasks == old(tasks) && now == old(now) && allowlist == old(allowlist) && workflows == old(workflows)
      ensures teams == old(teams) && reviews == old(reviews) && agents == old(agents) && repos == old(repos)
    {
      if !HasTeam(team) {
        return 0, Some(TeamNotFound(team));
      }
      id := |messages| + 1;
      messages := messages + [Message(id, team, sender, recipient, content, now)];
      return id, None;
    }

    /** `ListMessages`: the selected messages newest first, limited only by a positive limit. */
    method ListMessages(team: string, recipient: string, limit: int) returns (r: Result<seq<Message>>)
      requires Valid()
      ensures r.Err? <==> !HasTeam(team)
      ensures r.Ok? ==> r.value == Take(InboxNewestFirst(messages, team, recipient), MessageCap(limit))
    {
      if !HasTeam(team) {
        return Err(TeamNotFound(team));
      }
      var cap := MessageCap(limit);
      var out: seq<Message> := [];
      var i := |messages|;
      while i > 0 && (cap.None? || |out| < cap.value)
        invariant 0 <= i <= |messages|
        invariant out == InboxNewestFirst(messages[i..], team, recipient)
        invariant cap.Some? ==> |out| <= cap.value
      {
        i := i - 1;
        assert messages[i..][1..] == messages[i + 1..];
        if InInbox(messages[i], team, recipient) {
          out := out + [messages[i]];
        }
      }
      InboxNewestFirstSplit(messages, i, team, recipient);
      return Ok(out);
    }
  }

  predicate MatchesWorkflow(w: WorkflowRow, team: string, name: string, version: int) {
    w.def.team == team && w.def.name == name && w.def.version == version
  }

  const DefaultWorkflowName := "default"

  /** The id of the team's default workflow, version 1, when it has one. */
  function DefaultWorkflow(s: Store, team: string): (r: Option<string>)
    reads s
    ensures r.Some? ==> (s.HasTeam(team) && r.value != "" &&
      exists k :: 0 <= k < |s.workflows| && s.workflows[k].id == r.value && MatchesWorkflow(s.workflows[k], team, DefaultWorkflowName, 1))
    ensures r.None? && s.HasTeam(team) ==>
      forall k :: 0 <= k < |s.workflows| && s.workflows[k].id != "" ==> !MatchesWorkflow(s.workflows[k], team, DefaultWorkflowName, 1)
  {
    var w := FirstWorkflowId(s.workflows, team, DefaultWorkflowName, 1);
    if s.HasTeam(team) && w != "" then Some(w) else None
  }

  /** The id of the first row with a non-empty id naming the team's workflow `name` at `version`, `""` when none does. */
  function FirstWorkflowId(rows: seq<WorkflowRow>, team: string, name: string, version: int): (r: string)
    ensures r != "" ==> exists k :: 0 <= k < |rows| && rows[k].id == r && MatchesWorkflow(rows[k], team, name, version)
    ensures r == "" ==> forall k :: 0 <= k < |rows| && rows[k].id != "" ==> !MatchesWorkflow(rows[k], team, name, version)
  {
    if rows == [] then ""
    else if rows[0].id != "" && MatchesWorkflow(rows[0], team, name, version) then rows[0].id
    else
      var r := FirstWorkflowId(rows[1..], team, name, version);
      assert forall k :: 1 <= k < |rows| ==> rows[k] == rows[1..][k - 1];
      r
  }

  /** The definition of the first row with the given id. */
  function FindRow(rows: seq<WorkflowRow>, id: string): (r: Option<Workflow>)
    ensures r.None? <==> forall k :: 0 <= k < |rows| ==> rows[k].id != id
    ensures r.Some? ==> exists k :: 0 <= k < |rows| && rows[k].id == id && rows[k].def == r.value
  {
    if rows == [] then None
    else if rows[0].id == id then Some(rows[0].def)
    else
      assert forall k :: 1 <= k < |rows| ==> rows[k] == rows[1..][k - 1];
      FindRow(rows[1..], id)
  }

  /** One step of the stage scan: a stage outside the targets that sorts below the minimum so far replaces it. */
  lemma StageScanStep(stages: seq<Stage>, targets: set<string>, i: int, best: Option<string>, n: string)
    requires 0 <= i < |stages| && stages[i].name == n && n !in targets
    requires best.None? ==> forall k :: 0 <= k < i ==> stages[k].name in targets
    requires best.Some? ==> LeastOutsideOf(stages[..i], targets, best.value) && LessEq(n, best.value)
    ensures LeastOutsideOf(stages[..i + 1], targets, n)
  {
    var s := stages[..i + 1];
    assert s[i] == stages[i];
    forall k | 0 <= k < |s| && s[k].name !in targets
      ensures LessEq(n, s[k].name)
    {
      if k == i {
        LessEqTotal(n, n);
      } else {
        assert s[k] == stages[..i][k];
        LessEqTrans(n, best.value, s[k].name);
      }
    }
  }

  /** One step of the stage scan: a stage outside the targets that does not sort below the minimum leaves it. */
  lemma StageScanKeep(stages: seq<Stage>, targets: set<string>, i: int, m: string)
    requires 0 <= i < |stages| && stages[i].name !in targets
    requires LeastOutsideOf(stages[..i], targets, m) && LessEq(m, stages[i].name)
    ensures LeastOutsideOf(stages[..i + 1], targets, m)
  {
    var s := stages[..i + 1];
    assert forall k :: 0 <= k < i ==> s[k] == stages[..i][k];
    var w :| 0 <= w < i && stages[..i][w].name == m;
    assert s[w].name == m;
  }
}
