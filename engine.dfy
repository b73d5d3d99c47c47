/**
 * The workflow engine: one turn of a task at its current stage.  What a turn
 * does is specified by `PlanTurn`, a function from the task, the workflow's
 * stages and edges and the outcomes of the outside world (the agent runtime,
 * git) to the list of row updates the turn makes; `Engine.RunTurn` performs
 * those updates on the store one store call at a time.
 */
module Engine {
  import opened Wrappers
  import opened GoStrings
  import opened Models
  import opened StoreSpec
  import opened WorkflowTables
  import opened TaskStore
  import Git

  /** The outcome an agent turn reports when its output says nothing else. */
  const DoneOutcome := "done"
  /** The fixed output of the stub runtime. */
  const StubOutput := "stub: ok"
  const MergeFailedPrefix := "merge failed: "

  /** The request an agent runtime is given: team, agent, task id, the task title as input, and the allowlist. */
  datatype TurnRequest = TurnRequest(team: string, agent: string, taskId: int, input: string, allowlist: set<string>)

  /** One store write of a turn. */
  datatype Update =
    | Enter(workflowId: string, stage: string)   // SetTaskWorkflowAndStage
    | MoveTo(stage: string)                      // UpdateTaskStage
    | MarkDone                                   // UpdateTask(done, nil)
    | MarkFailed                                 // SetTaskFailed

  /** What a single update does to a row at clock `now`, exactly as the store method does it. */
  function Apply(t: Task, u: Update, now: int): Task {
    match u
    case Enter(w, s) => t.(workflowId := Some(w), currentStage := Some(s), updatedAt := now)
    case MoveTo(s) => t.(currentStage := Some(s), updatedAt := now)
    case MarkDone => Updated(t, StatusDone, None, now)
    case MarkFailed => Failed(t, now)
  }

  /** The updates applied in order. */
  function ApplyAll(t: Task, us: seq<Update>, now: int): Task
    decreases |us|
  {
    if us == [] then t else ApplyAll(Apply(t, us[0], now), us[1..], now)
  }

  /** Applying two lists of updates is applying their concatenation. */
  lemma {:induction false} ApplyAllConcat(t: Task, a: seq<Update>, b: seq<Update>, now: int)
    ensures ApplyAll(t, a + b, now) == ApplyAll(ApplyAll(t, a, now), b, now)
    decreases |a|
  {
    if a == [] {
      assert a + b == b;
    } else {
      assert (a + b)[0] == a[0];
      assert (a + b)[1..] == a[1..] + b;
      ApplyAllConcat(Apply(t, a[0], now), a[1..], b, now);
    }
  }

  lemma ApplyOne(t: Task, u: Update, now: int)
    ensures ApplyAll(t, [u], now) == Apply(t, u, now)
  {
  }

  lemma ApplyTwo(t: Task, u: Update, v: Update, now: int)
    ensures ApplyAll(t, [u, v], now) == Apply(Apply(t, u, now), v, now)
  {
    assert [u, v][1..] == [v];
    ApplyOne(Apply(t, u, now), v, now);
  }

  /** Two rounds of writes to the same row are one round of both. */
  lemma ChainRows(t0: seq<Task>, t1: seq<Task>, t2: seq<Task>, i: int, a: seq<Update>, b: seq<Update>, now: int)
    requires 0 <= i < |t0|
    requires t1 == t0[i := ApplyAll(t0[i], a, now)] && t2 == t1[i := ApplyAll(t1[i], b, now)]
    ensures t2 == t0[i := ApplyAll(t0[i], a + b, now)]
  {
    ApplyAllConcat(t0[i], a, b, now);
  }

  /** Updates never change which task a row is, nor its team or creation time. */
  lemma {:induction false} ApplyAllKeepsIdentity(t: Task, us: seq<Update>, now: int)
    ensures var r := ApplyAll(t, us, now); r.id == t.id && r.team == t.team && r.createdAt == t.createdAt
    decreases |us|
  {
    if us != [] {
      ApplyAllKeepsIdentity(Apply(t, us[0], now), us[1..], now);
    }
  }

  /**
   * The outcome of an agent turn: the trimmed output, with an empty output and
   * the stub runtime's output both read as `done`.
   */
  function OutcomeOf(output: string): (o: string)
    ensures o != ""
    ensures o == DoneOutcome <==> TrimSpace(output) == "" || TrimSpace(output) == DoneOutcome || TrimSpace(output) == StubOutput
    ensures o != DoneOutcome ==> o == TrimSpace(output)
  {
    var t := TrimSpace(output);
    if t == "" || t == StubOutput then DoneOutcome else t
  }

  /**
   * Landing after an outcome: the target of the first matching edge becomes
   * the stage, and a terminal target also marks the task done; no matching
   * edge, no update.
   */
  function Landing(stages: seq<Stage>, edges: seq<Edge>, from: string, outcome: string): seq<Update> {
    var next := Transition(edges, from, outcome);
    if next == "" then []
    else if IsTerminalStage(stages, next) then [MoveTo(next), MarkDone]
    else [MoveTo(next)]
  }

  /** The repository named by the task's repo name, if any: the first one in list order. */
  function NamedRepo(repos: seq<Repo>, name: Option<string>): (r: Option<Repo>)
    ensures r.None? <==> name.None? || forall k :: 0 <= k < |repos| ==> repos[k].name != name.value
    ensures r.Some? ==> r.value in repos && r.value.name == name.value
  {
    if name.None? || repos == [] then None
    else if repos[0].name == name.value then Some(repos[0])
    else NamedRepo(repos[1..], name)
  }

  /** The repository of a merge: the named one, else the team's first; none only for a team without repositories. */
  function ChooseRepo(repos: seq<Repo>, name: Option<string>): (r: Option<Repo>)
    ensures r.None? <==> repos == []
    ensures r.Some? ==> r.value in repos
    ensures NamedRepo(repos, name).None? && repos != [] ==> r == Some(repos[0])
  {
    match NamedRepo(repos, name)
    case Some(repo) => Some(repo)
    case None => if repos == [] then None else Some(repos[0])
  }

  /** The test-command gate of a merge: only a task with a worktree whose repository has a non-empty test command runs it. */
  function TestError(worktree: string, repo: Option<Repo>, git: Git.Invocation -> bool): (r: Error)
    ensures worktree == "" || repo.None? || OrEmpty(repo.value.testCmd) == "" ==> r.None?
    ensures worktree != "" && repo.Some? && OrEmpty(repo.value.testCmd) != "" ==>
      (r.None? <==> git(Git.Invocation(worktree, ["sh", "-c", repo.value.testCmd.value])))
  {
    if worktree == "" then None
    else match repo
      case None => None
      case Some(p) => if p.testCmd.Some? && p.testCmd.value != "" then Git.RunTestCmd(worktree, p.testCmd.value, git) else None
  }

  /** What dispatching on a found stage reports and writes. */
  datatype Step = Step(err: Error, updates: seq<Update>)

  /**
   * Dispatch on the stage's type: a terminal stage marks the task done; an
   * agent stage runs the runtime (`run` is its result) and lands on the
   * outcome, or marks the task failed on a runtime error; a human stage waits;
   * an auto stage lands on `done`; a merge stage gates on the test command
   * (failing marks the task failed), then on the merge (failing changes
   * nothing), then lands on `done`; any other type does nothing.
   */
  function Dispatch(task: Task, st: Stage, stages: seq<Stage>, edges: seq<Edge>, run: Result<string>,
                    repos: seq<Repo>, git: Git.Invocation -> bool): Step
  {
    if st.kind == StageTypeTerminal then Step(None, [MarkDone])
    else if st.kind == StageTypeAgent then
      if run.Err? then Step(Some(run.error), [MarkFailed])
      else Step(None, Landing(stages, edges, st.name, OutcomeOf(run.value)))
    else if st.kind == StageTypeHuman then Step(None, [])
    else if st.kind == StageTypeAuto then Step(None, Landing(stages, edges, st.name, DoneOutcome))
    else if st.kind == StageTypeMerge then
      var wt := OrEmpty(task.worktreePath);
      var test := TestError(wt, if wt == "" then None else ChooseRepo(repos, task.repoName), git);
      if test.Some? then Step(test, [MarkFailed])
      else
        var merge := Git.MergeInWorktree(wt, OrEmpty(task.branchName), git);
        if merge.Some? then Step(Some(MergeFailedPrefix + merge.value), [])
        else Step(None, Landing(stages, edges, st.name, DoneOutcome))
    else Step(None, [])
  }

  /** The result of a turn: whether the engine handled it, its error, and the writes it made. */
  datatype Turn = Turn(handled: bool, err: Error, updates: seq<Update>)

  /** The stage a turn dispatches on: the current one, else the workflow's initial stage. */
  function StartStage(t: Task, initial: Result<string>): string
    requires OrEmpty(t.currentStage) != "" || initial.Ok?
  {
    if OrEmpty(t.currentStage) != "" then t.currentStage.value else initial.value
  }

  /**
   * One turn: a task without a workflow is not handled.  A task without a
   * stage is first entered at the initial stage (whose absence is the turn's
   * error).  A stage name the workflow does not have is handled with no
   * write; otherwise the stage is dispatched on.
   */
  function PlanTurn(task: Task, stages: seq<Stage>, edges: seq<Edge>, initial: Result<string>, run: Result<string>,
                    repos: seq<Repo>, git: Git.Invocation -> bool): (r: Turn)
    ensures r.handled <==> HasWorkflow(task)
    ensures !r.handled ==> r.err.None? && r.updates == []
  {
    if !HasWorkflow(task) then Turn(false, None, [])
    else if OrEmpty(task.currentStage) == "" && initial.Err? then Turn(true, Some(initial.error), [])
    else
      var name := StartStage(task, initial);
      var entered := if OrEmpty(task.currentStage) == "" then [Enter(task.workflowId.value, name)] else [];
      match FindStage(stages, name)
      case None => Turn(true, None, entered)
      case Some(st) =>
        var step := Dispatch(task, st, stages, edges, run, repos, git);
        Turn(true, step.err, entered + step.updates)
  }

  /** The writes entering the start stage: one, for a task that had no stage. */
  function Entered(t: Task, initial: Result<string>): seq<Update>
    requires HasWorkflow(t) && (OrEmpty(t.currentStage) != "" || initial.Ok?)
  {
    if OrEmpty(t.currentStage) == "" then [Enter(t.workflowId.value, initial.value)] else []
  }

  /** The rows after entering the start stage and then dispatching on it are the rows after the whole turn. */
  lemma TurnRows(t0: seq<Task>, t1: seq<Task>, t2: seq<Task>, task: Task, stages: seq<Stage>, edges: seq<Edge>,
                 initial: Result<string>, run: Result<string>, repos: seq<Repo>, git: Git.Invocation -> bool, err: Error, now: int)
    requires HasWorkflow(task) && (OrEmpty(task.currentStage) != "" || initial.Ok?)
    requires 1 <= task.id <= |t0| ==> t1 == t0[task.id - 1 := ApplyAll(t0[task.id - 1], Entered(task, initial), now)]
    requires !(1 <= task.id <= |t0|) ==> t1 == t0
    requires FindStage(stages, StartStage(task, initial)).None? ==> err.None? && t2 == t1
    requires FindStage(stages, StartStage(task, initial)).Some? ==>
      var step := Dispatch(task, FindStage(stages, StartStage(task, initial)).value, stages, edges, run, repos, git);
      err == step.err &&
      (1 <= task.id <= |t1| ==> t2 == t1[task.id - 1 := ApplyAll(t1[task.id - 1], step.updates, now)]) &&
      (!(1 <= task.id <= |t1|) ==> t2 == t1)
    ensures var p := PlanTurn(task, stages, edges, initial, run, repos, git);
      p.handled && err == p.err &&
      (1 <= task.id <= |t0| ==> t2 == t0[task.id - 1 := ApplyAll(t0[task.id - 1], p.updates, now)]) &&
      (!(1 <= task.id <= |t0|) ==> t2 == t0)
  {
    match FindStage(stages, StartStage(task, initial))
    case None =>
    case Some(st) =>
      PlanDispatches(task, stages, edges, initial, run, repos, git, st);
      if 1 <= task.id <= |t0| {
        ChainRows(t0, t1, t2, task.id - 1, Entered(task, initial), Dispatch(task, st, stages, edges, run, repos, git).updates, now);
      }
  }

  /** A turn at a found stage is the entering writes followed by the dispatch. */
  lemma PlanDispatches(task: Task, stages: seq<Stage>, edges: seq<Edge>, initial: Result<string>, run: Result<string>,
                       repos: seq<Repo>, git: Git.Invocation -> bool, st: Stage)
    requires HasWorkflow(task) && (OrEmpty(task.currentStage) != "" || initial.Ok?)
    requires FindStage(stages, StartStage(task, initial)) == Some(st)
    ensures var step := Dispatch(task, st, stages, edges, run, repos, git);
      PlanTurn(task, stages, edges, initial, run, repos, git) == Turn(true, step.err, Entered(task, initial) + step.updates)
  {
  }

  // ------------------------------------------------------------------ properties

  /** An edge target is reachable from `from` by some outcome. */
  ghost predicate Reachable(edges: seq<Edge>, from: string, to: string) {
    exists o :: NextStage(edges, from, o) == Some(to)
  }

  /** Landing moves only along a matching edge, marks done only at a terminal stage, and never fails the task. */
  lemma LandingFacts(t: Task, stages: seq<Stage>, edges: seq<Edge>, from: string, outcome: string, now: int)
    ensures var r := ApplyAll(t, Landing(stages, edges, from, outcome), now);
      (r.currentStage != t.currentStage ==> r.currentStage.Some? && NextStage(edges, from, outcome) == Some(r.currentStage.value)) &&
      (r.status != t.status ==> r.status == StatusDone && IsTerminalStage(stages, OrEmpty(r.currentStage))) &&
      r.attemptCount == t.attemptCount && r.workflowId == t.workflowId
  {
    var next := Transition(edges, from, outcome);
    if next != "" {
      assert NextStage(edges, from, outcome) == Some(next);
      if IsTerminalStage(stages, next) {
        ApplyTwo(t, MoveTo(next), MarkDone, now);
      } else {
        ApplyOne(t, MoveTo(next), now);
      }
    }
  }

  /**
   * Dispatching on a found stage from a row at that stage: the stage only
   * changes along an edge, and the status only to `done` at a terminal stage
   * or to `failed` together with an error.
   */
  lemma DispatchMovesAlongEdges(task: Task, st: Stage, stages: seq<Stage>, edges: seq<Edge>, run: Result<string>,
                                repos: seq<Repo>, git: Git.Invocation -> bool, e: Task, now: int)
    requires st in stages && e.currentStage == Some(st.name)
    ensures var step := Dispatch(task, st, stages, edges, run, repos, git);
      var r := ApplyAll(e, step.updates, now);
      (r.currentStage != e.currentStage ==> r.currentStage.Some? && Reachable(edges, st.name, r.currentStage.value)) &&
      (r.status != e.status ==> (r.status == StatusDone && IsTerminalStage(stages, OrEmpty(r.currentStage))) ||
                                (r.status == StatusFailed && step.err.Some?))
  {
    var step := Dispatch(task, st, stages, edges, run, repos, git);
    if step.updates == [MarkDone] {
      ApplyOne(e, MarkDone, now);
      assert IsTerminalStage(stages, st.name) by {
        var k :| 0 <= k < |stages| && stages[k] == st;
      }
    } else if step.updates == [MarkFailed] {
      ApplyOne(e, MarkFailed, now);
    } else if step.updates != [] {
      var o := if st.kind == StageTypeAgent then OutcomeOf(run.value) else DoneOutcome;
      assert step.updates == Landing(stages, edges, st.name, o);
      LandingFacts(e, stages, edges, st.name, o, now);
    }
  }

  /**
   * Where a handled turn leaves the row it started from: the stage only
   * changes to the start stage or to a stage reachable from it along an edge,
   * and the status only changes to `done` at a terminal stage or to `failed`,
   * the latter always with an error.
   */
  lemma TurnMovesAlongEdges(task: Task, stages: seq<Stage>, edges: seq<Edge>, initial: Result<string>, run: Result<string>,
                            repos: seq<Repo>, git: Git.Invocation -> bool, row: Task, now: int)
    requires row.currentStage == task.currentStage
    ensures var p := PlanTurn(task, stages, edges, initial, run, repos, git);
      var r := ApplyAll(row, p.updates, now);
      (r.currentStage != row.currentStage ==>
         r.currentStage.Some? &&
         (r.currentStage.value == StartStage(task, initial) || Reachable(edges, StartStage(task, initial), r.currentStage.value))) &&
      (r.status != row.status ==> (r.status == StatusDone && IsTerminalStage(stages, OrEmpty(r.currentStage))) ||
                                  (r.status == StatusFailed && p.err.Some?))
  {
    if !HasWorkflow(task) || (OrEmpty(task.currentStage) == "" && initial.Err?) {
      return;
    }
    var name := StartStage(task, initial);
    var entered := if OrEmpty(task.currentStage) == "" then [Enter(task.workflowId.value, name)] else [];
    var e := ApplyAll(row, entered, now);
    if entered != [] {
      ApplyOne(row, entered[0], now);
    }
    match FindStage(stages, name)
    case None =>
    case Some(st) =>
      var step := Dispatch(task, st, stages, edges, run, repos, git);
      assert PlanTurn(task, stages, edges, initial, run, repos, git).updates == entered + step.updates;
      ApplyAllConcat(row, entered, step.updates, now);
      DispatchMovesAlongEdges(task, st, stages, edges, run, repos, git, e, now);
  }

  /** A turn without a workflow, or at a stage the workflow lacks, writes nothing. */
  lemma UnknownStageWritesNothing(task: Task, stages: seq<Stage>, edges: seq<Edge>, initial: Result<string>, run: Result<string>,
                                  repos: seq<Repo>, git: Git.Invocation -> bool)
    requires HasWorkflow(task) && OrEmpty(task.currentStage) != ""
    requires FindStage(stages, task.currentStage.value).None?
    ensures PlanTurn(task, stages, edges, initial, run, repos, git) == Turn(true, None, [])
  {
  }

  /** A task without a stage is first entered at the initial stage, in its workflow, before anything else is written. */
  lemma TurnEntersInitialStage(task: Task, stages: seq<Stage>, edges: seq<Edge>, initial: Result<string>, run: Result<string>,
                               repos: seq<Repo>, git: Git.Invocation -> bool)
    requires HasWorkflow(task) && OrEmpty(task.currentStage) == ""
    ensures var p := PlanTurn(task, stages, edges, initial, run, repos, git);
      (initial.Err? ==> p == Turn(true, Some(initial.error), [])) &&
      (initial.Ok? ==> |p.updates| >= 1 && p.updates[0] == Enter(task.workflowId.value, initial.value))
  {
  }

  /** A terminal stage marks the task done and does nothing else. */
  lemma TerminalStageMarksDone(task: Task, stages: seq<Stage>, edges: seq<Edge>, initial: Result<string>, run: Result<string>,
                               repos: seq<Repo>, git: Git.Invocation -> bool, now: int)
    requires HasWorkflow(task) && OrEmpty(task.currentStage) != ""
    requires IsTerminalStage(stages, task.currentStage.value) && FindStage(stages, task.currentStage.value).value.kind == StageTypeTerminal
    ensures var p := PlanTurn(task, stages, edges, initial, run, repos, git);
      p == Turn(true, None, [MarkDone]) && ApplyAll(task, p.updates, now).status == StatusDone
  {
    ApplyOne(task, MarkDone, now);
  }

  /** A runtime error at an agent stage fails the task (one more attempt) and is the turn's error. */
  lemma RuntimeErrorFailsTask(task: Task, stages: seq<Stage>, edges: seq<Edge>, initial: Result<string>, run: Result<string>,
                              repos: seq<Repo>, git: Git.Invocation -> bool, now: int)
    requires HasWorkflow(task) && OrEmpty(task.currentStage) != "" && run.Err?
    requires FindStage(stages, task.currentStage.value).Some? && FindStage(stages, task.currentStage.value).value.kind == StageTypeAgent
    ensures var p := PlanTurn(task, stages, edges, initial, run, repos, git);
      var r := ApplyAll(task, p.updates, now);
      p.err == Some(run.error) && r.status == StatusFailed && r.attemptCount == task.attemptCount + 1 && r.currentStage == task.currentStage
  {
    ApplyOne(task, MarkFailed, now);
  }

  /** A human stage writes nothing beyond entering the initial stage. */
  lemma HumanStageWaits(task: Task, stages: seq<Stage>, edges: seq<Edge>, initial: Result<string>, run: Result<string>,
                        repos: seq<Repo>, git: Git.Invocation -> bool)
    requires HasWorkflow(task) && (OrEmpty(task.currentStage) != "" || initial.Ok?)
    requires FindStage(stages, StartStage(task, initial)).Some? && FindStage(stages, StartStage(task, initial)).value.kind == StageTypeHuman
    ensures var p := PlanTurn(task, stages, edges, initial, run, repos, git);
      p.err.None? && forall u :: u in p.updates ==> u.Enter?
  {
  }

  /** A failing merge is the turn's error, prefixed, and leaves the row as it was. */
  lemma MergeFailureKeepsRow(task: Task, stages: seq<Stage>, edges: seq<Edge>, initial: Result<string>, run: Result<string>,
                             repos: seq<Repo>, git: Git.Invocation -> bool)
    requires HasWorkflow(task) && OrEmpty(task.currentStage) != ""
    requires FindStage(stages, task.currentStage.value).Some? && FindStage(stages, task.currentStage.value).value.kind == StageTypeMerge
    requires OrEmpty(task.worktreePath) != "" && OrEmpty(task.branchName) != ""
    requires TestError(task.worktreePath.value, ChooseRepo(repos, task.repoName), git).None?
    requires Git.MergeInWorktree(task.worktreePath.value, task.branchName.value, git).Some?
    ensures var p := PlanTurn(task, stages, edges, initial, run, repos, git);
      p == Turn(true, Some(MergeFailedPrefix + Git.MergeInWorktree(task.worktreePath.value, task.branchName.value, git).value), [])
  {
  }

  /** The engine over a store; the home directory only matters for agent configuration and journals. */
  class Engine {
    const store: Store
    const home: string

    constructor(s: Store, h: string)
      ensures store == s && home == h
    {
      store := s;
      home := h;
    }

    /** The runtime request of a task's agent turn. */
    function Request(team: string, task: Task): TurnRequest
      reads store
    {
      TurnRequest(team, OrEmpty(task.assignee), task.id, task.title, store.allowlist)
    }

    /** The turn for `task` against the store's workflow tables and repositories. */
    function Plan(team: string, task: Task, runtime: TurnRequest -> Result<string>, git: Git.Invocation -> bool): Turn
      reads store
    {
      var wf := OrEmpty(task.workflowId);
      PlanTurn(task, store.StagesOf(wf), store.EdgesOf(wf), store.InitialStageOf(wf), runtime(Request(team, task)),
               store.ReposOf(team), git)
    }

    /**
     * `RunTurn`: performs the planned writes on the task's row, through the
     * store's own operations, and reports whether the turn was handled and
     * its error.
     */
    method RunTurn(team: string, task: Task, runtime: TurnRequest -> Result<string>, git: Git.Invocation -> bool)
      returns (handled: bool, err: Error)
      requires store.Valid()
      modifies store
      ensures store.Valid()
      ensures handled == old(Plan(team, task, runtime, git)).handled && err == old(Plan(team, task, runtime, git)).err
      ensures old(store.HasTask(task.id)) ==>
        store.tasks == old(store.tasks)[task.id - 1 := ApplyAll(old(store.tasks)[task.id - 1], old(Plan(team, task, runtime, git)).updates, old(store.now))]
      ensures !old(store.HasTask(task.id)) ==> store.tasks == old(store.tasks)
      ensures store.now == old(store.now) && store.messages == old(store.messages) && store.allowlist == old(store.allowlist)
      ensures store.workflows == old(store.workflows) && store.teams == old(store.teams) && store.reviews == old(store.reviews)
      ensures store.agents == old(store.agents) && store.repos == old(store.repos)
    {
      if task.workflowId.None? || task.workflowId.value == "" {
        return false, None;
      }
      var wf := task.workflowId.value;
      assert Plan(team, task, runtime, git) ==
        PlanTurn(task, store.StagesOf(wf), store.EdgesOf(wf), store.InitialStageOf(wf), runtime(Request(team, task)), store.ReposOf(team), git);
      handled := true;
      err := RunInWorkflow(team, task, wf, runtime, git);
    }

    /** `RunTurn` for a task with a workflow: the writes and the error `PlanTurn` gives. */
    method RunInWorkflow(team: string, task: Task, wf: string, runtime: TurnRequest -> Result<string>, git: Git.Invocation -> bool)
      returns (err: Error)
      requires store.Valid() && HasWorkflow(task) && wf == task.workflowId.value
      modifies store
      ensures store.Valid()
      ensures var p := PlanTurn(task, old(store.StagesOf(wf)), old(store.EdgesOf(wf)), old(store.InitialStageOf(wf)), runtime(Request(team, task)),
                                old(store.ReposOf(team)), git);
        p.handled && err == p.err &&
        (old(store.HasTask(task.id)) ==> store.tasks == old(store.tasks)[task.id - 1 := ApplyAll(old(store.tasks)[task.id - 1], p.updates, old(store.now))]) &&
        (!old(store.HasTask(task.id)) ==> store.tasks == old(store.tasks))
      ensures store.now == old(store.now) && store.messages == old(store.messages) && store.allowlist == old(store.allowlist)
      ensures store.workflows == old(store.workflows) && store.teams == old(store.teams) && store.reviews == old(store.reviews)
      ensures store.agents == old(store.agents) && store.repos == old(store.repos)
    {
      ghost var stages := store.StagesOf(wf);
      ghost var edges := store.EdgesOf(wf);
      ghost var repos := store.ReposOf(team);
      ghost var run := runtime(Request(team, task));
      ghost var initial0 := store.InitialStageOf(wf);
      ghost var t0 := store.tasks;
      var start := EnterStart(task, wf);
      if start.Err? {
        return Some(start.error);
      }
      assert store.StagesOf(wf) == stages && store.EdgesOf(wf) == edges && store.ReposOf(team) == repos;
      assert runtime(Request(team, task)) == run;
      ghost var t1 := store.tasks;
      err := DispatchAt(team, task, wf, start.value, runtime, git, stages, edges, repos, run);
      TurnRows(t0, t1, store.tasks, task, stages, edges, initial0, run, repos, git, err, store.now);
    }

    /**
     * Resolving the stage to dispatch on: the current one, else the
     * workflow's initial stage, which is then stored with the workflow id.
     */
    method EnterStart(task: Task, wf: string) returns (r: Result<string>)
      requires store.Valid() && HasWorkflow(task) && wf == task.workflowId.value
      modifies store
      ensures store.Valid()
      ensures r == (if OrEmpty(task.currentStage) != "" then Ok(task.currentStage.value) else old(store.InitialStageOf(wf)))
      ensures r.Ok? ==> r.value == StartStage(task, old(store.InitialStageOf(wf)))
      ensures r.Ok? && old(store.HasTask(task.id)) ==>
        store.tasks == old(store.tasks)[task.id - 1 := ApplyAll(old(store.tasks)[task.id - 1], Entered(task, old(store.InitialStageOf(wf))), old(store.now))]
      ensures r.Err? || !old(store.HasTask(task.id)) ==> store.tasks == old(store.tasks)
      ensures store.now == old(store.now) && store.messages == old(store.messages) && store.allowlist == old(store.allowlist)
      ensures store.workflows == old(store.workflows) && store.teams == old(store.teams) && store.reviews == old(store.reviews)
      ensures store.agents == old(store.agents) && store.repos == old(store.repos)
    {
      var name := OrEmpty(task.currentStage);
      if name != "" {
        return Ok(name);
      }
      var initial := store.GetWorkflowInitialStage(wf);
      if initial.Err? {
        return initial;
      }
      store.SetTaskWorkflowAndStage(task.id, wf, initial.value);
      if old(store.HasTask(task.id)) {
        ApplyOne(old(store.tasks)[task.id - 1], Enter(wf, initial.value), store.now);
      }
      return initial;
    }

    /** Looking the stage up and dispatching on it; a stage the workflow lacks is left alone. */
    method DispatchAt(team: string, task: Task, wf: string, name: string, runtime: TurnRequest -> Result<string>, git: Git.Invocation -> bool,
                      ghost stages: seq<Stage>, ghost edges: seq<Edge>, ghost repos: seq<Repo>, ghost run: Result<string>)
      returns (err: Error)
      requires store.Valid()
      requires stages == store.StagesOf(wf) && edges == store.EdgesOf(wf) && repos == store.ReposOf(team)
      requires run == runtime(Request(team, task))
      modifies store
      ensures store.Valid()
      ensures FindStage(stages, name).None? ==> err.None? && store.tasks == old(store.tasks)
      ensures FindStage(stages, name).Some? ==>
        var step := Dispatch(task, FindStage(stages, name).value, stages, edges, run, repos, git);
        err == step.err &&
        (old(store.HasTask(task.id)) ==> store.tasks == old(store.tasks)[task.id - 1 := ApplyAll(old(store.tasks)[task.id - 1], step.updates, old(store.now))]) &&
        (!old(store.HasTask(task.id)) ==> store.tasks == old(store.tasks))
      ensures store.now == old(store.now) && store.messages == old(store.messages) && store.allowlist == old(store.allowlist)
      ensures store.workflows == old(store.workflows) && store.teams == old(store.teams) && store.reviews == old(store.reviews)
      ensures store.agents == old(store.agents) && store.repos == old(store.repos)
    {
      var stage := LookupStage(store.StagesOf(wf), name);
      if stage.None? {
        return None;
      }
      err := Perform(team, task, wf, stage.value, runtime, git, stages, edges, repos, run);
    }

    /** Dispatch on a found stage, writing the task's row. */
    method Perform(team: string, task: Task, wf: string, st: Stage, runtime: TurnRequest -> Result<string>, git: Git.Invocation -> bool,
                   ghost stages: seq<Stage>, ghost edges: seq<Edge>, ghost repos: seq<Repo>, ghost run: Result<string>)
      returns (err: Error)
      requires store.Valid()
      requires stages == store.StagesOf(wf) && edges == store.EdgesOf(wf) && repos == store.ReposOf(team)
      requires run == runtime(Request(team, task))
      modifies store
      ensures store.Valid()
      ensures err == Dispatch(task, st, stages, edges, run, repos, git).err
      ensures old(store.HasTask(task.id)) ==>
        store.tasks == old(store.tasks)[task.id - 1 := ApplyAll(old(store.tasks)[task.id - 1], Dispatch(task, st, stages, edges, run, repos, git).updates, old(store.now))]
      ensures !old(store.HasTask(task.id)) ==> store.tasks == old(store.tasks)
      ensures store.now == old(store.now) && store.messages == old(store.messages) && store.allowlist == old(store.allowlist)
      ensures store.workflows == old(store.workflows) && store.teams == old(store.teams) && store.reviews == old(store.reviews)
      ensures store.agents == old(store.agents) && store.repos == old(store.repos)
    {
      if st.kind == StageTypeTerminal {
        store.UpdateTask(task.id, StatusDone, None);
        if old(store.HasTask(task.id)) {
          ApplyOne(old(store.tasks)[task.id - 1], MarkDone, store.now);
        }
        return None;
      } else if st.kind == StageTypeAgent {
        err := RunAgent(team, task, wf, st, runtime, stages, edges, run);
        return err;
      } else if st.kind == StageTypeHuman {
        return None;
      } else if st.kind == StageTypeAuto {
        Land(task.id, wf, st.name, DoneOutcome, stages, edges);
        return None;
      } else if st.kind == StageTypeMerge {
        err := RunMerge(team, task, wf, st, git, stages, edges, repos);
        return err;
      }
      return None;
    }

    /** The agent stage: one runtime turn, then landing on its outcome; a runtime error fails the task. */
    method RunAgent(team: string, task: Task, wf: string, st: Stage, runtime: TurnRequest -> Result<string>,
                    ghost stages: seq<Stage>, ghost edges: seq<Edge>, ghost run: Result<string>)
      returns (err: Error)
      requires store.Valid() && st.kind == StageTypeAgent
      requires stages == store.StagesOf(wf) && edges == store.EdgesOf(wf)
      requires run == runtime(Request(team, task))
      modifies store
      ensures store.Valid()
      ensures var step := if run.Err? then Step(Some(run.error), [MarkFailed]) else Step(None, Landing(stages, edges, st.name, OutcomeOf(run.value)));
        err == step.err &&
        (old(store.HasTask(task.id)) ==> store.tasks == old(store.tasks)[task.id - 1 := ApplyAll(old(store.tasks)[task.id - 1], step.updates, old(store.now))])
      ensures !old(store.HasTask(task.id)) ==> store.tasks == old(store.tasks)
      ensures store.now == old(store.now) && store.messages == old(store.messages) && store.allowlist == old(store.allowlist)
      ensures store.workflows == old(store.workflows) && store.teams == old(store.teams) && store.reviews == old(store.reviews)
      ensures store.agents == old(store.agents) && store.repos == old(store.repos)
    {
      var res := runtime(Request(team, task));
      if res.Err? {
        store.SetTaskFailed(task.id);
        if old(store.HasTask(task.id)) {
          ApplyOne(old(store.tasks)[task.id - 1], MarkFailed, store.now);
        }
        return Some(res.error);
      }
      var outcome := OutcomeOf(res.value);
      // The journal entry appended after a successful turn is outside the model.
      Land(task.id, wf, st.name, outcome, stages, edges);
      return None;
    }

    /** The merge stage: the test command gate, then the merge, then landing on `done`. */
    method RunMerge(team: string, task: Task, wf: string, st: Stage, git: Git.Invocation -> bool,
                    ghost stages: seq<Stage>, ghost edges: seq<Edge>, ghost repos: seq<Repo>)
      returns (err: Error)
      requires store.Valid() && st.kind == StageTypeMerge
      requires stages == store.StagesOf(wf) && edges == store.EdgesOf(wf) && repos == store.ReposOf(team)
      modifies store
      ensures store.Valid()
      ensures var wt := OrEmpty(task.worktreePath);
        var test := TestError(wt, if wt == "" then None else ChooseRepo(repos, task.repoName), git);
        var merge := Git.MergeInWorktree(wt, OrEmpty(task.branchName), git);
        var step := if test.Some? then Step(test, [MarkFailed])
                    else if merge.Some? then Step(Some(MergeFailedPrefix + merge.value), [])
                    else Step(None, Landing(stages, edges, st.name, DoneOutcome));
        err == step.err &&
        (old(store.HasTask(task.id)) ==> store.tasks == old(store.tasks)[task.id - 1 := ApplyAll(old(store.tasks)[task.id - 1], step.updates, old(store.now))])
      ensures !old(store.HasTask(task.id)) ==> store.tasks == old(store.tasks)
      ensures store.now == old(store.now) && store.messages == old(store.messages) && store.allowlist == old(store.allowlist)
      ensures store.workflows == old(store.workflows) && store.teams == old(store.teams) && store.reviews == old(store.reviews)
      ensures store.agents == old(store.agents) && store.repos == old(store.repos)
    {
      var wt := OrEmpty(task.worktreePath);
      var e := TestGate(team, task, git, repos);
      if e.Some? {
        return e;
      }
      var br := OrEmpty(task.branchName);
      if wt != "" && br != "" {
        var m := Git.MergeInWorktree(wt, br, git);
        if m.Some? {
          return Some(MergeFailedPrefix + m.value);
        }
      }
      Land(task.id, wf, st.name, DoneOutcome, stages, edges);
      return None;
    }

    /** The test command gate of a merge: a failing test command marks the task failed and is the error. */
    method TestGate(team: string, task: Task, git: Git.Invocation -> bool, ghost repos: seq<Repo>) returns (e: Error)
      requires store.Valid() && repos == store.ReposOf(team)
      modifies store
      ensures store.Valid()
      ensures var wt := OrEmpty(task.worktreePath);
        e == TestError(wt, if wt == "" then None else ChooseRepo(repos, task.repoName), git)
      ensures e.Some? && old(store.HasTask(task.id)) ==>
        store.tasks == old(store.tasks)[task.id - 1 := ApplyAll(old(store.tasks)[task.id - 1], [MarkFailed], old(store.now))]
      ensures e.None? || !old(store.HasTask(task.id)) ==> store.tasks == old(store.tasks)
      ensures store.now == old(store.now) && store.messages == old(store.messages) && store.allowlist == old(store.allowlist)
      ensures store.workflows == old(store.workflows) && store.teams == old(store.teams) && store.reviews == old(store.reviews)
      ensures store.agents == old(store.agents) && store.repos == old(store.repos)
    {
      var wt := OrEmpty(task.worktreePath);
      if wt == "" {
        return None;
      }
      var picked := PickRepo(store.ReposOf(team), task.repoName);
      if picked.Some? && picked.value.testCmd.Some? && picked.value.testCmd.value != "" {
        e := Git.RunTestCmd(wt, picked.value.testCmd.value, git);
        if e.Some? {
          store.SetTaskFailed(task.id);
          if old(store.HasTask(task.id)) {
            ApplyOne(old(store.tasks)[task.id - 1], MarkFailed, store.now);
          }
        }
      } else {
        e := None;
      }
    }

    /** After an outcome: move to the first matching edge's target, and mark the task done if that stage is terminal. */
    method Land(id: int, wf: string, from: string, outcome: string, ghost stages: seq<Stage>, ghost edges: seq<Edge>)
      requires store.Valid()
      requires stages == store.StagesOf(wf) && edges == store.EdgesOf(wf)
      modifies store
      ensures store.Valid()
      ensures old(store.HasTask(id)) ==>
        store.tasks == old(store.tasks)[id - 1 := ApplyAll(old(store.tasks)[id - 1], Landing(stages, edges, from, outcome), old(store.now))]
      ensures !old(store.HasTask(id)) ==> store.tasks == old(store.tasks)
      ensures store.now == old(store.now) && store.messages == old(store.messages) && store.allowlist == old(store.allowlist)
      ensures store.workflows == old(store.workflows) && store.teams == old(store.teams) && store.reviews == old(store.reviews)
      ensures store.agents == old(store.agents) && store.repos == old(store.repos)
    {
      var next := Transition(store.EdgesOf(wf), from, outcome);
      if next != "" {
        store.UpdateTaskStage(id, next);
        assert store.StagesOf(wf) == stages;
        if IsTerminalStage(store.StagesOf(wf), next) {
          store.UpdateTask(id, StatusDone, None);
          if old(store.HasTask(id)) {
            ApplyTwo(old(store.tasks)[id - 1], MoveTo(next), MarkDone, store.now);
          }
        } else if old(store.HasTask(id)) {
          ApplyOne(old(store.tasks)[id - 1], MoveTo(next), store.now);
        }
      }
    }
  }

  /** The engine's scan for the stage with the given name. */
  method LookupStage(stages: seq<Stage>, name: string) returns (r: Option<Stage>)
    ensures r == FindStage(stages, name)
  {
    var i := 0;
    while i < |stages|
      invariant 0 <= i <= |stages|
      invariant FindStage(stages, name) == FindStage(stages[i..], name)
    {
      assert stages[i..][1..] == stages[i + 1..];
      if stages[i].name == name {
        return Some(stages[i]);
      }
      i := i + 1;
    }
    return None;
  }

  /** The scan for the task's repository: the one it names, else the first. */
  method PickRepo(repos: seq<Repo>, name: Option<string>) returns (r: Option<Repo>)
    ensures r == ChooseRepo(repos, name)
  {
    var i := 0;
    while i < |repos|
      invariant 0 <= i <= |repos|
      invariant NamedRepo(repos, name) == NamedRepo(repos[i..], name)
    {
      assert repos[i..][1..] == repos[i + 1..];
      if name.Some? && repos[i].name == name.value {
        return Some(repos[i]);
      }
      i := i + 1;
    }
    if |repos| > 0 {
      return Some(repos[0]);
    }
    return None;
  }
}
