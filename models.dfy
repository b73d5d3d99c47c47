/** Shared constants and records: task statuses, roles, stage types, list limits, and the store's rows. */
module Models {
  import opened Wrappers

  const StatusTodo := "todo"
  const StatusInProgress := "in_progress"
  const StatusInReview := "in_review"
  const StatusInApproval := "in_approval"
  const StatusMerging := "merging"
  const StatusDone := "done"
  const StatusFailed := "failed"
  const StatusCancelled := "cancelled"

  const RoleEngineer := "engineer"
  const RoleManager := "manager"

  const StageTypeAgent := "agent"
  const StageTypeHuman := "human"
  const StageTypeAuto := "auto"
  const StageTypeTerminal := "terminal"
  const StageTypeMerge := "merge"

  const DefaultTaskListLimit := 1000
  const DefaultMessageListLimit := 500
  const DefaultMCPTaskLimit := 500
  const DefaultMCPMessageLimit := 100
  const DefaultSchedulerChanSize := 32

  /** A row of the tasks table; times are ticks of an abstract clock. */
  datatype Task = Task(
    id: int,
    team: string,
    title: string,
    status: string,
    assignee: Option<string>,
    dri: Option<string>,
    attemptCount: int,
    workflowId: Option<string>,
    currentStage: Option<string>,
    worktreePath: Option<string>,
    branchName: Option<string>,
    baseSha: Option<string>,
    repoName: Option<string>,
    createdAt: int,
    updatedAt: int)

  /** A stage of a workflow: its name, its type, its comma-separated outcomes and candidate agents. */
  datatype Stage = Stage(name: string, kind: string, outcomes: string, candidates: string)

  /** A workflow edge `(from, outcome) -> to`. */
  datatype Edge = Edge(from: string, outcome: string, to: string)

  /** A workflow definition of a team, with its stages and edges. */
  datatype Workflow = Workflow(team: string, name: string, version: int, stages: seq<Stage>, edges: seq<Edge>)

  datatype Agent = Agent(name: string, role: string)

  datatype Repo = Repo(name: string, testCmd: Option<string>)

  datatype Message = Message(id: int, team: string, sender: string, recipient: string, content: string, createdAt: int)

  /** A task with a non-empty workflow id. */
  predicate HasWorkflow(t: Task) {
    t.workflowId.Some? && t.workflowId.value != ""
  }

  /** The value of an optional text column, `""` when it is NULL. */
  function OrEmpty(o: Option<string>): string {
    if o.Some? then o.value else ""
  }
}
