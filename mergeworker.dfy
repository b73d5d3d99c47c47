/**
 * The merge worker: each round it takes the tasks of every team that sit in
 * the `Merging` stage and, for each, rebases its branch (when asked to),
 * runs its repository's test command, merges the branch, and then moves the
 * task to `Done`, marks it done and forgets its git fields.  Any failing git
 * step marks the task failed and stops there.  Git is a parameter: `run(inv)`
 * says whether a command succeeds.
 */
module MergeWorker {
  import opened Wrappers
  import opened Models
  import opened StoreSpec
  import opened TaskStore
  import Git
  import Engine

  /** The worker's interval in nanoseconds when none is configured. */
  const DefaultInterval := 15 * 1_000_000_000
  /** How many `Merging` tasks of a team one round takes. */
  const RoundLimit := 20

  /** `Run`'s interval: a non-positive one falls back to fifteen seconds. */
  function Interval(configured: int): (r: int)
    ensures r > 0
    ensures configured > 0 ==> r == configured
    ensures configured <= 0 ==> r == DefaultInterval
  {
    if configured <= 0 then DefaultInterval else configured
  }

  /** What processing a task comes to. */
  datatype Outcome = Skip | Fail(err: string) | Land

  /**
   * `processTask`'s decisions: no workflow, nothing; then the rebase (only
   * with worktree, branch and the option set), the test command of the
   * chosen repository and the merge (both only with a worktree), the first
   * failure deciding.
   */
  function Decide(task: Task, repos: seq<Repo>, rebase: bool, run: Git.Invocation -> bool): Outcome {
    var wt := OrEmpty(task.worktreePath);
    var br := OrEmpty(task.branchName);
    if OrEmpty(task.workflowId) == "" then Skip
    else if wt != "" && br != "" && rebase && Git.RebaseOntoMain(wt, br, run).Some? then Fail(Git.RebaseOntoMain(wt, br, run).value)
    else Checks(task, repos, run)
  }

  /** The steps after the rebase: with a worktree, the chosen repository's test command, then the merge of a non-empty branch. */
  function Checks(task: Task, repos: seq<Repo>, run: Git.Invocation -> bool): Outcome {
    var wt := OrEmpty(task.worktreePath);
    var br := OrEmpty(task.branchName);
    if wt == "" then Land
    else
      var test := Engine.TestError(wt, Engine.ChooseRepo(repos, task.repoName), run);
      if test.Some? then Fail(test.value)
      else if br != "" && Git.MergeInWorktree(wt, br, run).Some? then Fail(Git.MergeInWorktree(wt, br, run).value)
      else Land
  }

  /** The row of a landed task: in the `Done` stage of the task's workflow, done, unassigned, without git fields. */
  function Landed(t: Task, workflowId: string, now: int): (r: Task)
    ensures r.status == StatusDone && r.currentStage == Some(DoneStage) && r.workflowId == Some(workflowId) && r.assignee.None?
    ensures r.worktreePath.None? && r.branchName.None? && r.baseSha.None? && r.repoName.None?
    ensures r.id == t.id && r.team == t.team && r.title == t.title && r.dri == t.dri && r.attemptCount == t.attemptCount
    ensures r.createdAt == t.createdAt && r.updatedAt == now
  {
    t.(workflowId := Some(workflowId), currentStage := Some(DoneStage), status := StatusDone, assignee := None,
       worktreePath := None, branchName := None, baseSha := None, repoName := None, updatedAt := now)
  }

  /** The row after processing, given the outcome for the task read at `task`. */
  function Processed(row: Task, task: Task, o: Outcome, now: int): Task {
    match o
    case Skip => row
    case Fail(_) => Failed(row, now)
    case Land => Landed(row, OrEmpty(task.workflowId), now)
  }

  /** A task without a workflow is skipped, and only such a task. */
  lemma SkipsOnlyWithoutWorkflow(task: Task, repos: seq<Repo>, rebase: bool, run: Git.Invocation -> bool)
    ensures Decide(task, repos, rebase, run) == Skip <==> OrEmpty(task.workflowId) == ""
  {
  }

  /** A task with a workflow but no worktree lands without any git command being consulted. */
  lemma NoWorktreeLands(task: Task, repos: seq<Repo>, rebase: bool, run: Git.Invocation -> bool, run2: Git.Invocation -> bool)
    requires OrEmpty(task.workflowId) != "" && OrEmpty(task.worktreePath) == ""
    ensures Decide(task, repos, rebase, run) == Decide(task, repos, rebase, run2) == Land
  {
  }

  /**
   * A task lands only when every git step that applies succeeded: the rebase
   * when asked for, the chosen repository's test command, and the merge of
   * its branch.
   */
  lemma LandingPassedEveryStep(task: Task, repos: seq<Repo>, rebase: bool, run: Git.Invocation -> bool)
    requires Decide(task, repos, rebase, run) == Land
    ensures OrEmpty(task.workflowId) != ""
    ensures var wt := OrEmpty(task.worktreePath); var br := OrEmpty(task.branchName);
      (wt != "" && br != "" && rebase ==>
        run(Git.Invocation(wt, ["git", "checkout", br])) && run(Git.Invocation(wt, ["git", "fetch", "origin"]))) &&
      (wt != "" && Engine.ChooseRepo(repos, task.repoName).Some? && OrEmpty(Engine.ChooseRepo(repos, task.repoName).value.testCmd) != "" ==>
        run(Git.Invocation(wt, ["sh", "-c", Engine.ChooseRepo(repos, task.repoName).value.testCmd.value]))) &&
      (wt != "" && br != "" ==> run(Git.Invocation(wt, ["git", "merge", br])))
  {
    var wt := OrEmpty(task.worktreePath);
    var br := OrEmpty(task.branchName);
    if wt != "" {
      var repo := Engine.ChooseRepo(repos, task.repoName);
      assert Engine.TestError(wt, repo, run).None?;
    }
  }

  /** Without the rebase option no rebase command is consulted: the outcome depends only on the test and merge commands. */
  lemma RebaseOnlyWhenAsked(task: Task, repos: seq<Repo>, run: Git.Invocation -> bool)
    requires OrEmpty(task.workflowId) != "" && OrEmpty(task.worktreePath) != ""
    ensures var wt := OrEmpty(task.worktreePath); var br := OrEmpty(task.branchName);
      var test := Engine.TestError(wt, Engine.ChooseRepo(repos, task.repoName), run);
      Decide(task, repos, false, run) ==
        if test.Some? then Fail(test.value)
        else if Git.MergeInWorktree(wt, br, run).Some? then Fail(Git.MergeInWorktree(wt, br, run).value)
        else Land
  {
  }

  /** A failure marks the row failed and keeps its stage and git fields, so the task stays where it was. */
  lemma FailureKeepsPlace(row: Task, task: Task, err: string, now: int)
    ensures var r := Processed(row, task, Fail(err), now);
      r.status == StatusFailed && r.attemptCount == row.attemptCount + 1 &&
      r.currentStage == row.currentStage && r.workflowId == row.workflowId &&
      r.worktreePath == row.worktreePath && r.branchName == row.branchName
  {
  }

  /** A processed row counts as settled: failed, or done in the `Done` stage without git fields. */
  predicate Settled(r: Task) {
    r.status == StatusFailed ||
    (r.status == StatusDone && r.currentStage == Some(DoneStage) && r.worktreePath.None? && r.branchName.None?)
  }

  /** Processing either leaves the row alone or settles it. */
  lemma ProcessedSettles(row: Task, task: Task, o: Outcome, now: int)
    ensures Processed(row, task, o, now) == row || Settled(Processed(row, task, o, now))
  {
  }

  /** `processTask`; returns the worktree it removed after a landing, if any. */
  method ProcessTask(s: Store, team: string, task: Task, rebase: bool, run: Git.Invocation -> bool) returns (removed: Option<string>)
    requires s.Valid()
    modifies s
    ensures s.Valid()
    ensures var o := Decide(task, s.ReposOf(team), rebase, run);
      (old(s.HasTask(task.id)) ==> s.tasks == old(s.tasks)[task.id - 1 := Processed(old(s.tasks)[task.id - 1], task, o, old(s.now))]) &&
      (removed.Some? <==> o == Land && OrEmpty(task.worktreePath) != "") &&
      (removed.Some? ==> removed.value == task.worktreePath.value)
    ensures !old(s.HasTask(task.id)) ==> s.tasks == old(s.tasks)
    ensures s.now == old(s.now) && s.messages == old(s.messages) && s.allowlist == old(s.allowlist) && s.workflows == old(s.workflows)
    ensures s.teams == old(s.teams) && s.reviews == old(s.reviews) && s.agents == old(s.agents) && s.repos == old(s.repos)
  {
    removed := None;
    var wt := OrEmpty(task.worktreePath);
    var br := OrEmpty(task.branchName);
    if OrEmpty(task.workflowId) == "" {
      return;
    }
    if wt != "" && br != "" && rebase {
      var e := Git.RebaseOntoMain(wt, br, run);
      if e.Some? {
        s.SetTaskFailed(task.id);
        return;
      }
    }
    removed := CheckAndLand(s, team, task, run);
  }

  /** The test command and the merge, then the landing and the worktree's removal. */
  method CheckAndLand(s: Store, team: string, task: Task, run: Git.Invocation -> bool) returns (removed: Option<string>)
    requires s.Valid() && OrEmpty(task.workflowId) != ""
    modifies s
    ensures s.Valid()
    ensures var o := Checks(task, s.ReposOf(team), run);
      (old(s.HasTask(task.id)) ==> s.tasks == old(s.tasks)[task.id - 1 := Processed(old(s.tasks)[task.id - 1], task, o, old(s.now))]) &&
      (removed.Some? <==> o == Land && OrEmpty(task.worktreePath) != "") &&
      (removed.Some? ==> removed.value == task.worktreePath.value)
    ensures !old(s.HasTask(task.id)) ==> s.tasks == old(s.tasks)
    ensures s.now == old(s.now) && s.messages == old(s.messages) && s.allowlist == old(s.allowlist) && s.workflows == old(s.workflows)
    ensures s.teams == old(s.teams) && s.reviews == old(s.reviews) && s.agents == old(s.agents) && s.repos == old(s.repos)
  {
    removed := None;
    var wt := OrEmpty(task.worktreePath);
    var br := OrEmpty(task.branchName);
    if wt != "" {
      var repo := Engine.PickRepo(s.ReposOf(team), task.repoName);
      if repo.Some? && repo.value.testCmd.Some? && repo.value.testCmd.value != "" {
        var e := Git.RunTestCmd(wt, repo.value.testCmd.value, run);
        if e.Some? {
          s.SetTaskFailed(task.id);
          return;
        }
      }
      if br != "" {
        var e := Git.MergeInWorktree(wt, br, run);
        if e.Some? {
          s.SetTaskFailed(task.id);
          return;
        }
      }
    }
    LandTask(s, task.id, task.workflowId.value);
    if wt != "" {
      removed := Some(wt);
    }
  }

  /** The three writes of a landing: `Done` stage, done and unassigned, git fields cleared. */
  method LandTask(s: Store, id: int, wf: string)
    requires s.Valid()
    modifies s
    ensures s.Valid()
    ensures old(s.HasTask(id)) ==> s.tasks == old(s.tasks)[id - 1 := Landed(old(s.tasks)[id - 1], wf, old(s.now))]
    ensures !old(s.HasTask(id)) ==> s.tasks == old(s.tasks)
    ensures s.now == old(s.now) && s.messages == old(s.messages) && s.allowlist == old(s.allowlist) && s.workflows == old(s.workflows)
    ensures s.teams == old(s.teams) && s.reviews == old(s.reviews) && s.agents == old(s.agents) && s.repos == old(s.repos)
  {
    s.SetTaskWorkflowAndStage(id, wf, DoneStage);
    s.UpdateTask(id, StatusDone, None);
    s.ClearTaskGitFields(id);
  }

  /** A team's repositories in the store's map; none when it has no entry. */
  function TeamRepos(repos: map<string, seq<Repo>>, team: string): seq<Repo> {
    if team in repos then repos[team] else []
  }

  /** The table after one listed task is processed: the row of its id becomes what the decision for it says. */
  function ProcessRow(rows: seq<Task>, t: Task, repos: seq<Repo>, rebase: bool, run: Git.Invocation -> bool, now: int): (r: seq<Task>)
    ensures |r| == |rows|
    ensures forall k :: 0 <= k < |rows| && k != t.id - 1 ==> r[k] == rows[k]
  {
    if 1 <= t.id <= |rows| then rows[t.id - 1 := Processed(rows[t.id - 1], t, Decide(t, repos, rebase, run), now)] else rows
  }

  /** The table after the listed tasks are processed in order. */
  function ProcessRows(rows: seq<Task>, tasks: seq<Task>, repos: seq<Repo>, rebase: bool, run: Git.Invocation -> bool, now: int): (r: seq<Task>)
    ensures |r| == |rows|
    decreases |tasks|
  {
    if tasks == [] then rows
    else ProcessRow(ProcessRows(rows, tasks[..|tasks| - 1], repos, rebase, run, now), tasks[|tasks| - 1], repos, rebase, run, now)
  }

  /** The table after a round over `teams`: each team's `Merging` listing, read from the table the earlier teams left, is processed. */
  function RoundRows(rows: seq<Task>, teams: seq<string>, repos: map<string, seq<Repo>>, rebase: bool, run: Git.Invocation -> bool, now: int): (r: seq<Task>)
    ensures |r| == |rows|
    decreases |teams|
  {
    if teams == [] then rows
    else
      var prev := RoundRows(rows, teams[..|teams| - 1], repos, rebase, run, now);
      var team := teams[|teams| - 1];
      ProcessRows(prev, StageListing(prev, team, MergingStage, RoundLimit), TeamRepos(repos, team), rebase, run, now)
  }

  /** The `Merging` listing the `i`-th team of a round reads: the one of the table the earlier teams left. */
  function RoundListing(rows: seq<Task>, teams: seq<string>, i: nat, repos: map<string, seq<Repo>>, rebase: bool, run: Git.Invocation -> bool, now: int): seq<Task>
    requires i < |teams|
  {
    StageListing(RoundRows(rows, teams[..i], repos, rebase, run, now), teams[i], MergingStage, RoundLimit)
  }

  /** How many tasks each team of a round takes: the length of its `RoundListing`, at most `RoundLimit`. */
  function RoundTaken(rows: seq<Task>, teams: seq<string>, repos: map<string, seq<Repo>>, rebase: bool, run: Git.Invocation -> bool, now: int): (r: seq<int>)
    ensures |r| == |teams|
    ensures forall i :: 0 <= i < |r| ==> 0 <= r[i] <= RoundLimit
  {
    seq(|teams|, i requires 0 <= i < |teams| => |RoundListing(rows, teams, i, repos, rebase, run, now)|)
  }

  /** A team's listing does not depend on the teams after it. */
  lemma RoundListingPrefix(rows: seq<Task>, teams: seq<string>, n: nat, i: nat, repos: map<string, seq<Repo>>, rebase: bool, run: Git.Invocation -> bool, now: int)
    requires i < n <= |teams|
    ensures RoundListing(rows, teams[..n], i, repos, rebase, run, now) == RoundListing(rows, teams, i, repos, rebase, run, now)
  {
    assert teams[..n][..i] == teams[..i];
  }

  /** A round over one more team is the shorter round followed by that team's step. */
  lemma RoundRowsStep(rows: seq<Task>, teams: seq<string>, i: nat, repos: map<string, seq<Repo>>, rebase: bool, run: Git.Invocation -> bool, now: int)
    requires i < |teams|
    ensures var prev := RoundRows(rows, teams[..i], repos, rebase, run, now);
      RoundRows(rows, teams[..i + 1], repos, rebase, run, now)
        == ProcessRows(prev, StageListing(prev, teams[i], MergingStage, RoundLimit), TeamRepos(repos, teams[i]), rebase, run, now)
  {
    assert teams[..i + 1][..i] == teams[..i];
  }

  /** The same for the counts. */
  lemma RoundTakenStep(rows: seq<Task>, teams: seq<string>, i: nat, repos: map<string, seq<Repo>>, rebase: bool, run: Git.Invocation -> bool, now: int)
    requires i < |teams|
    ensures RoundTaken(rows, teams[..i + 1], repos, rebase, run, now)
      == RoundTaken(rows, teams[..i], repos, rebase, run, now) + [|RoundListing(rows, teams, i, repos, rebase, run, now)|]
  {
    var longer := RoundTaken(rows, teams[..i + 1], repos, rebase, run, now);
    var shorter := RoundTaken(rows, teams[..i], repos, rebase, run, now);
    forall j | 0 <= j < i + 1 ensures longer[j] == (shorter + [|RoundListing(rows, teams, i, repos, rebase, run, now)|])[j] {
      RoundListingPrefix(rows, teams, i + 1, j, repos, rebase, run, now);
      if j < i {
        RoundListingPrefix(rows, teams, i, j, repos, rebase, run, now);
      }
    }
  }

  /** Processing one more listed task is processing it on the table the earlier ones left. */
  lemma ProcessRowsStep(rows: seq<Task>, tasks: seq<Task>, j: nat, repos: seq<Repo>, rebase: bool, run: Git.Invocation -> bool, now: int)
    requires j < |tasks|
    ensures ProcessRows(rows, tasks[..j + 1], repos, rebase, run, now)
      == ProcessRow(ProcessRows(rows, tasks[..j], repos, rebase, run, now), tasks[j], repos, rebase, run, now)
  {
    assert tasks[..j + 1][..j] == tasks[..j];
  }

  /** Processing keeps every row's id. */
  lemma ProcessedId(row: Task, task: Task, o: Outcome, now: int)
    ensures Processed(row, task, o, now).id == row.id
  {
  }

  /** The tasks before the last of a list whose ids increase strictly: their ids increase too. */
  lemma IdsIncreaseInit(tasks: seq<Task>)
    requires IdsIncrease(tasks) && tasks != []
    ensures IdsIncrease(tasks[..|tasks| - 1])
  {
    var init := tasks[..|tasks| - 1];
    forall a, b | 0 <= a < b < |init| ensures init[a].id < init[b].id {
      assert init[a] == tasks[a] && init[b] == tasks[b];
    }
  }

  /** Processing tasks none of which has the id of row `k` leaves that row alone. */
  lemma {:induction false} ProcessRowsOther(rows: seq<Task>, tasks: seq<Task>, k: int, repos: seq<Repo>, rebase: bool, run: Git.Invocation -> bool, now: int)
    requires 0 <= k < |rows|
    requires forall j :: 0 <= j < |tasks| ==> tasks[j].id != k + 1
    ensures ProcessRows(rows, tasks, repos, rebase, run, now)[k] == rows[k]
    decreases |tasks|
  {
    if tasks != [] {
      var init := tasks[..|tasks| - 1];
      assert forall j :: 0 <= j < |init| ==> init[j] == tasks[j];
      ProcessRowsOther(rows, init, k, repos, rebase, run, now);
    }
  }

  /**
   * Processing tasks whose ids increase strictly turns each one's row into
   * what the decision for it says about the row as it was.
   */
  lemma {:induction false} ProcessRowsListed(rows: seq<Task>, tasks: seq<Task>, i: nat, repos: seq<Repo>, rebase: bool, run: Git.Invocation -> bool, now: int)
    requires IdsIncrease(tasks)
    requires forall j :: 0 <= j < |tasks| ==> 1 <= tasks[j].id <= |rows|
    requires i < |tasks|
    ensures ProcessRows(rows, tasks, repos, rebase, run, now)[tasks[i].id - 1]
      == Processed(rows[tasks[i].id - 1], tasks[i], Decide(tasks[i], repos, rebase, run), now)
    decreases |tasks|
  {
    var init := tasks[..|tasks| - 1];
    var t := tasks[i];
    if i == |tasks| - 1 {
      forall j | 0 <= j < |init| ensures init[j].id != t.id {
        assert init[j] == tasks[j];
      }
      ProcessRowsOther(rows, init, t.id - 1, repos, rebase, run, now);
    } else {
      IdsIncreaseInit(tasks);
      assert init[i] == t;
      assert forall j :: 0 <= j < |init| ==> init[j] == tasks[j];
      ProcessRowsListed(rows, init, i, repos, rebase, run, now);
      var last := tasks[|tasks| - 1];
      var prev := ProcessRows(rows, init, repos, rebase, run, now);
      assert t.id < last.id;
      assert ProcessRows(rows, tasks, repos, rebase, run, now) == ProcessRow(prev, last, repos, rebase, run, now);
    }
  }

  /**
   * One team's step of a round, on a table whose row `k` has id `k + 1`:
   * every task of its `Merging` listing ends up as the decision for it
   * says, and every row outside the listing is unchanged.
   */
  lemma TeamStepRows(rows: seq<Task>, team: string, repos: seq<Repo>, rebase: bool, run: Git.Invocation -> bool, now: int)
    requires forall k :: 0 <= k < |rows| ==> rows[k].id == k + 1
    ensures var listed := StageListing(rows, team, MergingStage, RoundLimit);
      var r := ProcessRows(rows, listed, repos, rebase, run, now);
      (forall t :: t in listed ==>
         t.team == team && t.currentStage == Some(MergingStage) && r[t.id - 1] == Processed(t, t, Decide(t, repos, rebase, run), now)) &&
      (forall k :: 0 <= k < |rows| && rows[k] !in listed ==> r[k] == rows[k])
  {
    var listed := StageListing(rows, team, MergingStage, RoundLimit);
    var r := ProcessRows(rows, listed, repos, rebase, run, now);
    forall t | t in listed
      ensures t.team == team && t.currentStage == Some(MergingStage) && r[t.id - 1] == Processed(t, t, Decide(t, repos, rebase, run), now)
    {
      var i :| 0 <= i < |listed| && listed[i] == t;
      TeamStepListed(rows, team, i, repos, rebase, run, now);
    }
    forall k | 0 <= k < |rows| && rows[k] !in listed ensures r[k] == rows[k] {
      TeamStepUnlisted(rows, team, k, repos, rebase, run, now);
    }
  }

  /** The `i`-th listed task's row becomes the decision's outcome for it. */
  lemma TeamStepListed(rows: seq<Task>, team: string, i: nat, repos: seq<Repo>, rebase: bool, run: Git.Invocation -> bool, now: int)
    requires forall k :: 0 <= k < |rows| ==> rows[k].id == k + 1
    requires i < |StageListing(rows, team, MergingStage, RoundLimit)|
    ensures var t := StageListing(rows, team, MergingStage, RoundLimit)[i];
      1 <= t.id <= |rows| &&
      ProcessRows(rows, StageListing(rows, team, MergingStage, RoundLimit), repos, rebase, run, now)[t.id - 1]
        == Processed(t, t, Decide(t, repos, rebase, run), now)
  {
    var listed := StageListing(rows, team, MergingStage, RoundLimit);
    StageListingIds(rows, team, MergingStage, RoundLimit);
    ProcessRowsListed(rows, listed, i, repos, rebase, run, now);
  }

  /** A row outside the listing is unchanged. */
  lemma TeamStepUnlisted(rows: seq<Task>, team: string, k: int, repos: seq<Repo>, rebase: bool, run: Git.Invocation -> bool, now: int)
    requires forall k :: 0 <= k < |rows| ==> rows[k].id == k + 1
    requires 0 <= k < |rows| && rows[k] !in StageListing(rows, team, MergingStage, RoundLimit)
    ensures ProcessRows(rows, StageListing(rows, team, MergingStage, RoundLimit), repos, rebase, run, now)[k] == rows[k]
  {
    var listed := StageListing(rows, team, MergingStage, RoundLimit);
    StageListingIds(rows, team, MergingStage, RoundLimit);
    forall j | 0 <= j < |listed| ensures listed[j].id != k + 1 {
      assert rows[listed[j].id - 1] == listed[j];
    }
    ProcessRowsOther(rows, listed, k, repos, rebase, run, now);
  }

  /** Every row is its old self, or was in the `Merging` stage and is now settled. */
  ghost predicate RoundSoFar(before: seq<Task>, after: seq<Task>) {
    |after| == |before| &&
    forall k :: 0 <= k < |before| ==> after[k] == before[k] || (before[k].currentStage == Some(MergingStage) && Settled(after[k]))
  }

  /**
   * `runOnce`: for each team in turn, its `Merging` listing of at most
   * `RoundLimit` tasks is read and processed in order.  The table becomes
   * `RoundRows` of the old one, `taken[i]` is the length of the `i`-th
   * team's listing, rows outside `Merging` are left alone and every changed
   * row is settled.
   */
  method RunOnce(s: Store, rebase: bool, run: Git.Invocation -> bool) returns (taken: seq<int>)
    requires s.Valid()
    modifies s
    ensures s.Valid()
    ensures s.tasks == RoundRows(old(s.tasks), old(s.teams), old(s.repos), rebase, run, old(s.now))
    ensures RoundSoFar(old(s.tasks), s.tasks)
    ensures |taken| == |s.teams| && forall i :: 0 <= i < |taken| ==> 0 <= taken[i] <= RoundLimit
    ensures s.now == old(s.now) && s.messages == old(s.messages) && s.allowlist == old(s.allowlist) && s.workflows == old(s.workflows)
    ensures s.teams == old(s.teams) && s.reviews == old(s.reviews) && s.agents == old(s.agents) && s.repos == old(s.repos)
    ensures taken == RoundTaken(old(s.tasks), old(s.teams), old(s.repos), rebase, run, old(s.now))
    ensures forall i :: 0 <= i < |taken| ==> taken[i] == |RoundListing(old(s.tasks), old(s.teams), i, old(s.repos), rebase, run, old(s.now))|
  {
    taken := [];
    var teams := s.teams;
    var i := 0;
    while i < |teams|
      invariant 0 <= i <= |teams| && teams == s.teams
      invariant s.Valid()
      invariant s.tasks == RoundRows(old(s.tasks), teams[..i], old(s.repos), rebase, run, old(s.now))
      invariant RoundSoFar(old(s.tasks), s.tasks)
      invariant taken == RoundTaken(old(s.tasks), teams[..i], old(s.repos), rebase, run, old(s.now))
      invariant s.now == old(s.now) && s.messages == old(s.messages) && s.allowlist == old(s.allowlist) && s.workflows == old(s.workflows)
      invariant s.teams == old(s.teams) && s.reviews == old(s.reviews) && s.agents == old(s.agents) && s.repos == old(s.repos)
    {
      ghost var prev := s.tasks;
      var n := RunTeam(s, teams[i], rebase, run, old(s.tasks));
      RoundRowsStep(old(s.tasks), teams, i, old(s.repos), rebase, run, old(s.now));
      RoundTakenStep(old(s.tasks), teams, i, old(s.repos), rebase, run, old(s.now));
      assert n == |RoundListing(old(s.tasks), teams, i, old(s.repos), rebase, run, old(s.now))|;
      taken := taken + [n];
      i := i + 1;
    }
    assert teams[..i] == teams;
  }

  /** One team's turn of `runOnce`: its `Merging` listing is read and processed; `n` is the listing's length. */
  method RunTeam(s: Store, team: string, rebase: bool, run: Git.Invocation -> bool, ghost before: seq<Task>) returns (n: int)
    requires s.Valid() && RoundSoFar(before, s.tasks) && team in s.teams
    modifies s
    ensures s.Valid() && RoundSoFar(before, s.tasks)
    ensures var listed := StageListing(old(s.tasks), team, MergingStage, RoundLimit);
      s.tasks == ProcessRows(old(s.tasks), listed, TeamRepos(old(s.repos), team), rebase, run, old(s.now)) && n == |listed|
    ensures s.now == old(s.now) && s.messages == old(s.messages) && s.allowlist == old(s.allowlist) && s.workflows == old(s.workflows)
    ensures s.teams == old(s.teams) && s.reviews == old(s.reviews) && s.agents == old(s.agents) && s.repos == old(s.repos)
  {
    var listed := s.ListTasksInStage(team, MergingStage, RoundLimit);
    n := 0;
    if listed.Ok? {
      n := ProcessAll(s, team, listed.value, rebase, run, before);
    }
  }

  /** Settling rows in two passes settles them in one. */
  lemma RoundSoFarTrans(before: seq<Task>, mid: seq<Task>, after: seq<Task>)
    requires RoundSoFar(before, mid) && RoundSoFar(mid, after)
    ensures RoundSoFar(before, after)
  {
  }

  /** Processes the listed tasks in order; each is a row of the store in the `Merging` stage when listed. */
  method ProcessAll(s: Store, team: string, tasks: seq<Task>, rebase: bool, run: Git.Invocation -> bool, ghost before: seq<Task>)
    returns (n: int)
    requires s.Valid() && RoundSoFar(before, s.tasks)
    requires |tasks| <= RoundLimit
    requires forall t :: t in tasks ==> t in s.tasks && t.currentStage == Some(MergingStage)
    modifies s
    ensures s.Valid() && RoundSoFar(before, s.tasks)
    ensures s.tasks == ProcessRows(old(s.tasks), tasks, TeamRepos(old(s.repos), team), rebase, run, old(s.now))
    ensures n == |tasks|
    ensures s.now == old(s.now) && s.messages == old(s.messages) && s.allowlist == old(s.allowlist) && s.workflows == old(s.workflows)
    ensures s.teams == old(s.teams) && s.reviews == old(s.reviews) && s.agents == old(s.agents) && s.repos == old(s.repos)
  {
    ghost var listedFrom := s.tasks;
    var j := 0;
    while j < |tasks|
      invariant 0 <= j <= |tasks|
      invariant s.Valid() && RoundSoFar(listedFrom, s.tasks)
      invariant s.tasks == ProcessRows(listedFrom, tasks[..j], TeamRepos(old(s.repos), team), rebase, run, old(s.now))
      invariant s.now == old(s.now) && s.messages == old(s.messages) && s.allowlist == old(s.allowlist) && s.workflows == old(s.workflows)
      invariant s.teams == old(s.teams) && s.reviews == old(s.reviews) && s.agents == old(s.agents) && s.repos == old(s.repos)
    {
      ProcessOne(s, team, tasks[j], rebase, run, listedFrom);
      ProcessRowsStep(listedFrom, tasks, j, TeamRepos(old(s.repos), team), rebase, run, old(s.now));
      j := j + 1;
    }
    assert tasks[..j] == tasks;
    RoundSoFarTrans(before, listedFrom, s.tasks);
    return |tasks|;
  }

  /**
   * One task of a round: its row becomes what the decision for it says, and
   * since the row was in `Merging` when listed, whatever becomes of it keeps
   * the round's invariant.
   */
  method ProcessOne(s: Store, team: string, t: Task, rebase: bool, run: Git.Invocation -> bool, ghost listedFrom: seq<Task>)
    requires s.Valid() && RoundSoFar(listedFrom, s.tasks)
    requires t in listedFrom && t.currentStage == Some(MergingStage)
    requires forall k :: 0 <= k < |listedFrom| ==> listedFrom[k].id == k + 1
    modifies s
    ensures s.Valid() && RoundSoFar(listedFrom, s.tasks)
    ensures s.tasks == ProcessRow(old(s.tasks), t, TeamRepos(old(s.repos), team), rebase, run, old(s.now))
    ensures s.now == old(s.now) && s.messages == old(s.messages) && s.allowlist == old(s.allowlist) && s.workflows == old(s.workflows)
    ensures s.teams == old(s.teams) && s.reviews == old(s.reviews) && s.agents == old(s.agents) && s.repos == old(s.repos)
  {
    ghost var k :| 0 <= k < |listedFrom| && listedFrom[k] == t;
    assert t.id == k + 1;
    ghost var row := s.tasks[k];
    var _ := ProcessTask(s, team, t, rebase, run);
    ProcessedSettles(row, t, Decide(t, s.ReposOf(team), rebase, run), old(s.now));
  }
}
