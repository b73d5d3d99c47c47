/**
 * Reviews: choosing the reviewer of a task, preferring the candidate pool of
 * the workflow's `InReview` stage and anyone but the task's DRI (its author),
 * and submitting a review, which records it and moves the task along the
 * workflow edge its outcome selects.
 */
module Reviews {
  import opened Wrappers
  import opened GoStrings
  import opened Models
  import opened StoreSpec
  import opened WorkflowTables
  import opened TaskStore
  import opened AgentPool

  const InReviewStage := "InReview"

  /** The agents of a pool that are not the DRI. */
  function Eligible(pool: set<string>, dri: string): Agent -> bool {
    (a: Agent) => a.name in pool && a.name != dri
  }

  /** The agents that are not the DRI. */
  function NotDri(dri: string): Agent -> bool {
    (a: Agent) => a.name != dri
  }

  /** Does this stage offer a candidate pool for review? */
  predicate OffersPool(s: Stage) {
    s.name == InReviewStage && TrimSpace(s.candidates) != ""
  }

  /** The pool reviewer: for the first `InReview` stage with a pool holding a non-DRI agent, the first such agent. */
  function PoolReviewer(stages: seq<Stage>, agents: seq<Agent>, dri: string): Option<string>
    decreases |stages|
  {
    if stages == [] then None
    else if OffersPool(stages[0]) && Filter(agents, Eligible(Pool(stages[0].candidates), dri)) != [] then
      Some(Filter(agents, Eligible(Pool(stages[0].candidates), dri))[0].name)
    else PoolReviewer(stages[1..], agents, dri)
  }

  /**
   * `PickReviewer`: the pool reviewer when the task has a workflow and one
   * exists; else the first agent that is not the DRI; else the first agent;
   * `""` without agents.
   */
  function Reviewer(task: Task, stages: seq<Stage>, agents: seq<Agent>): string {
    var dri := OrEmpty(task.dri);
    var pooled := if HasWorkflow(task) then PoolReviewer(stages, agents, dri) else None;
    if pooled.Some? then pooled.value
    else match FirstWhere(agents, NotDri(dri))
      case Some(a) => a.name
      case None => if agents == [] then "" else agents[0].name
  }

  /**
   * A pool reviewer is an agent in the pool of some `InReview` stage, is not
   * the DRI, and no agent before it in list order is in that pool as a non-DRI.
   */
  lemma {:induction false} PoolReviewerIsFirstEligible(stages: seq<Stage>, agents: seq<Agent>, dri: string)
    requires PoolReviewer(stages, agents, dri).Some?
    ensures var n := PoolReviewer(stages, agents, dri).value;
      exists k, j :: 0 <= k < |stages| && 0 <= j < |agents| && OffersPool(stages[k]) && agents[j].name == n &&
        n in Pool(stages[k].candidates) && n != dri &&
        forall i :: 0 <= i < j ==> !(agents[i].name in Pool(stages[k].candidates) && agents[i].name != dri)
    decreases |stages|
  {
    var keep := Eligible(Pool(stages[0].candidates), dri);
    if OffersPool(stages[0]) && Filter(agents, keep) != [] {
      FilterHead(agents, keep);
      var j :| 0 <= j < |agents| && agents[j] == FirstWhere(agents, keep).value && keep(agents[j]) &&
               forall i :: 0 <= i < j ==> !keep(agents[i]);
      assert OffersPool(stages[0]) && agents[j].name == PoolReviewer(stages, agents, dri).value;
    } else {
      PoolReviewerIsFirstEligible(stages[1..], agents, dri);
      var n := PoolReviewer(stages, agents, dri).value;
      var k, j :| 0 <= k < |stages[1..]| && 0 <= j < |agents| && OffersPool(stages[1..][k]) && agents[j].name == n &&
        n in Pool(stages[1..][k].candidates) && n != dri &&
        forall i :: 0 <= i < j ==> !(agents[i].name in Pool(stages[1..][k].candidates) && agents[i].name != dri);
      assert stages[1..][k] == stages[k + 1];
    }
  }

  /** The reviewer is `""` without agents and otherwise the name of one of them. */
  lemma ReviewerIsAgent(task: Task, stages: seq<Stage>, agents: seq<Agent>)
    ensures agents == [] ==> Reviewer(task, stages, agents) == ""
    ensures agents != [] ==> exists k :: 0 <= k < |agents| && Reviewer(task, stages, agents) == agents[k].name
  {
    var dri := OrEmpty(task.dri);
    var r := Reviewer(task, stages, agents);
    if HasWorkflow(task) && PoolReviewer(stages, agents, dri).Some? {
      PoolReviewerIsFirstEligible(stages, agents, dri);
    } else if FirstWhere(agents, NotDri(dri)).Some? {
      var k :| 0 <= k < |agents| && agents[k] == FirstWhere(agents, NotDri(dri)).value;
      assert r == agents[k].name;
    } else if agents != [] {
      assert r == agents[0].name;
    }
  }

  /** The DRI reviews only when every agent is the DRI; then it is the first agent. */
  lemma ReviewerAvoidsDri(task: Task, stages: seq<Stage>, agents: seq<Agent>)
    ensures (exists k :: 0 <= k < |agents| && agents[k].name != OrEmpty(task.dri)) ==> Reviewer(task, stages, agents) != OrEmpty(task.dri)
    ensures agents != [] && (forall k :: 0 <= k < |agents| ==> agents[k].name == OrEmpty(task.dri)) ==>
      Reviewer(task, stages, agents) == agents[0].name
  {
    var dri := OrEmpty(task.dri);
    if HasWorkflow(task) && PoolReviewer(stages, agents, dri).Some? {
      PoolReviewerIsFirstEligible(stages, agents, dri);
    }
  }

  /** Without a pool reviewer the choice is the first agent, in list order, that is not the DRI. */
  lemma ReviewerWithoutPool(task: Task, stages: seq<Stage>, agents: seq<Agent>, j: int)
    requires !HasWorkflow(task) || PoolReviewer(stages, agents, OrEmpty(task.dri)).None?
    requires 0 <= j < |agents| && agents[j].name != OrEmpty(task.dri)
    requires forall i :: 0 <= i < j ==> agents[i].name == OrEmpty(task.dri)
    ensures Reviewer(task, stages, agents) == agents[j].name
  {
    var dri := OrEmpty(task.dri);
    var f := FirstWhere(agents, NotDri(dri));
    var k :| 0 <= k < |agents| && agents[k] == f.value && agents[k].name != dri && forall i :: 0 <= i < k ==> agents[i].name == dri;
    assert k == j;
  }

  /** `PickReviewer`, scanning the stages, building each pool and filtering the agents as the source does. */
  method PickReviewer(s: Store, team: string, task: Task, agents: seq<Agent>) returns (r: string)
    ensures r == Reviewer(task, if HasWorkflow(task) then s.StagesOf(task.workflowId.value) else [], agents)
  {
    var dri := OrEmpty(task.dri);
    if HasWorkflow(task) {
      var stages := s.StagesOf(task.workflowId.value);
      var i := 0;
      while i < |stages|
        invariant 0 <= i <= |stages|
        invariant PoolReviewer(stages, agents, dri) == PoolReviewer(stages[i..], agents, dri)
      {
        assert stages[i..][1..] == stages[i + 1..];
        if stages[i].name == InReviewStage && TrimSpace(stages[i].candidates) != "" {
          var pool := BuildPool(stages[i].candidates);
          var candidates := FilterAgents(agents, Eligible(pool, dri));
          if |candidates| > 0 {
            return candidates[0].name;
          }
        }
        i := i + 1;
      }
    }
    var other := FindFirst(agents, NotDri(dri));
    if other.Some? {
      return other.value.name;
    }
    if |agents| > 0 {
      return agents[0].name;
    }
    return "";
  }

  /**
   * The row after a review with `outcome`: without a workflow, or without an
   * edge from its stage for the outcome, it is unchanged.  Otherwise it moves
   * to the edge's target; requested changes go back to a non-empty DRI as
   * in-progress work; a terminal target marks it done.
   */
  function Reviewed(t: Task, stages: seq<Stage>, edges: seq<Edge>, outcome: string, now: int): Task {
    if !HasWorkflow(t) then t
    else
      var to := Transition(edges, OrEmpty(t.currentStage), outcome);
      if to == "" then t
      else
        var moved := t.(workflowId := Some(t.workflowId.value), currentStage := Some(to), updatedAt := now);
        var back := if outcome == ReworkOutcome && OrEmpty(t.dri) != "" then Updated(moved, StatusInProgress, t.dri, now) else moved;
        if IsTerminalStage(stages, to) then Updated(back, StatusDone, None, now) else back
  }

  /** A review whose outcome has no edge from the task's stage changes nothing. */
  lemma ReviewWithoutEdge(t: Task, stages: seq<Stage>, edges: seq<Edge>, outcome: string, now: int)
    requires NextStage(edges, OrEmpty(t.currentStage), outcome).None?
    ensures Reviewed(t, stages, edges, outcome, now) == t
  {
  }

  /**
   * A review with an edge moves the task to that edge's target (the first
   * matching edge); a terminal target makes it done with no assignee;
   * requested changes to a non-terminal stage hand it back to its DRI.
   */
  lemma ReviewFollowsEdge(t: Task, stages: seq<Stage>, edges: seq<Edge>, outcome: string, now: int)
    requires HasWorkflow(t) && Transition(edges, OrEmpty(t.currentStage), outcome) != ""
    ensures var to := Transition(edges, OrEmpty(t.currentStage), outcome);
      var r := Reviewed(t, stages, edges, outcome, now);
      NextStage(edges, OrEmpty(t.currentStage), outcome) == Some(to) && r.currentStage == Some(to) && r.workflowId == t.workflowId &&
      (IsTerminalStage(stages, to) ==> r.status == StatusDone && r.assignee.None?) &&
      (!IsTerminalStage(stages, to) && outcome == ReworkOutcome && OrEmpty(t.dri) != "" ==>
         r.status == StatusInProgress && r.assignee == t.dri) &&
      (!IsTerminalStage(stages, to) && !(outcome == ReworkOutcome && OrEmpty(t.dri) != "") ==>
         r.status == t.status && r.assignee == t.assignee)
  {
  }

  /** In the default workflow, requested changes at review go back to Coding with the DRI, and approval goes on to InApproval. */
  lemma DefaultReviewOutcomes(t: Task, stages: seq<Stage>, edges: seq<Edge>, now: int)
    requires stages == DefaultStages && edges == DefaultEdges
    requires HasWorkflow(t) && t.currentStage == Some(InReviewStage) && OrEmpty(t.dri) != ""
    ensures var r := Reviewed(t, stages, edges, ReworkOutcome, now);
      r.currentStage == Some("Coding") && r.status == StatusInProgress && r.assignee == t.dri
    ensures Reviewed(t, stages, edges, "approved", now).currentStage == Some("InApproval")
  {
    FirstMatchWins(edges, 3, InReviewStage, ReworkOutcome);
    FirstMatchWins(edges, 2, InReviewStage, "approved");
    DefaultDoneIsSink("");
    assert !IsTerminalStage(stages, "Coding") && !IsTerminalStage(stages, "InApproval");
    ReviewFollowsEdge(t, stages, edges, ReworkOutcome, now);
    ReviewFollowsEdge(t, stages, edges, "approved", now);
  }

  /**
   * `SubmitReview`: the review is recorded first, and a recording error
   * aborts; then the team's task, if any, is moved as `Reviewed` says.
   */
  method SubmitReview(s: Store, team: string, id: int, reviewer: string, outcome: string, comments: string) returns (err: Error)
    requires s.Valid()
    modifies s
    ensures s.Valid()
    ensures err.Some? <==> !s.HasTeam(team)
    ensures err.Some? ==> s.reviews == old(s.reviews) && s.tasks == old(s.tasks)
    ensures err.None? ==> s.reviews == old(s.reviews) + [Review(id, team, reviewer, outcome, comments, old(s.now))]
    ensures err.None? && old(s.HasTeamTask(team, id)) ==>
      var t := old(s.tasks)[id - 1];
      s.tasks == old(s.tasks)[id - 1 := Reviewed(t, old(s.StagesOf(OrEmpty(t.workflowId))), old(s.EdgesOf(OrEmpty(t.workflowId))), outcome, old(s.now))]
    ensures !old(s.HasTeamTask(team, id)) ==> s.tasks == old(s.tasks)
    ensures s.now == old(s.now) && s.messages == old(s.messages) && s.allowlist == old(s.allowlist) && s.workflows == old(s.workflows)
    ensures s.teams == old(s.teams) && s.agents == old(s.agents) && s.repos == old(s.repos)
  {
    err := s.CreateTaskReview(team, id, reviewer, outcome, comments);
    if err.Some? {
      return err;
    }
    ApplyReview(s, team, id, outcome);
  }

  /** The second half of `SubmitReview`: the team's task, if any, moves as `Reviewed` says. */
  method ApplyReview(s: Store, team: string, id: int, outcome: string)
    requires s.Valid() && s.HasTeam(team)
    modifies s
    ensures s.Valid()
    ensures old(s.HasTeamTask(team, id)) ==>
      var t := old(s.tasks)[id - 1];
      s.tasks == old(s.tasks)[id - 1 := Reviewed(t, old(s.StagesOf(OrEmpty(t.workflowId))), old(s.EdgesOf(OrEmpty(t.workflowId))), outcome, old(s.now))]
    ensures !old(s.HasTeamTask(team, id)) ==> s.tasks == old(s.tasks)
    ensures s.reviews == old(s.reviews)
    ensures s.now == old(s.now) && s.messages == old(s.messages) && s.allowlist == old(s.allowlist) && s.workflows == old(s.workflows)
    ensures s.teams == old(s.teams) && s.agents == old(s.agents) && s.repos == old(s.repos)
  {
    var found := s.GetTaskByIDAndTeam(team, id);
    if found.Err? || found.value.None? || !HasWorkflow(found.value.value) {
      assert found.Ok? && found.value.Some? ==> s.tasks[id - 1 := found.value.value] == s.tasks;
      return;
    }
    var task := found.value.value;
    var wf := task.workflowId.value;
    ghost var stages := s.StagesOf(wf);
    ghost var edges := s.EdgesOf(wf);
    var to := Transition(s.EdgesOf(wf), OrEmpty(task.currentStage), outcome);
    if to == "" {
      assert s.tasks[id - 1 := task] == s.tasks;
      return;
    }
    MoveReviewed(s, task, wf, to, outcome, stages, edges);
  }

  /** The writes of a review with an edge: the stage, then the hand-back to the DRI, then done at a terminal stage. */
  method MoveReviewed(s: Store, task: Task, wf: string, to: string, outcome: string, ghost stages: seq<Stage>, ghost edges: seq<Edge>)
    requires s.Valid() && s.HasTask(task.id) && s.tasks[task.id - 1] == task && HasWorkflow(task) && wf == task.workflowId.value
    requires stages == s.StagesOf(wf) && edges == s.EdgesOf(wf) && to == Transition(edges, OrEmpty(task.currentStage), outcome) && to != ""
    modifies s
    ensures s.Valid()
    ensures s.tasks == old(s.tasks)[task.id - 1 := Reviewed(task, stages, edges, outcome, old(s.now))]
    ensures s.reviews == old(s.reviews)
    ensures s.now == old(s.now) && s.messages == old(s.messages) && s.allowlist == old(s.allowlist) && s.workflows == old(s.workflows)
    ensures s.teams == old(s.teams) && s.agents == old(s.agents) && s.repos == old(s.repos)
  {
    ghost var rows, i, now := s.tasks, task.id - 1, s.now;
    ghost var moved := task.(workflowId := Some(task.workflowId.value), currentStage := Some(to), updatedAt := now);
    s.SetTaskWorkflowAndStage(task.id, wf, to);
    assert s.tasks == rows[i := moved];
    ghost var back := if outcome == ReworkOutcome && OrEmpty(task.dri) != "" then Updated(moved, StatusInProgress, task.dri, now) else moved;
    if outcome == ReworkOutcome && task.dri.Some? && task.dri.value != "" {
      s.UpdateTask(task.id, StatusInProgress, task.dri);
    }
    assert s.tasks == rows[i := back];
    assert s.StagesOf(wf) == stages;
    if IsTerminalStage(s.StagesOf(wf), to) {
      s.UpdateTask(task.id, StatusDone, None);
    }
  }
}
