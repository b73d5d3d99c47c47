/**
 * The scheduler's per-task decisions: who a runnable task is assigned to,
 * the `task_update` event it publishes, and its concurrency default.  The
 * ticker, the goroutines and the semaphore are not modelled.
 */
module Scheduler {
  import opened Wrappers
  import opened GoStrings
  import opened Models
  import opened TaskStore
  import opened AgentPool
  import opened Events

  /** `max <= 0` falls back to `DefaultSchedulerChanSize`. */
  function ConcurrencyLimit(max: int): (r: int)
    ensures r > 0
    ensures max > 0 ==> r == max
    ensures max <= 0 ==> r == DefaultSchedulerChanSize
  {
    if max <= 0 then DefaultSchedulerChanSize else max
  }

  /** Agents with the manager role. */
  function IsManager(): Agent -> bool {
    (a: Agent) => a.role == RoleManager
  }

  /** Agents whose name is in a pool. */
  function InPool(pool: set<string>): Agent -> bool {
    (a: Agent) => a.name in pool
  }

  /** The first manager of a non-empty list, else its first agent. */
  function ManagerOrFirst(agents: seq<Agent>): (r: string)
    requires agents != []
    ensures exists k :: 0 <= k < |agents| && r == agents[k].name
    ensures (forall k :: 0 <= k < |agents| ==> agents[k].role != RoleManager) ==> r == agents[0].name
    ensures (exists k :: 0 <= k < |agents| && agents[k].role == RoleManager) ==>
      exists k :: 0 <= k < |agents| && agents[k].role == RoleManager && r == agents[k].name &&
        forall j :: 0 <= j < k ==> agents[j].role != RoleManager
  {
    match FirstWhere(agents, IsManager())
    case Some(a) => a.name
    case None => agents[0].name
  }

  /** Does this stage, named like the task's current stage, offer candidates? */
  predicate OffersCandidates(s: Stage, stage: string) {
    s.name == stage && TrimSpace(s.candidates) != ""
  }

  /** The agents, in list order, in the candidate pool of `s`. */
  function Candidates(agents: seq<Agent>, s: Stage): seq<Agent> {
    Filter(agents, InPool(Pool(s.candidates)))
  }

  /** The candidates of a stage are the agents whose name is in its trimmed pool. */
  lemma CandidatesMembers(agents: seq<Agent>, s: Stage)
    ensures forall a :: a in Candidates(agents, s) <==> a in agents && a.name in Pool(s.candidates)
  {
    FilterMembers(agents, InPool(Pool(s.candidates)));
  }

  /**
   * The pool choice: at the first stage named `stage` with a non-blank pool
   * that holds an agent, the first manager in the pool, else its first agent.
   */
  function PoolAssignee(stages: seq<Stage>, agents: seq<Agent>, stage: string): Option<string>
    decreases |stages|
  {
    if stages == [] then None
    else if OffersCandidates(stages[0], stage) && Candidates(agents, stages[0]) != [] then
      Some(ManagerOrFirst(Candidates(agents, stages[0])))
    else PoolAssignee(stages[1..], agents, stage)
  }

  /** Does stage `s` offer candidates for `stage` and hold one of the agents? */
  predicate Offers(s: Stage, agents: seq<Agent>, stage: string) {
    OffersCandidates(s, stage) && Candidates(agents, s) != []
  }

  /** The index of the first stage that offers an agent for `stage`, or `|stages|`. */
  function FirstOffer(stages: seq<Stage>, agents: seq<Agent>, stage: string): (i: nat)
    ensures i <= |stages|
    ensures forall j :: 0 <= j < i ==> !Offers(stages[j], agents, stage)
    ensures i < |stages| ==> Offers(stages[i], agents, stage)
    decreases |stages|
  {
    if stages == [] then 0
    else if Offers(stages[0], agents, stage) then 0
    else 1 + FirstOffer(stages[1..], agents, stage)
  }

  /** The pool choice is the one made at the first offering stage. */
  lemma {:induction false} PoolAssigneeIsFirstOffer(stages: seq<Stage>, agents: seq<Agent>, stage: string)
    ensures var i := FirstOffer(stages, agents, stage);
      PoolAssignee(stages, agents, stage) == if i < |stages| then Some(ManagerOrFirst(Candidates(agents, stages[i]))) else None
    decreases |stages|
  {
    if stages != [] && !Offers(stages[0], agents, stage) {
      PoolAssigneeIsFirstOffer(stages[1..], agents, stage);
      var i := FirstOffer(stages[1..], agents, stage);
      if i < |stages[1..]| {
        assert stages[1..][i] == stages[i + 1];
      }
    }
  }

  /**
   * The pool choice is made exactly when some stage named `stage` has a
   * non-blank pool holding an agent, and it is made at the first of them.
   */
  lemma PoolAssigneeAtFirstStage(stages: seq<Stage>, agents: seq<Agent>, stage: string)
    ensures var r := PoolAssignee(stages, agents, stage);
      (r.None? <==> forall i :: 0 <= i < |stages| && OffersCandidates(stages[i], stage) ==> Candidates(agents, stages[i]) == []) &&
      (r.Some? ==> exists i :: (0 <= i < |stages| && OffersCandidates(stages[i], stage) &&
        Candidates(agents, stages[i]) != [] && r.value == ManagerOrFirst(Candidates(agents, stages[i])) &&
        forall j :: 0 <= j < i && OffersCandidates(stages[j], stage) ==> Candidates(agents, stages[j]) == []))
  {
    PoolAssigneeIsFirstOffer(stages, agents, stage);
    var i := FirstOffer(stages, agents, stage);
    if i < |stages| {
      assert Offers(stages[i], agents, stage);
    }
  }

  /** Is the pool consulted: a non-empty workflow id and a non-empty current stage. */
  predicate UsesPool(task: Task) {
    HasWorkflow(task) && task.currentStage.Some? && task.currentStage.value != ""
  }

  /** `pickAssignee`: the pool choice when the pool is consulted and yields one, else the first manager, else the first agent. */
  function Assignee(task: Task, stages: seq<Stage>, agents: seq<Agent>): string
    requires agents != []
  {
    var pooled := if UsesPool(task) then PoolAssignee(stages, agents, task.currentStage.value) else None;
    if pooled.Some? then pooled.value else ManagerOrFirst(agents)
  }

  /**
   * The assignee is always one of the agents' names; a pooled one is in the
   * pool of a stage named like the task's current stage.
   */
  lemma AssigneeIsAgent(task: Task, stages: seq<Stage>, agents: seq<Agent>)
    requires agents != []
    ensures exists k :: 0 <= k < |agents| && Assignee(task, stages, agents) == agents[k].name
    ensures UsesPool(task) && PoolAssignee(stages, agents, task.currentStage.value).Some? ==>
      exists i :: 0 <= i < |stages| && stages[i].name == task.currentStage.value && Assignee(task, stages, agents) in Pool(stages[i].candidates)
  {
    var r := Assignee(task, stages, agents);
    if UsesPool(task) {
      PoolAssigneeAtFirstStage(stages, agents, task.currentStage.value);
    }
    if UsesPool(task) && PoolAssignee(stages, agents, task.currentStage.value).Some? {
      var i :| 0 <= i < |stages| && OffersCandidates(stages[i], task.currentStage.value) &&
        Candidates(agents, stages[i]) != [] && r == ManagerOrFirst(Candidates(agents, stages[i]));
      var c := Candidates(agents, stages[i]);
      var k :| 0 <= k < |c| && r == c[k].name;
      CandidatesMembers(agents, stages[i]);
      assert c[k] in c;
      var j :| 0 <= j < |agents| && agents[j] == c[k];
      assert r == agents[j].name;
    } else {
      var k :| 0 <= k < |agents| && r == agents[k].name;
    }
  }

  /**
   * Without a pool to consult, or when no pool of a stage named like the
   * current one holds an agent, the choice is the first manager, else the
   * first agent.
   */
  lemma AssigneeWithoutPool(task: Task, stages: seq<Stage>, agents: seq<Agent>)
    requires agents != []
    requires !UsesPool(task) ||
      forall i, k :: 0 <= i < |stages| && 0 <= k < |agents| && OffersCandidates(stages[i], task.currentStage.value) ==>
        agents[k].name !in Pool(stages[i].candidates)
    ensures Assignee(task, stages, agents) == ManagerOrFirst(agents)
  {
    if UsesPool(task) {
      forall i | 0 <= i < |stages| && OffersCandidates(stages[i], task.currentStage.value)
        ensures Candidates(agents, stages[i]) == []
      {
        FilterHead(agents, InPool(Pool(stages[i].candidates)));
      }
      PoolAssigneeAtFirstStage(stages, agents, task.currentStage.value);
    }
  }

  /** A task with workflow `w` at stage `stage`, as the scheduler reads it. */
  function StagedTask(w: string, stage: string): Task {
    Task(1, "team1", "Task", StatusTodo, None, None, 0, Some(w), Some(stage), None, None, None, None, 0, 0)
  }

  /** Without a workflow the manager is chosen over an earlier-listed engineer, and the first agent without a manager. */
  lemma ManagerFirstExamples()
    ensures Assignee(StagedTask("", ""), [], [Agent("bob", RoleEngineer), Agent("alice", RoleManager)]) == "alice"
    ensures Assignee(StagedTask("", ""), [], [Agent("bob", RoleEngineer), Agent("carol", RoleEngineer)]) == "bob"
  {
    var a1 := [Agent("bob", RoleEngineer), Agent("alice", RoleManager)];
    assert a1[1].role == RoleManager && a1[0].role != RoleManager;
  }

  /** When every agent is named in a stage's comma-separated list, all of them are its candidates. */
  lemma AllCandidates(agents: seq<Agent>, s: Stage, names: seq<string>)
    requires names != [] && s.candidates == Join(names, [','])
    requires forall k :: 0 <= k < |names| ==> ',' !in names[k]
    requires forall k :: 0 <= k < |names| ==> names[k] == [] || (!IsSpace(names[k][0]) && !IsSpace(names[k][|names[k]| - 1]))
    requires forall k :: 0 <= k < |agents| ==> agents[k].name in names
    ensures Candidates(agents, s) == agents
  {
    PoolOfNames(names);
    forall k | 0 <= k < |agents|
      ensures InPool(Pool(s.candidates))(agents[k])
    {
      var j :| 0 <= j < |names| && names[j] == agents[k].name;
    }
    FilterAll(agents, InPool(Pool(s.candidates)));
  }

  /** `pickAssignee`, scanning the stages, building each pool, collecting and then searching the candidates. */
  method PickAssignee(s: Store, team: string, task: Task, agents: seq<Agent>) returns (name: string)
    requires agents != []
    ensures name == Assignee(task, if UsesPool(task) then s.StagesOf(task.workflowId.value) else [], agents)
  {
    if UsesPool(task) {
      var stages := s.StagesOf(task.workflowId.value);
      var current := task.currentStage.value;
      var i := 0;
      while i < |stages|
        invariant 0 <= i <= |stages|
        invariant PoolAssignee(stages, agents, current) == PoolAssignee(stages[i..], agents, current)
      {
        assert stages[i..][1..] == stages[i + 1..];
        if stages[i].name == current && TrimSpace(stages[i].candidates) != "" {
          var pool := BuildPool(stages[i].candidates);
          var candidates := FilterAgents(agents, InPool(pool));
          if |candidates| > 0 {
            var manager := FindFirst(candidates, IsManager());
            if manager.Some? {
              return manager.value.name;
            }
            return candidates[0].name;
          }
        }
        i := i + 1;
      }
    }
    var manager := FindFirst(agents, IsManager());
    if manager.Some? {
      return manager.value.name;
    }
    return agents[0].name;
  }

  /** The `task_update` payload: type, team, task id and status, and the assignee only when there is one. */
  function TaskUpdate(team: string, id: int, status: string, assignee: Option<string>): (p: Payload)
    ensures p.Keys == {"type", "team", "task_id", "status"} + (if assignee.Some? then {"assignee"} else {})
    ensures p["type"] == Str(TaskUpdateType) && p["team"] == Str(team) && p["task_id"] == Int(id) && p["status"] == Str(status)
    ensures assignee.Some? ==> p["assignee"] == Str(assignee.value)
  {
    var p := map["type" := Str(TaskUpdateType), "team" := Str(team), "task_id" := Int(id), "status" := Str(status)];
    if assignee.Some? then p["assignee" := Str(assignee.value)] else p
  }

  /** `publishTaskUpdate`, adding the assignee to the payload when there is one. */
  method PublishTaskUpdate(hub: Hub, team: string, id: int, status: string, assignee: Option<string>)
    modifies hub
    ensures hub.published == old(hub.published) + [TaskUpdate(team, id, status, assignee)]
  {
    var payload: Payload := map["type" := Str(TaskUpdateType), "team" := Str(team), "task_id" := Int(id), "status" := Str(status)];
    if assignee.Some? {
      payload := payload["assignee" := Str(assignee.value)];
    }
    hub.Publish(payload);
  }
}
