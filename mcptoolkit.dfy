/**
 * The tool methods an agent is given: every call is bound to the toolkit's
 * agent and team, so an agent cannot create tasks in, or send messages from,
 * another identity.  Each method defaults one argument and delegates to the
 * store.
 */
module McpToolkit {
  import opened Wrappers
  import opened Models
  import opened StoreSpec
  import opened TaskStore

  datatype Toolkit = Toolkit(agentName: string, teamName: string)
  {
    /** The task list limit: a non-positive one is `DefaultMCPTaskLimit`. */
    function TaskLimit(limit: int): (r: int)
      ensures r > 0
      ensures limit > 0 ==> r == limit
      ensures limit <= 0 ==> r == DefaultMCPTaskLimit
    {
      if limit <= 0 then DefaultMCPTaskLimit else limit
    }

    /** The message list limit: a non-positive one is `DefaultMCPMessageLimit`. */
    function MessageLimit(limit: int): (r: int)
      ensures r > 0
      ensures limit > 0 ==> r == limit
      ensures limit <= 0 ==> r == DefaultMCPMessageLimit
    {
      if limit <= 0 then DefaultMCPMessageLimit else limit
    }

    /** `CreateTask`: in the toolkit's team, todo, with no workflow and no assignee. */
    method CreateTask(s: Store, title: string) returns (id: int, err: Error)
      requires s.Valid()
      modifies s
      ensures s.Valid()
      ensures err.Some? <==> !old(s.HasTeam(teamName)) || title == ""
      ensures err.Some? ==> s.tasks == old(s.tasks)
      ensures err.None? ==> id == |old(s.tasks)| + 1 && |s.tasks| == id && s.tasks[..id - 1] == old(s.tasks)
      ensures err.None? ==> var t := s.tasks[id - 1];
        t.team == teamName && t.title == title && t.status == StatusTodo &&
        t.assignee.None? && t.workflowId.None? && t.currentStage.None?
      ensures s.messages == old(s.messages) && s.workflows == old(s.workflows) && s.teams == old(s.teams)
    {
      id, err := s.CreateTask(teamName, title, StatusTodo, None);
    }

    /** `SendMessage`: from the toolkit's agent, in its team, to any recipient. */
    method SendMessage(s: Store, recipient: string, content: string) returns (id: int, err: Error)
      requires s.Valid()
      modifies s
      ensures s.Valid()
      ensures err.Some? <==> !old(s.HasTeam(teamName))
      ensures err.Some? ==> s.messages == old(s.messages)
      ensures err.None? ==> s.messages == old(s.messages) + [Message(id, teamName, agentName, recipient, content, s.now)]
      ensures s.tasks == old(s.tasks) && s.workflows == old(s.workflows) && s.teams == old(s.teams)
    {
      id, err := s.CreateMessage(teamName, agentName, recipient, content);
    }

    /** `ListTasks`: the team's tasks newest first, at most `DefaultMCPTaskLimit` of them when no positive limit is given. */
    method ListTasks(s: Store, limit: int) returns (r: Result<seq<Task>>)
      requires s.Valid()
      ensures r.Err? <==> !s.HasTeam(teamName)
      ensures r.Ok? ==> r.value == Take(TeamNewestFirst(s.tasks, teamName), TaskCap(s.backend, TaskLimit(limit)))
      ensures r.Ok? ==> forall t :: t in r.value ==> t in s.tasks && t.team == teamName
      ensures r.Ok? && limit <= 0 ==> |r.value| <= DefaultMCPTaskLimit
    {
      r := s.ListTasks(teamName, TaskLimit(limit));
      if r.Ok? {
        forall t | t in r.value
          ensures t in s.tasks && t.team == teamName
        {
          assert t in TeamNewestFirst(s.tasks, teamName);
        }
      }
    }

    /** `ListMessages`: the recipient is passed through; at most `DefaultMCPMessageLimit` messages when no positive limit is given. */
    method ListMessages(s: Store, recipient: string, limit: int) returns (r: Result<seq<Message>>)
      requires s.Valid()
      ensures r.Err? <==> !s.HasTeam(teamName)
      ensures r.Ok? ==> r.value == Take(InboxNewestFirst(s.messages, teamName, recipient), MessageCap(MessageLimit(limit)))
      ensures r.Ok? ==> forall m :: m in r.value ==> m in s.messages && m.team == teamName && (recipient == "" || m.recipient == recipient)
      ensures r.Ok? && limit <= 0 ==> |r.value| <= DefaultMCPMessageLimit
    {
      r := s.ListMessages(teamName, recipient, MessageLimit(limit));
      if r.Ok? {
        forall m | m in r.value
          ensures m in s.messages && InInbox(m, teamName, recipient)
        {
          assert m in InboxNewestFirst(s.messages, teamName, recipient);
        }
      }
    }
  }

  /** The toolkit's own test: `alice` in `team1` creates "New task", which is todo with no workflow. */
  method CreateTaskExample(s: Store) returns (id: int)
    requires s.Valid() && s.HasTeam("team1")
    modifies s
    ensures id > 0 && s.HasTeamTask("team1", id)
    ensures s.tasks[id - 1].title == "New task" && s.tasks[id - 1].status == StatusTodo
  {
    var tk := Toolkit("alice", "team1");
    var err;
    id, err := tk.CreateTask(s, "New task");
  }
}
