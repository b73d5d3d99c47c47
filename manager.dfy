/**
 * The rule-based manager: it reacts to `task_update` events by creating a
 * follow-up review task for every task that is done, offers small helpers to
 * create, advance and assign tasks, and answers the messages in its inbox,
 * either by running a `/shell` command, by creating a task from a request,
 * or by acknowledging.  Running the shell command is a parameter of the
 * model; the subscription and polling loops are not modelled.
 */
module Manager {
  import opened Wrappers
  import opened GoStrings
  import opened Models
  import opened StoreSpec
  import opened TaskStore
  import opened Events
  import SandboxDeny
  import Scheduler

  const ManagerRecipient := "manager"
  /** The inbox poll interval in nanoseconds when none is configured. */
  const InboxPollInterval := 5 * 1_000_000_000
  const ReviewPrefix := "Review: "
  const ShellPrefix := "/shell "
  const ShellCommand := "/shell"
  const UsageReply := "usage: /shell <command>"
  const NotAllowedReply := "error: command not allowed"
  const AckPrefix := "Got: "
  const CreatedPrefix := "Created task #"
  const ErrorPrefix := "error: "

  /** `PollInbox`'s recipient and interval: empty or non-positive ones fall back to the defaults. */
  function PollSettings(recipient: string, interval: int): (r: (string, int))
    ensures r.0 != "" && r.1 > 0
    ensures recipient != "" ==> r.0 == recipient
    ensures recipient == "" ==> r.0 == ManagerRecipient
    ensures interval > 0 ==> r.1 == interval
    ensures interval <= 0 ==> r.1 == InboxPollInterval
  {
    (if recipient == "" then ManagerRecipient else recipient, if interval <= 0 then InboxPollInterval else interval)
  }

  // ---------------------------------------------------------------- events

  /** The fields of a `task_update` event the manager acts on. */
  datatype TaskEvent = TaskEvent(team: string, id: int, status: string)

  /** `payload[k].(string)`: the string value of a field, `""` when absent or not a string. */
  function StrField(p: Payload, k: string): string {
    if k in p && p[k].Str? then p[k].s else ""
  }

  /**
   * The reading `handleEvent` makes of an event: a `task_update` with a
   * non-empty team and a task id that is a float (truncated) or an integer.
   */
  function ParseTaskEvent(p: Payload): (r: Option<TaskEvent>)
    ensures r.Some? <==> StrField(p, "type") == TaskUpdateType && StrField(p, "team") != "" && "task_id" in p && (p["task_id"].Int? || p["task_id"].Float?)
    ensures r.Some? ==> r.value.team == StrField(p, "team") && r.value.status == StrField(p, "status")
    ensures r.Some? && p["task_id"].Int? ==> r.value.id == p["task_id"].i
  {
    if StrField(p, "type") != TaskUpdateType then None
    else if "task_id" !in p || StrField(p, "team") == "" then None
    else match p["task_id"]
      case Float(x) => Some(TaskEvent(StrField(p, "team"), Truncate(x), StrField(p, "status")))
      case Int(i) => Some(TaskEvent(StrField(p, "team"), i, StrField(p, "status")))
      case _ => None
  }

  /**
   * The scheduler's `task_update` payload, sent through the hub and decoded
   * as JSON, reads back as the team, task id and status it was built from.
   */
  lemma TaskUpdateReadsBack(team: string, id: int, status: string, assignee: Option<string>)
    requires team != ""
    ensures var p := Scheduler.TaskUpdate(team, id, status, assignee);
      ParseTaskEvent(Decoded(p)) == Some(TaskEvent(team, id, status)) &&
      ParseTaskEvent(p) == Some(TaskEvent(team, id, status))
  {
    var p := Scheduler.TaskUpdate(team, id, status, assignee);
    var d := Decoded(p);
    assert StrField(d, "type") == TaskUpdateType && StrField(d, "team") == team && StrField(d, "status") == status;
    assert d["task_id"] == Float(id as real);
    TruncateOfInt(id);
  }

  /** The task a done event asks a follow-up for: a `task_update` with status done of a task the team has. */
  function FollowUpOf(s: Store, p: Payload): (r: Option<Task>)
    reads s
    ensures r.Some? ==> (ParseTaskEvent(p).Some? && ParseTaskEvent(p).value.status == StatusDone &&
      s.HasTeam(ParseTaskEvent(p).value.team) && s.HasTeamTask(ParseTaskEvent(p).value.team, ParseTaskEvent(p).value.id) &&
      r.value == s.tasks[ParseTaskEvent(p).value.id - 1])
    ensures r.None? ==> (ParseTaskEvent(p).None? || ParseTaskEvent(p).value.status != StatusDone ||
      !s.HasTeam(ParseTaskEvent(p).value.team) || !s.HasTeamTask(ParseTaskEvent(p).value.team, ParseTaskEvent(p).value.id))
  {
    match ParseTaskEvent(p)
    case None => None
    case Some(e) =>
      if e.status != StatusDone then None
      else match s.GetTaskByIDAndTeam(e.team, e.id)
        case Ok(Some(t)) => Some(t)
        case _ => None
  }

  /** The Slack text announcing a follow-up. */
  function Notice(title: string, id: int): string {
    "Task completed: " + title + " (follow-up Review task #" + Itoa(id) + " created)"
  }

  /**
   * `handleEvent`: for a done task of the team, one `Review: <title>` task,
   * todo, in the team's default workflow, and a `task_update` event without
   * status for it; the Slack notice it would send is returned.  Any other
   * event, a failed task included, changes nothing.
   */
  method HandleEvent(s: Store, hub: Hub, p: Payload) returns (created: Option<int>, notice: Option<string>)
    requires s.Valid()
    modifies s, hub
    ensures s.Valid()
    ensures old(FollowUpOf(s, p)).None? ==> created.None? && notice.None? && s.tasks == old(s.tasks) && hub.published == old(hub.published)
    ensures old(FollowUpOf(s, p)).Some? ==>
      var done := old(FollowUpOf(s, p)).value;
      var team := ParseTaskEvent(p).value.team;
      created == Some(|old(s.tasks)| + 1) &&
      s.tasks == old(s.tasks) + [old(s.NewTask(|s.tasks| + 1, team, ReviewPrefix + done.title, StatusTodo, DefaultWorkflow(s, team)))] &&
      hub.published == old(hub.published) + [map["type" := Str(TaskUpdateType), "team" := Str(team), "task_id" := Int(created.value)]] &&
      notice == Some(Notice(done.title, created.value))
    ensures s.now == old(s.now) && s.messages == old(s.messages) && s.allowlist == old(s.allowlist) && s.workflows == old(s.workflows)
    ensures s.teams == old(s.teams) && s.reviews == old(s.reviews) && s.agents == old(s.agents) && s.repos == old(s.repos)
  {
    created, notice := None, None;
    var e := ParseTaskEvent(p);
    if e.None? {
      return;
    }
    var team := e.value.team;
    if e.value.status == StatusDone {
      var got := s.GetTaskByIDAndTeam(team, e.value.id);
      if got.Err? || got.value.None? {
        return;
      }
      var title := ReviewPrefix + got.value.value.title;
      var wf := CreateTaskForTeam(s, team, title, StatusTodo);
      var id, err := wf.0, wf.1;
      if err.Some? {
        assert false;
        return;
      }
      created := Some(id);
      hub.Publish(map["type" := Str(TaskUpdateType), "team" := Str(team), "task_id" := Int(id)]);
      notice := Some(Notice(got.value.value.title, id));
    }
  }

  // ----------------------------------------------------------- task helpers

  /** The statuses `AdvanceTask` sets. */
  const AdvanceStatuses: set<string> := {StatusTodo, StatusInProgress, StatusDone, StatusFailed, StatusCancelled}

  /** `AdvanceTask`: an allowed status (and the assignee) is written; any other status is a no-op; never an error. */
  method AdvanceTask(s: Store, id: int, status: string, assignee: Option<string>) returns (err: Error)
    requires s.Valid()
    modifies s
    ensures s.Valid() && err.None?
    ensures status in AdvanceStatuses && old(s.HasTask(id)) ==>
      s.tasks == old(s.tasks)[id - 1 := Updated(old(s.tasks)[id - 1], status, assignee, old(s.now))]
    ensures status !in AdvanceStatuses || !old(s.HasTask(id)) ==> s.tasks == old(s.tasks)
    ensures s.now == old(s.now) && s.messages == old(s.messages) && s.allowlist == old(s.allowlist) && s.workflows == old(s.workflows)
    ensures s.teams == old(s.teams) && s.reviews == old(s.reviews) && s.agents == old(s.agents) && s.repos == old(s.repos)
  {
    if status !in AdvanceStatuses {
      return None;
    }
    s.UpdateTask(id, status, assignee);
    return None;
  }

  /** `AssignTask`: the assignee changes and the status stays. */
  method AssignTask(s: Store, team: string, id: int, assignee: string)
    requires s.Valid()
    modifies s
    ensures s.Valid()
    ensures old(s.HasTask(id)) ==> (|s.tasks| == |old(s.tasks)| && s.tasks[id - 1].assignee == Some(assignee) &&
      s.tasks[id - 1].status == old(s.tasks)[id - 1].status &&
      forall k :: 0 <= k < |s.tasks| && k != id - 1 ==> s.tasks[k] == old(s.tasks)[k])
    ensures !old(s.HasTask(id)) ==> s.tasks == old(s.tasks)
    ensures s.now == old(s.now) && s.messages == old(s.messages) && s.allowlist == old(s.allowlist) && s.workflows == old(s.workflows)
    ensures s.teams == old(s.teams) && s.reviews == old(s.reviews) && s.agents == old(s.agents) && s.repos == old(s.repos)
  {
    s.UpdateTask(id, "", Some(assignee));
  }

  /**
   * `CreateTaskForTeam`: an empty status is todo, and the team's default
   * workflow is attached when it has one.
   */
  method CreateTaskForTeam(s: Store, team: string, title: string, status: string) returns (r: (int, Error))
    requires s.Valid()
    modifies s
    ensures s.Valid()
    ensures r.1.Some? <==> !old(s.HasTeam(team)) || title == ""
    ensures r.1.Some? ==> s.tasks == old(s.tasks)
    ensures r.1.None? ==> (r.0 == |old(s.tasks)| + 1 &&
      s.tasks == old(s.tasks) + [old(s.NewTask(|s.tasks| + 1, team, title, if status == "" then StatusTodo else status, DefaultWorkflow(s, team)))])
    ensures s.now == old(s.now) && s.messages == old(s.messages) && s.allowlist == old(s.allowlist) && s.workflows == old(s.workflows)
    ensures s.teams == old(s.teams) && s.reviews == old(s.reviews) && s.agents == old(s.agents) && s.repos == old(s.repos)
  {
    var w := s.GetWorkflowIDByTeamAndName(team, DefaultWorkflowName, 1);
    var wf: Option<string> := None;
    if w.Ok? && w.value != "" {
      wf := Some(w.value);
    }
    assert wf == DefaultWorkflow(s, team);
    var st := if status == "" then StatusTodo else status;
    var id, err := s.CreateTask(team, title, st, wf);
    return (id, err);
  }

  // ------------------------------------------------------------------ inbox

  /**
   * What the manager does with a message: run a shell command, answer a
   * `/shell` request without running it, acknowledge, or create a task.
   */
  datatype Action = RunShell(cmd: string) | ShellReply(body: string) | Reply(body: string) | CreateTask(title: string)

  /** A `/shell` command line: usage without one, a refusal for a blocked one, else it runs. */
  function ShellAction(cmd: string): Action {
    if cmd == "" then ShellReply(UsageReply)
    else if SandboxDeny.BlockedShellCommand(cmd) then ShellReply(NotAllowedReply)
    else RunShell(cmd)
  }

  /**
   * The decision for content that is not a `/shell` request: a task for a
   * request longer than ten bytes (Go's `len`) that is not a command, else an
   * acknowledgement.
   */
  function DefaultAction(c: string): Action {
    if Utf8Len(c) > 10 && !HasPrefix(c, "/") then CreateTask(c) else Reply(AckPrefix + c)
  }

  /** `handleInboxMessage`'s decision as written: only `/shell ` followed by something is a shell request. */
  function InboxActionAsWritten(content: string): Action {
    var c := TrimSpace(content);
    if HasPrefix(c, ShellPrefix) then ShellAction(TrimSpace(c[|ShellPrefix|..]))
    else DefaultAction(c)
  }

  /**
   * As written, the usage reply can never be given: trimmed content that
   * starts with `/shell ` does not end in white space, so the command after
   * the prefix is never blank.
   */
  lemma UsageUnreachableAsWritten(content: string)
    ensures InboxActionAsWritten(content) != ShellReply(UsageReply)
  {
    var c := TrimSpace(content);
    if HasPrefix(c, ShellPrefix) {
      assert c[6] == ' ';
      var rest := c[|ShellPrefix|..];
      assert |rest| > 0 && rest[|rest| - 1] == c[|c| - 1];
      assert TrimSpace(rest) != [];
      assert UsageReply != NotAllowedReply by {
        assert UsageReply[0] != NotAllowedReply[0];
      }
    }
  }

  /** The bare command, as written, is acknowledged instead of answered with the usage. */
  lemma BareShellAcknowledgedAsWritten()
    ensures InboxActionAsWritten(ShellCommand) == Reply(AckPrefix + ShellCommand)
  {
    TrimSpaceFixed(ShellCommand);
  }

  /** Is trimmed content a `/shell` request: the bare command, or the command followed by a space. */
  predicate IsShellRequest(c: string) {
    c == ShellCommand || HasPrefix(c, ShellPrefix)
  }

  /**
   * The decision with the bare `/shell` command treated as a shell request
   * with a blank command line, so that it is answered with the usage.
   */
  function InboxAction(content: string): Action {
    var c := TrimSpace(content);
    if c == ShellCommand then ShellAction("")
    else InboxActionAsWritten(content)
  }

  /**
   * The corrected decision runs only a non-blank command that is not
   * blocked, answers every other `/shell` request itself, creates a task for
   * long content that is not a command, and acknowledges the rest.
   */
  lemma InboxActionMeaning(content: string)
    ensures var a := InboxAction(content); var c := TrimSpace(content);
      (a.RunShell? || a.ShellReply? <==> IsShellRequest(c)) &&
      (a.RunShell? ==> (a.cmd != "" && !SandboxDeny.BlockedShellCommand(a.cmd) && HasPrefix(c, ShellPrefix) &&
        a.cmd == TrimSpace(c[|ShellPrefix|..]))) &&
      (a.CreateTask? <==> !IsShellRequest(c) && Utf8Len(c) > 10 && !HasPrefix(c, "/")) &&
      (a.CreateTask? ==> a.title == c) &&
      (a.Reply? ==> a.body == AckPrefix + c)
  {
    var c := TrimSpace(content);
    if c == ShellCommand {
      assert InboxAction(content) == ShellReply(UsageReply);
    } else if HasPrefix(c, ShellPrefix) {
      assert InboxAction(content) == ShellAction(TrimSpace(c[|ShellPrefix|..]));
    } else {
      assert InboxAction(content) == DefaultAction(c);
    }
  }

  /**
   * The length test counts bytes: six `é`s are six runes but twelve bytes,
   * so they make a task.
   */
  lemma ShortNonAsciiRequestIsTask()
    ensures InboxAction("\U{00E9}\U{00E9}\U{00E9}\U{00E9}\U{00E9}\U{00E9}")
      == CreateTask("\U{00E9}\U{00E9}\U{00E9}\U{00E9}\U{00E9}\U{00E9}")
  {
    var c := "\U{00E9}\U{00E9}\U{00E9}\U{00E9}\U{00E9}\U{00E9}";
    assert !IsSpace(c[0]) && !IsSpace(c[5]);
    TrimSpaceFixed(c);
    assert forall k :: 0 <= k < |c| ==> c[k] == '\U{00E9}';
    TwoByteRunes(c);
    assert c[0] != ShellCommand[0];
    assert InboxAction(c) == DefaultAction(c);
  }

  /** A string of runes from U+0080 to U+07FF takes two bytes a rune. */
  lemma {:induction false} TwoByteRunes(s: string)
    requires forall k :: 0 <= k < |s| ==> 0x80 <= s[k] as int < 0x800
    ensures Utf8Len(s) == 2 * |s|
    decreases |s|
  {
    if s != [] {
      assert forall k :: 0 <= k < |s[1..]| ==> s[1..][k] == s[k + 1];
      TwoByteRunes(s[1..]);
    }
  }

  /** Content of more than ten runes is always long enough; only shorter content depends on its bytes. */
  lemma LongByRunes(c: string)
    requires |c| > 10 && !IsShellRequest(c) && !HasPrefix(c, "/")
    ensures DefaultAction(c) == CreateTask(c)
  {
  }

  /** What `handleInboxMessage` needs of the decision: which kind answers a `/shell` request, and that a task always has a title. */
  lemma InboxActionKind(content: string)
    ensures var a := InboxAction(content);
      (a.RunShell? || a.ShellReply? <==> IsShellRequest(TrimSpace(content))) && (a.CreateTask? ==> a.title != "")
  {
    InboxActionMeaning(content);
  }

  /** The corrected decision answers the bare command with the usage, and decides everything else as written. */
  lemma InboxActionCorrected(content: string)
    ensures TrimSpace(content) == ShellCommand ==> InboxAction(content) == ShellReply(UsageReply)
    ensures TrimSpace(content) != ShellCommand ==> InboxAction(content) == InboxActionAsWritten(content)
    ensures InboxAction(ShellCommand) == ShellReply(UsageReply)
  {
    TrimSpaceFixed(ShellCommand);
  }

  /** The reply to a message, given the shell's outcome and the id of the task created, if one was. */
  function InboxReply(a: Action, shell: string -> Result<string>, created: Option<int>): string {
    match a
    case RunShell(cmd) => (match shell(cmd) case Ok(out) => TrimSpace(out) case Err(e) => ErrorPrefix + e)
    case ShellReply(body) => body
    case Reply(body) => body
    case CreateTask(title) => if created.Some? then CreatedPrefix + Itoa(created.value) else AckPrefix + title
  }

  /** The `message` event of a reply to `to`. */
  function MessageEvent(team: string, to: string): Payload {
    map["type" := Str(MessageType), "team" := Str(team), "from" := Str(ManagerRecipient), "to" := Str(to)]
  }

  /**
   * `handleInboxMessage`: decides, creates the task a request asks for,
   * replies to the sender from `manager` and publishes the reply's event;
   * answers that are not about a shell command publish it a second time.
   */
  method HandleInboxMessage(s: Store, hub: Hub, team: string, m: Message, shell: string -> Result<string>) returns (reply: string)
    requires s.Valid()
    modifies s, hub
    ensures s.Valid()
    ensures var a := InboxAction(m.content);
      var made := a.CreateTask? && old(s.HasTeam(team));
      reply == InboxReply(a, shell, if made then Some(|old(s.tasks)| + 1) else None) &&
      (made ==> s.tasks == old(s.tasks) + [old(s.NewTask(|s.tasks| + 1, team, a.title, StatusTodo, DefaultWorkflow(s, team)))]) &&
      (!made ==> s.tasks == old(s.tasks))
    ensures hub.published == old(hub.published) + [MessageEvent(team, m.sender)] +
      (if IsShellRequest(TrimSpace(m.content)) then [] else [MessageEvent(team, m.sender)])
    ensures s.messages == old(s.messages) +
      (if old(s.HasTeam(team)) then [Message(|old(s.messages)| + 1, team, ManagerRecipient, m.sender, reply, old(s.now))] else [])
    ensures s.now == old(s.now) && s.allowlist == old(s.allowlist) && s.workflows == old(s.workflows)
    ensures s.teams == old(s.teams) && s.reviews == old(s.reviews) && s.agents == old(s.agents) && s.repos == old(s.repos)
  {
    var a := InboxAction(m.content);
    InboxActionKind(m.content);
    reply := Answer(s, team, a, shell);
    ReplyToSender(s, hub, team, m.sender, reply);
    if !(a.RunShell? || a.ShellReply?) {
      hub.Publish(MessageEvent(team, m.sender));
    }
  }

  /** The answer to a message: the shell's output, the reply, or the outcome of creating the task. */
  method Answer(s: Store, team: string, a: Action, shell: string -> Result<string>) returns (reply: string)
    requires s.Valid() && (a.CreateTask? ==> a.title != "")
    modifies s
    ensures s.Valid()
    ensures var made := a.CreateTask? && old(s.HasTeam(team));
      reply == InboxReply(a, shell, if made then Some(|old(s.tasks)| + 1) else None) &&
      (made ==> s.tasks == old(s.tasks) + [old(s.NewTask(|s.tasks| + 1, team, a.title, StatusTodo, DefaultWorkflow(s, team)))]) &&
      (!made ==> s.tasks == old(s.tasks))
    ensures s.now == old(s.now) && s.messages == old(s.messages) && s.allowlist == old(s.allowlist) && s.workflows == old(s.workflows)
    ensures s.teams == old(s.teams) && s.reviews == old(s.reviews) && s.agents == old(s.agents) && s.repos == old(s.repos)
  {
    match a {
      case RunShell(cmd) =>
        var out := shell(cmd);
        reply := if out.Ok? then TrimSpace(out.value) else ErrorPrefix + out.error;
      case ShellReply(body) =>
        reply := body;
      case Reply(body) =>
        reply := body;
      case CreateTask(title) =>
        var r := CreateTaskForTeam(s, team, title, StatusTodo);
        reply := if r.1.None? then CreatedPrefix + Itoa(r.0) else AckPrefix + title;
    }
  }

  /** `replyToSender`: the reply as a message from `manager`, and its event. */
  method ReplyToSender(s: Store, hub: Hub, team: string, sender: string, body: string)
    requires s.Valid()
    modifies s, hub
    ensures s.Valid()
    ensures s.messages == old(s.messages) + (if old(s.HasTeam(team)) then [Message(|old(s.messages)| + 1, team, ManagerRecipient, sender, body, old(s.now))] else [])
    ensures hub.published == old(hub.published) + [MessageEvent(team, sender)]
    ensures s.tasks == old(s.tasks) && s.now == old(s.now) && s.allowlist == old(s.allowlist) && s.workflows == old(s.workflows)
    ensures s.teams == old(s.teams) && s.reviews == old(s.reviews) && s.agents == old(s.agents) && s.repos == old(s.repos)
  {
    var _, _ := s.CreateMessage(team, ManagerRecipient, sender, body);
    hub.Publish(MessageEvent(team, sender));
  }
}
