/**
 * The application shell: the selected team, the team list, the team's
 * tasks and agents, the loading flag and the error shown.  One bootstrap
 * fetch at mount seeds it; `refresh` reloads tasks and agents; stream
 * events trigger a refresh or a new team list.  Each asynchronous step is a
 * method that takes the way its promise settled.
 */
module App {
  import opened Wrappers
  import opened WebApi

  const LoadFailed := "Failed to load"
  const BootstrapFailed := "Failed to load bootstrap"
  const TaskUpdateType := "task_update"
  const TeamUpdateType := "team_update"

  /** A team as the bootstrap lists it. */
  datatype TeamSummary = TeamSummary(teamId: string, name: string)

  /** The bootstrap body as the client declares it; `None` is a missing (or `null`) field. */
  datatype Bootstrap = Bootstrap(teams: Option<seq<TeamSummary>>, initialTeam: Option<string>,
                                 tasks: Option<seq<Task>>, agents: Option<seq<Json>>)

  /** `list || []` for a list that may be missing. */
  function OrNone<T>(list: Option<seq<T>>): seq<T> {
    if list.Some? then list.value else []
  }

  /** `data.teams || []`. */
  function TeamsOf(b: Bootstrap): seq<TeamSummary> {
    OrNone(b.teams)
  }

  /** The team selected first: `initial_team`, else the first listed team's name, else none. */
  function InitialTeam(b: Bootstrap): (r: string)
    ensures b.initialTeam.Some? && b.initialTeam.value != "" ==> r == b.initialTeam.value
    ensures (b.initialTeam.None? || b.initialTeam.value == "") && TeamsOf(b) != [] ==> r == TeamsOf(b)[0].name
    ensures (b.initialTeam.None? || b.initialTeam.value == "") && TeamsOf(b) == [] ==> r == ""
  {
    if b.initialTeam.Some? && b.initialTeam.value != "" then b.initialTeam.value
    else if TeamsOf(b) != [] then TeamsOf(b)[0].name
    else ""
  }

  /** A selected team is the one the server named or a listed one. */
  lemma InitialTeamKnown(b: Bootstrap)
    ensures InitialTeam(b) != "" ==>
      (b.initialTeam == Some(InitialTeam(b)) || exists k :: 0 <= k < |TeamsOf(b)| && TeamsOf(b)[k].name == InitialTeam(b))
  {
    if InitialTeam(b) != "" && b.initialTeam != Some(InitialTeam(b)) {
      assert TeamsOf(b)[0].name == InitialTeam(b);
    }
  }

  /**
   * `Promise.all` of two promises: it resolves with both values when both
   * resolve, and otherwise rejects with the reason of the first to reject
   * (`aFirst` says which that is when both do).
   */
  function All<A, B>(a: Outcome<A>, b: Outcome<B>, aFirst: bool): (r: Outcome<(A, B)>)
    ensures r.Resolved? <==> a.Resolved? && b.Resolved?
    ensures r.Resolved? ==> r.value == (a.value, b.value)
    ensures r.Rejected? ==> (a.Rejected? && r.message == a.message) || (b.Rejected? && r.message == b.message)
  {
    if a.Resolved? && b.Resolved? then Resolved((a.value, b.value))
    else if a.Rejected? && (aFirst || b.Resolved?) then Rejected(a.message)
    else Rejected(b.message)
  }

  /** The refresh effect fires only with a team selected and a non-empty team list. */
  predicate RefreshEffectRuns(team: string, teams: seq<TeamSummary>) {
    team != "" && |teams| > 0
  }

  /** How the shell reacts to one stream event. */
  datatype Reaction = Reaction(refresh: bool, refetchTeams: bool)

  /** A `task_update` for the selected team refreshes; a `team_update` refetches the team list. */
  function React(d: Json, team: string): (r: Reaction)
    ensures r.refresh <==> Prop(d, "type") == JStr(TaskUpdateType) && Prop(d, "team") == JStr(team)
    ensures r.refetchTeams <==> Prop(d, "type") == JStr(TeamUpdateType)
    ensures !(r.refresh && r.refetchTeams)
  {
    Reaction(Prop(d, "type") == JStr(TaskUpdateType) && Prop(d, "team") == JStr(team), Prop(d, "type") == JStr(TeamUpdateType))
  }

  class Shell {
    var team: string
    var teams: seq<TeamSummary>
    var tasks: seq<Task>
    var agents: seq<Json>
    var loading: bool
    var error: Option<string>
    /** The bootstrap effect's `cancelled` flag. */
    var cancelled: bool
    /** Bootstrap fetches started. */
    var bootstraps: nat

    /** The first render: nothing loaded yet, loading, and the mount effect's bootstrap fetch started. */
    constructor ()
      ensures team == "" && teams == [] && tasks == [] && agents == []
      ensures loading && error.None? && !cancelled && bootstraps == 1
    {
      team := "";
      teams := [];
      tasks := [];
      agents := [];
      loading := true;
      error := None;
      cancelled := false;
      bootstraps := 1;
    }

    /** The mount effect's cleanup. */
    method Unmount()
      modifies this
      ensures cancelled
      ensures team == old(team) && teams == old(teams) && tasks == old(tasks) && agents == old(agents)
      ensures loading == old(loading) && error == old(error) && bootstraps == old(bootstraps)
    {
      cancelled := true;
    }

    /**
     * The mount bootstrap settling.  After unmount nothing happens.  Else a
     * body sets the team list and the initial team, and seeds tasks and
     * agents only when that team is non-empty; a rejection sets the error.
     * Loading ends either way.
     */
    method BootstrapSettled(settled: Outcome<Bootstrap>)
      modifies this
      ensures old(cancelled) ==>
        team == old(team) && teams == old(teams) && tasks == old(tasks) && agents == old(agents) &&
        loading == old(loading) && error == old(error)
      ensures !old(cancelled) ==> !loading
      ensures !old(cancelled) && settled.Resolved? ==>
        var b := settled.value;
        teams == TeamsOf(b) && team == InitialTeam(b) && error == old(error) &&
        (team != "" ==> tasks == OrNone(b.tasks) && agents == OrNone(b.agents)) &&
        (team == "" ==> tasks == old(tasks) && agents == old(agents))
      ensures !old(cancelled) && settled.Rejected? ==>
        error == Some(MessageOr(settled.message, BootstrapFailed)) &&
        team == old(team) && teams == old(teams) && tasks == old(tasks) && agents == old(agents)
      ensures cancelled == old(cancelled) && bootstraps == old(bootstraps)
    {
      if cancelled {
        return;
      }
      match settled {
        case Resolved(b) =>
          teams := TeamsOf(b);
          var initial := InitialTeam(b);
          team := initial;
          if initial != "" {
            tasks := OrNone(b.tasks);
            agents := OrNone(b.agents);
          }
        case Rejected(message) =>
          error := Some(MessageOr(message, BootstrapFailed));
      }
      loading := false;
    }

    /**
     * `refresh`, with the two fetches settling as given.  Without a team it
     * does nothing.  Otherwise the error is cleared, tasks and agents are
     * both replaced when both fetches succeed and both kept otherwise, a
     * failure sets the error, and loading ends either way.
     */
    method Refresh(fetchedTasks: Outcome<seq<Task>>, fetchedAgents: Outcome<seq<Json>>, tasksFirst: bool)
      modifies this
      ensures old(team) == "" ==>
        tasks == old(tasks) && agents == old(agents) && loading == old(loading) && error == old(error)
      ensures old(team) != "" ==> !loading
      ensures old(team) != "" && fetchedTasks.Resolved? && fetchedAgents.Resolved? ==>
        tasks == fetchedTasks.value && agents == fetchedAgents.value && error.None?
      ensures old(team) != "" && (fetchedTasks.Rejected? || fetchedAgents.Rejected?) ==>
        tasks == old(tasks) && agents == old(agents) && error.Some? &&
        ((fetchedTasks.Rejected? && error == Some(MessageOr(fetchedTasks.message, LoadFailed))) ||
         (fetchedAgents.Rejected? && error == Some(MessageOr(fetchedAgents.message, LoadFailed))))
      ensures team == old(team) && teams == old(teams) && cancelled == old(cancelled) && bootstraps == old(bootstraps)
    {
      if team == "" {
        return;
      }
      loading := true;
      error := None;
      match All(fetchedTasks, fetchedAgents, tasksFirst) {
        case Resolved(lists) =>
          tasks := lists.0;
          agents := lists.1;
        case Rejected(message) =>
          error := Some(MessageOr(message, LoadFailed));
      }
      loading := false;
    }

    /** The refresh effect: a refresh when `RefreshEffectRuns`, else nothing. */
    method RefreshEffect(fetchedTasks: Outcome<seq<Task>>, fetchedAgents: Outcome<seq<Json>>, tasksFirst: bool)
      modifies this
      ensures !RefreshEffectRuns(old(team), old(teams)) ==>
        tasks == old(tasks) && agents == old(agents) && loading == old(loading) && error == old(error)
      ensures RefreshEffectRuns(old(team), old(teams)) && fetchedTasks.Resolved? && fetchedAgents.Resolved? ==>
        tasks == fetchedTasks.value && agents == fetchedAgents.value && error.None? && !loading
      ensures RefreshEffectRuns(old(team), old(teams)) && (fetchedTasks.Rejected? || fetchedAgents.Rejected?) ==>
        tasks == old(tasks) && agents == old(agents) && error.Some? && !loading
      ensures team == old(team) && teams == old(teams) && cancelled == old(cancelled) && bootstraps == old(bootstraps)
    {
      if RefreshEffectRuns(team, teams) {
        Refresh(fetchedTasks, fetchedAgents, tasksFirst);
      }
    }

    /**
     * One stream event, with the settlings of the fetches it may start.  A
     * `task_update` for the selected team refreshes; a `team_update` starts
     * one bootstrap fetch whose body replaces the team list and nothing
     * else.  No event changes the selected team.
     */
    method OnEvent(d: Json, fetchedTasks: Outcome<seq<Task>>, fetchedAgents: Outcome<seq<Json>>, tasksFirst: bool,
                   refetched: Outcome<Bootstrap>)
      modifies this
      ensures team == old(team) && cancelled == old(cancelled)
      ensures !React(d, old(team)).refresh ==>
        tasks == old(tasks) && agents == old(agents) && loading == old(loading) && error == old(error)
      ensures React(d, old(team)).refresh && old(team) != "" && fetchedTasks.Resolved? && fetchedAgents.Resolved? ==>
        tasks == fetchedTasks.value && agents == fetchedAgents.value && error.None?
      ensures React(d, old(team)).refetchTeams ==> bootstraps == old(bootstraps) + 1
      ensures React(d, old(team)).refetchTeams && refetched.Resolved? ==> teams == TeamsOf(refetched.value)
      ensures !(React(d, old(team)).refetchTeams && refetched.Resolved?) ==> teams == old(teams)
      ensures !React(d, old(team)).refetchTeams ==> bootstraps == old(bootstraps)
    {
      var reaction := React(d, team);
      if reaction.refresh {
        Refresh(fetchedTasks, fetchedAgents, tasksFirst);
      }
      if reaction.refetchTeams {
        bootstraps := bootstraps + 1;
        if refetched.Resolved? {
          teams := TeamsOf(refetched.value);
        }
      }
    }
  }
}
