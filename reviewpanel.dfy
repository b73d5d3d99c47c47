/**
 * The review panel: the team's tasks awaiting approval, the reviews of
 * each, and the approve action.  Loading the tasks is an effect that reruns
 * on every team change; a run's result is dropped once the team has changed
 * again or the panel is gone.
 */
module ReviewPanel {
  import opened Wrappers
  import opened WebApi

  const InApprovalStatus := "in_approval"
  const InApprovalStage := "InApproval"

  /** A task awaits approval by its status or by its workflow stage. */
  function AwaitsApproval(): Task -> bool {
    (t: Task) => t.status == JStr(InApprovalStatus) || t.currentStage == JStr(InApprovalStage)
  }

  /** The pending list: the fetched tasks that await approval, in fetched order. */
  function Pending(list: seq<Task>): seq<Task> {
    Filter(list, AwaitsApproval())
  }

  /** Exactly the tasks awaiting approval are pending, every copy of them, and in the order fetched. */
  lemma PendingMembers(list: seq<Task>, t: Task, rest: seq<Task>)
    ensures multiset(Pending(list))[t] == if AwaitsApproval()(t) then multiset(list)[t] else 0
    ensures t in Pending(list) <==> t in list && (t.status == JStr(InApprovalStatus) || t.currentStage == JStr(InApprovalStage))
    ensures Pending(list + rest) == Pending(list) + Pending(rest)
  {
    FilterCount(list, AwaitsApproval(), t);
    FilterAppend(list, rest, AwaitsApproval());
  }

  /** Tasks whose id is not `id`. */
  function OtherThan(id: Json): Task -> bool {
    (t: Task) => t.taskId != id
  }

  /** `prev.filter((t) => t.task_id !== taskId)`. */
  function Without(tasks: seq<Task>, id: Json): seq<Task> {
    Filter(tasks, OtherThan(id))
  }

  /** Removing a task drops every row with its id and keeps every other row, in order. */
  lemma WithoutMembers(tasks: seq<Task>, id: Json, t: Task, rest: seq<Task>)
    ensures multiset(Without(tasks, id))[t] == if t.taskId == id then 0 else multiset(tasks)[t]
    ensures forall u :: u in Without(tasks, id) ==> u.taskId != id
    ensures Without(tasks + rest, id) == Without(tasks, id) + Without(rest, id)
  {
    FilterCount(tasks, OtherThan(id), t);
    forall u | u in Without(tasks, id)
      ensures u.taskId != id
    {
      FilterCount(tasks, OtherThan(id), u);
    }
    FilterAppend(tasks, rest, OtherThan(id));
  }

  /**
   * The reviews map: every id is a key, and an id maps to the reviews
   * fetched for its last occurrence (`[]` when that is `null` or missing).
   */
  method ReviewMap(ids: seq<Json>, results: seq<Json>) returns (m: map<Json, Json>)
    requires |ids| == |results|
    ensures m.Keys == set k | 0 <= k < |ids| :: ids[k]
    ensures forall k :: 0 <= k < |ids| && (forall j :: k < j < |ids| ==> ids[j] != ids[k]) ==>
      m[ids[k]] == Coalesce(results[k], JArr([]))
  {
    m := map[];
    var i := 0;
    while i < |ids|
      invariant 0 <= i <= |ids|
      invariant m.Keys == set k | 0 <= k < i :: ids[k]
      invariant forall k :: 0 <= k < i && (forall j :: k < j < i ==> ids[j] != ids[k]) ==>
        m[ids[k]] == Coalesce(results[k], JArr([]))
    {
      m := m[ids[i] := Coalesce(results[i], JArr([]))];
      i := i + 1;
    }
  }

  /** An approval the panel sends: the team, the task id and the outcome put on the wire. */
  datatype ApproveRequest = ApproveRequest(team: string, taskId: Json, outcome: string)

  class Panel {
    var team: string
    var tasks: seq<Task>
    var loading: bool
    var reviewsByTask: map<Json, Json>
    var actionLoading: Option<Json>
    var requests: seq<ApproveRequest>
    var updates: nat
    /** The current run of the loading effect; earlier runs are cancelled. */
    var generation: nat
    var mounted: bool
    /** Whether the parent passed `onUpdate`. */
    const hasOnUpdate: bool

    /** The first render: nothing pending, loading, and the effect's first run started. */
    constructor (team: string, hasOnUpdate: bool)
      ensures this.team == team && this.hasOnUpdate == hasOnUpdate
      ensures tasks == [] && loading && reviewsByTask == map[] && actionLoading.None?
      ensures requests == [] && updates == 0 && generation == 1 && mounted
    {
      this.team := team;
      this.hasOnUpdate := hasOnUpdate;
      tasks := [];
      loading := true;
      reviewsByTask := map[];
      actionLoading := None;
      requests := [];
      updates := 0;
      generation := 1;
      mounted := true;
    }

    /** A new team: the previous run is cancelled and a new one starts loading. */
    method ChangeTeam(newTeam: string)
      requires mounted
      modifies this
      ensures team == newTeam && generation == old(generation) + 1 && loading && mounted
      ensures tasks == old(tasks) && reviewsByTask == old(reviewsByTask) && actionLoading == old(actionLoading)
      ensures requests == old(requests) && updates == old(updates)
    {
      team := newTeam;
      generation := generation + 1;
      loading := true;
    }

    /** Unmounting cancels the current run. */
    method Unmount()
      modifies this
      ensures !mounted
      ensures team == old(team) && tasks == old(tasks) && loading == old(loading) && generation == old(generation)
      ensures reviewsByTask == old(reviewsByTask) && actionLoading == old(actionLoading)
      ensures requests == old(requests) && updates == old(updates)
    {
      mounted := false;
    }

    /**
     * Run `run` of the effect settling.  A cancelled run changes nothing;
     * else the pending list is the awaiting tasks fetched, or empty on a
     * failure, and loading ends.
     */
    method TasksSettled(run: nat, fetched: Outcome<seq<Task>>)
      modifies this
      ensures run != old(generation) || !old(mounted) ==> tasks == old(tasks) && loading == old(loading)
      ensures run == old(generation) && old(mounted) ==> !loading
      ensures run == old(generation) && old(mounted) && fetched.Resolved? ==> tasks == Pending(fetched.value)
      ensures run == old(generation) && old(mounted) && fetched.Rejected? ==> tasks == []
      ensures team == old(team) && generation == old(generation) && mounted == old(mounted)
      ensures reviewsByTask == old(reviewsByTask) && actionLoading == old(actionLoading)
      ensures requests == old(requests) && updates == old(updates)
    {
      if run != generation || !mounted {
        return;
      }
      if fetched.Resolved? {
        tasks := Pending(fetched.value);
      } else {
        tasks := [];
      }
      loading := false;
    }

    /**
     * The reviews effect: skipped when nothing is pending; when every fetch
     * succeeds, each pending id maps to its reviews; a failure is ignored.
     */
    method LoadReviews(fetched: Outcome<seq<Json>>)
      requires fetched.Resolved? ==> |fetched.value| == |tasks|
      modifies this
      ensures team == old(team) && tasks == old(tasks) && loading == old(loading) && generation == old(generation)
      ensures mounted == old(mounted) && actionLoading == old(actionLoading)
      ensures requests == old(requests) && updates == old(updates)
      ensures tasks == [] || fetched.Rejected? ==> reviewsByTask == old(reviewsByTask)
      ensures tasks != [] && fetched.Resolved? ==>
        reviewsByTask.Keys == (set k | 0 <= k < |tasks| :: tasks[k].taskId) &&
        forall k :: 0 <= k < |tasks| && (forall j :: k < j < |tasks| ==> tasks[j].taskId != tasks[k].taskId) ==>
          reviewsByTask[tasks[k].taskId] == Coalesce(fetched.value[k], JArr([]))
    {
      if |tasks| == 0 || fetched.Rejected? {
        return;
      }
      var ts := tasks;
      var ids := seq(|ts|, k requires 0 <= k < |ts| => ts[k].taskId);
      assert forall k :: 0 <= k < |ts| ==> ids[k] == ts[k].taskId;
      assert (set k | 0 <= k < |ids| :: ids[k]) == (set k | 0 <= k < |ts| :: ts[k].taskId);
      reviewsByTask := ReviewMap(ids, fetched.value);
    }

    /**
     * `handleApprove`: one request with the outcome defaulted; on success
     * `onUpdate` (when given) and the row of that task removed, on failure
     * nothing; the busy marker is cleared in every case.
     */
    method HandleApprove(taskId: Json, outcome: string, settled: Outcome<Json>)
      modifies this
      ensures requests == old(requests) + [ApproveRequest(team, taskId, ApproveOutcome(outcome))]
      ensures settled.Resolved? ==> tasks == Without(old(tasks), taskId) && updates == old(updates) + (if hasOnUpdate then 1 else 0)
      ensures settled.Rejected? ==> tasks == old(tasks) && updates == old(updates)
      ensures actionLoading.None?
      ensures team == old(team) && loading == old(loading) && generation == old(generation) && mounted == old(mounted)
      ensures reviewsByTask == old(reviewsByTask)
    {
      actionLoading := Some(taskId);
      requests := requests + [ApproveRequest(team, taskId, ApproveOutcome(outcome))];
      if settled.Resolved? {
        if hasOnUpdate {
          updates := updates + 1;
        }
        tasks := Without(tasks, taskId);
      }
      actionLoading := None;
    }
  }
}
