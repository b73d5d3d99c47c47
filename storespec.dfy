/**
 * What the store's queries compute, as functions of the tables: which task is
 * runnable, the initial stage of a workflow, the rows `ListTasks` and
 * `ListMessages` return, what a claim, a failure or a requeue does to a row,
 * and how the network allowlist changes.  Both backends (SQLite and Postgres)
 * share these definitions; they differ only in how `ListTasks` reads its limit.
 */
module StoreSpec {
  import opened Wrappers
  import opened GoStrings
  import opened Models
  import WorkflowTables

  datatype Backend = SQLite | Postgres

  /** The `LIMIT 100` of SQLite's prepared task listing. */
  const PreparedTaskLimit := 100
  const MergingStage := "Merging"
  const DoneStage := "Done"
  const Wildcard := "*"
  const ReworkOutcome := "changes_requested"
  const NoInitialStage := "workflow has no initial stage"

  function TeamNotFound(name: string): string {
    "team not found: " + name
  }

  // ---------------------------------------------------------------- task rows

  /** The filter of the runnable-task query: the team's todo or in-progress tasks outside the Merging stage. */
  predicate Runnable(t: Task, team: string) {
    t.team == team
    && (t.status == StatusTodo || t.status == StatusInProgress)
    && (t.currentStage.None? || t.currentStage.value != MergingStage)
  }

  /** The filter of the claim update: the team's task, still todo. */
  predicate Claimable(t: Task, team: string) {
    t.team == team && t.status == StatusTodo
  }

  /** A claimed row: in progress, assigned, and keeping an existing DRI (`COALESCE(dri, ?)`). */
  function Claimed(t: Task, assignee: string, now: int): (r: Task)
    ensures r.status == StatusInProgress && r.assignee == Some(assignee)
    ensures r.dri == if t.dri.Some? then t.dri else Some(assignee)
    ensures r.id == t.id && r.team == t.team && r.createdAt == t.createdAt
    ensures !Claimable(r, t.team)
  {
    t.(status := StatusInProgress, assignee := Some(assignee),
       dri := if t.dri.Some? then t.dri else Some(assignee), updatedAt := now)
  }

  /** A failed row: status failed and exactly one more attempt. */
  function Failed(t: Task, now: int): (r: Task)
    ensures r.status == StatusFailed && r.attemptCount == t.attemptCount + 1
    ensures r.id == t.id && r.team == t.team && r.createdAt == t.createdAt
    ensures !Runnable(r, t.team) && !Claimable(r, t.team)
  {
    t.(status := StatusFailed, attemptCount := t.attemptCount + 1, updatedAt := now)
  }

  /** A requeued row: back to todo with no assignee. */
  function Requeued(t: Task, now: int): (r: Task)
    ensures r.status == StatusTodo && r.assignee.None?
    ensures r.id == t.id && r.team == t.team && r.createdAt == t.createdAt
    ensures Claimable(r, t.team)
  {
    t.(status := StatusTodo, assignee := None, updatedAt := now)
  }

  /**
   * `UpdateTask`: a non-empty status replaces status and assignee, an empty one
   * only the assignee; a missing assignee is stored as NULL either way.
   */
  function Updated(t: Task, status: string, assignee: Option<string>, now: int): (r: Task)
    ensures r.assignee == assignee
    ensures r.status == if status == "" then t.status else status
    ensures r.id == t.id && r.team == t.team && r.createdAt == t.createdAt && r.dri == t.dri
    ensures r.currentStage == t.currentStage && r.workflowId == t.workflowId
  {
    if status != "" then t.(status := status, assignee := assignee, updatedAt := now)
    else t.(assignee := assignee, updatedAt := now)
  }

  /** A claim succeeds at most once: the claimed row is no longer todo. */
  lemma ClaimOnce(t: Task, a: string, b: string, now: int, later: int)
    requires Claimable(t, t.team)
    ensures !Claimable(Claimed(t, a, now), t.team)
    ensures Claimed(Claimed(t, a, now), b, later).dri == Some(if t.dri.Some? then t.dri.value else a)
  {
  }

  /** Requeueing a failed task makes it claimable again, and the claim keeps the attempt count. */
  lemma FailRequeueClaim(t: Task, a: string, n1: int, n2: int, n3: int)
    ensures Claimable(Requeued(Failed(t, n1), n2), t.team)
    ensures Claimed(Requeued(Failed(t, n1), n2), a, n3).attemptCount == t.attemptCount + 1
    ensures Claimed(Requeued(Failed(t, n1), n2), a, n3).status == StatusInProgress
  {
  }

  // ----------------------------------------------------------- initial stage

  /** The set of the `to_stage` column of a workflow's transitions (`SELECT DISTINCT to_stage`). */
  function Targets(edges: seq<Edge>): (r: set<string>)
    ensures forall n :: n in r <==> exists j :: 0 <= j < |edges| && edges[j].to == n
  {
    set j | 0 <= j < |edges| :: edges[j].to
  }

  /** Every stored stage satisfies `LessEq` with `n` on the left, wherever it lies outside `targets`. */
  predicate LeastOutsideOf(stages: seq<Stage>, targets: set<string>, n: string) {
    n !in targets
    && (exists k :: 0 <= k < |stages| && stages[k].name == n)
    && forall k :: 0 <= k < |stages| && stages[k].name !in targets ==> LessEq(n, stages[k].name)
  }

  /** The alphabetically first stage name outside `targets`, or `None` when every stage is a target. */
  function LeastOutside(stages: seq<Stage>, targets: set<string>): (r: Option<string>)
    ensures r.None? <==> forall k :: 0 <= k < |stages| ==> stages[k].name in targets
    ensures r.Some? ==> LeastOutsideOf(stages, targets, r.value)
  {
    if stages == [] then None
    else
      var rest := LeastOutside(stages[1..], targets);
      var n := stages[0].name;
      assert forall k :: 1 <= k < |stages| ==> stages[k] == stages[1..][k - 1];
      if n in targets then
        assert rest.Some? ==> stages[1..][0] == stages[1];
        rest
      else if rest.None? then
        LessEqTotal(n, n);
        Some(n)
      else if LessEq(n, rest.value) then
        LeastBelow(stages, targets, n, rest.value);
        Some(n)
      else
        LessEqTotal(n, rest.value);
        rest
  }

  /** The step of `LeastOutside` that replaces the minimum of the tail with a smaller head. */
  lemma LeastBelow(stages: seq<Stage>, targets: set<string>, n: string, m: string)
    requires stages != [] && stages[0].name == n && n !in targets && LessEq(n, m)
    requires forall k :: 0 <= k < |stages[1..]| && stages[1..][k].name !in targets ==> LessEq(m, stages[1..][k].name)
    ensures forall k :: 0 <= k < |stages| && stages[k].name !in targets ==> LessEq(n, stages[k].name)
  {
    forall k | 0 <= k < |stages| && stages[k].name !in targets
      ensures LessEq(n, stages[k].name)
    {
      if k == 0 {
        LessEqTotal(n, n);
      } else {
        assert stages[k] == stages[1..][k - 1];
        LessEqTrans(n, m, stages[k].name);
      }
    }
  }

  /** There is only one least stage name. */
  lemma LeastOutsideUnique(stages: seq<Stage>, targets: set<string>, a: string, b: string)
    requires LeastOutsideOf(stages, targets, a) && LeastOutsideOf(stages, targets, b)
    ensures a == b
  {
    var i :| 0 <= i < |stages| && stages[i].name == a;
    var j :| 0 <= j < |stages| && stages[j].name == b;
    LessEqAntisymmetric(a, b);
  }

  /**
   * The initial stage as the store computes it: the alphabetically first stage
   * that no transition enters, or "workflow has no initial stage".
   */
  function InitialStageAsWritten(stages: seq<Stage>, edges: seq<Edge>): (r: Result<string>)
    ensures r.Err? <==> forall k :: 0 <= k < |stages| ==> exists j :: 0 <= j < |edges| && edges[j].to == stages[k].name
    ensures r.Err? ==> r.error == NoInitialStage
    ensures r.Ok? ==> LeastOutsideOf(stages, Targets(edges), r.value)
  {
    match LeastOutside(stages, Targets(edges))
    case None => Err(NoInitialStage)
    case Some(n) => Ok(n)
  }

  /** The transitions other than the rework edges that send a task back (`changes_requested`). */
  function ForwardEdges(edges: seq<Edge>): seq<Edge>
  {
    if edges == [] then []
    else (if edges[0].outcome == ReworkOutcome then [] else [edges[0]]) + ForwardEdges(edges[1..])
  }

  /**
   * The initial stage with rework edges ignored: the alphabetically first stage
   * no forward transition enters.
   */
  function InitialStage(stages: seq<Stage>, edges: seq<Edge>): (r: Result<string>)
    ensures r.Err? <==> forall k :: 0 <= k < |stages| ==> stages[k].name in Targets(ForwardEdges(edges))
    ensures r.Err? ==> r.error == NoInitialStage
    ensures r.Ok? ==> LeastOutsideOf(stages, Targets(ForwardEdges(edges)), r.value)
  {
    match LeastOutside(stages, Targets(ForwardEdges(edges)))
    case None => Err(NoInitialStage)
    case Some(n) => Ok(n)
  }

  /** The forward edges are exactly the transitions whose outcome is not `changes_requested`. */
  lemma {:induction false} ForwardEdgesMembers(edges: seq<Edge>)
    ensures forall e :: e in ForwardEdges(edges) <==> e in edges && e.outcome != ReworkOutcome
  {
    if edges != [] {
      ForwardEdgesMembers(edges[1..]);
      assert edges == [edges[0]] + edges[1..];
    }
  }

  /** A workflow without rework edges gets the same initial stage under both rules. */
  lemma InitialStageAgrees(stages: seq<Stage>, edges: seq<Edge>)
    requires forall j :: 0 <= j < |edges| ==> edges[j].outcome != ReworkOutcome
    ensures InitialStage(stages, edges) == InitialStageAsWritten(stages, edges)
  {
    ForwardEdgesMembers(edges);
    assert Targets(ForwardEdges(edges)) == Targets(edges) by {
      forall n | n in Targets(edges) ensures n in Targets(ForwardEdges(edges)) {
        var j :| 0 <= j < |edges| && edges[j].to == n;
        assert edges[j] in ForwardEdges(edges);
        var i :| 0 <= i < |ForwardEdges(edges)| && ForwardEdges(edges)[i] == edges[j];
      }
      forall n | n in Targets(ForwardEdges(edges)) ensures n in Targets(edges) {
        var j :| 0 <= j < |ForwardEdges(edges)| && ForwardEdges(edges)[j].to == n;
        assert ForwardEdges(edges)[j] in edges;
        var i :| 0 <= i < |edges| && edges[i] == ForwardEdges(edges)[j];
      }
    }
  }

  /** The seeded workflow has no initial stage as the store computes it: every stage is entered by some edge. */
  lemma DefaultInitialStageAsWritten()
    ensures InitialStageAsWritten(WorkflowTables.DefaultStages, WorkflowTables.DefaultEdges) == Err(NoInitialStage)
  {
    WorkflowTables.DefaultEveryStageEntered();
  }

  /** A stage that is the only one outside `targets` is the least such stage. */
  lemma SoleOutside(stages: seq<Stage>, targets: set<string>, k0: int)
    requires 0 <= k0 < |stages| && stages[k0].name !in targets
    requires forall k :: 0 <= k < |stages| && stages[k].name !in targets ==> stages[k].name == stages[k0].name
    ensures LeastOutside(stages, targets) == Some(stages[k0].name)
  {
    var n := stages[k0].name;
    LessEqTotal(n, n);
    assert LeastOutsideOf(stages, targets, n);
    var r := LeastOutside(stages, targets);
    LeastOutsideUnique(stages, targets, r.value, n);
  }

  /** A stage entered by a transition other than a rework edge is a forward target. */
  lemma EnteredForward(edges: seq<Edge>, j: int)
    requires 0 <= j < |edges| && edges[j].outcome != ReworkOutcome
    ensures edges[j].to in Targets(ForwardEdges(edges))
  {
    ForwardEdgesMembers(edges);
    var fwd := ForwardEdges(edges);
    assert edges[j] in fwd;
    var i :| 0 <= i < |fwd| && fwd[i] == edges[j];
  }

  /** A stage entered only by rework edges is not a forward target. */
  lemma EnteredOnlyByRework(edges: seq<Edge>, n: string)
    requires forall j :: 0 <= j < |edges| && edges[j].to == n ==> edges[j].outcome == ReworkOutcome
    ensures n !in Targets(ForwardEdges(edges))
  {
    ForwardEdgesMembers(edges);
  }

  /** Only the two rework edges of the seeded workflow enter its first stage. */
  lemma DefaultCodingReworkOnly(stages: seq<Stage>, edges: seq<Edge>)
    requires stages == WorkflowTables.DefaultStages && edges == WorkflowTables.DefaultEdges
    ensures forall j :: 0 <= j < |edges| && edges[j].to == stages[0].name ==> edges[j].outcome == ReworkOutcome
  {
  }

  /** Which seeded edge enters which seeded stage. */
  lemma DefaultStagesEntered(stages: seq<Stage>, edges: seq<Edge>)
    requires stages == WorkflowTables.DefaultStages && edges == WorkflowTables.DefaultEdges
    ensures |stages| == 5 && |edges| == 7 && stages[0].name == "Coding"
    ensures edges[0].to == stages[1].name && edges[2].to == stages[2].name
    ensures edges[4].to == stages[3].name && edges[1].to == stages[4].name
  {
  }

  /** With rework edges ignored, the seeded workflow starts at `Coding`. */
  lemma DefaultInitialStage(stages: seq<Stage>, edges: seq<Edge>)
    requires stages == WorkflowTables.DefaultStages && edges == WorkflowTables.DefaultEdges
    ensures InitialStage(stages, edges) == Ok("Coding")
  {
    var t := Targets(ForwardEdges(edges));
    EnteredForward(edges, 0);
    EnteredForward(edges, 1);
    EnteredForward(edges, 2);
    EnteredForward(edges, 4);
    DefaultCodingReworkOnly(stages, edges);
    EnteredOnlyByRework(edges, stages[0].name);
    DefaultStagesEntered(stages, edges);
    forall k | 0 <= k < |stages| && stages[k].name !in t ensures stages[k].name == stages[0].name {
      assert k != 1 && k != 2 && k != 3 && k != 4;
    }
    SoleOutside(stages, t, 0);
  }

  // --------------------------------------------------------------- listings

  /** A team's tasks, newest first: the table in reverse insertion order, filtered by team. */
  function TeamNewestFirst(ts: seq<Task>, team: string): (r: seq<Task>)
    ensures forall t :: t in r <==> t in ts && t.team == team
    ensures |r| <= |ts|
  {
    if ts == [] then []
    else TeamNewestFirst(ts[1..], team) + (if ts[0].team == team then [ts[0]] else [])
  }

  /** Rows in insertion order were created at non-decreasing times. */
  predicate CreatedInOrder(ts: seq<Task>) {
    forall j, k :: 0 <= j < k < |ts| ==> ts[j].createdAt <= ts[k].createdAt
  }

  predicate NewestFirst(ts: seq<Task>) {
    forall j, k :: 0 <= j < k < |ts| ==> ts[j].createdAt >= ts[k].createdAt
  }

  /** A listing of a table kept in creation order is sorted newest first. */
  lemma {:induction false} TeamNewestFirstSorted(ts: seq<Task>, team: string)
    requires CreatedInOrder(ts)
    ensures NewestFirst(TeamNewestFirst(ts, team))
  {
    if ts != [] {
      TeamNewestFirstSorted(ts[1..], team);
      var rest := TeamNewestFirst(ts[1..], team);
      forall t | t in rest ensures t.createdAt >= ts[0].createdAt {
        var k :| 0 <= k < |ts[1..]| && ts[1..][k] == t;
        assert ts[k + 1] == t;
      }
    }
  }

  /** A newly created task heads its team's listing. */
  lemma {:induction false} TeamNewestFirstAppend(ts: seq<Task>, t: Task, team: string)
    ensures TeamNewestFirst(ts + [t], team) == (if t.team == team then [t] else []) + TeamNewestFirst(ts, team)
    decreases |ts|
  {
    if ts == [] {
      assert ([] + [t])[1..] == [];
    } else {
      assert (ts + [t])[1..] == ts[1..] + [t];
      TeamNewestFirstAppend(ts[1..], t, team);
    }
  }

  /** A listing computed from the end: the rows of `ts[i..]`, newest first, come before those of `ts[..i]`. */
  lemma {:induction false} TeamNewestFirstSplit(ts: seq<Task>, i: int, team: string)
    requires 0 <= i <= |ts|
    ensures TeamNewestFirst(ts, team) == TeamNewestFirst(ts[i..], team) + TeamNewestFirst(ts[..i], team)
    decreases i
  {
    if i == 0 {
      assert ts[0..] == ts;
    } else {
      TeamNewestFirstSplit(ts[1..], i - 1, team);
      assert ts[1..][i - 1..] == ts[i..];
      assert ts[..i][1..] == ts[1..][..i - 1];
      assert ts[..i][0] == ts[0];
    }
  }

  /** At most `cap` leading rows (`LIMIT`); no cap keeps them all. */
  function Take<T>(s: seq<T>, cap: Option<nat>): (r: seq<T>)
    ensures |r| == if cap.Some? && cap.value < |s| then cap.value else |s|
    ensures r == s[..|r|]
  {
    if cap.Some? && cap.value < |s| then s[..cap.value] else s
  }

  /**
   * The row limit `ListTasks` applies.  SQLite uses its prepared `LIMIT 100`
   * for 0 and for 100 or more and passes any other value to `LIMIT`, where a
   * negative value means no limit; Postgres limits only a positive value.
   */
  function TaskCap(b: Backend, limit: int): (cap: Option<nat>)
    ensures b == SQLite && 0 <= limit ==> cap.Some? && cap.value <= PreparedTaskLimit
    ensures b == SQLite && (limit == 0 || limit >= PreparedTaskLimit) ==> cap == Some(PreparedTaskLimit)
    ensures b == SQLite && 0 < limit < PreparedTaskLimit ==> cap == Some(limit)
    ensures b == SQLite && limit < 0 ==> cap.None?
    ensures b == Postgres ==> (cap.None? <==> limit <= 0)
    ensures b == Postgres && limit > 0 ==> cap == Some(limit)
  {
    match b
    case SQLite =>
      if limit == 0 || limit >= PreparedTaskLimit then Some(PreparedTaskLimit)
      else if limit < 0 then None
      else Some(limit)
    case Postgres =>
      if limit <= 0 then None else Some(limit)
  }

  /** The row limit `ListMessages` applies on both backends: only a positive limit. */
  function MessageCap(limit: int): (cap: Option<nat>)
    ensures cap.None? <==> limit <= 0
    ensures cap.Some? ==> cap.value == limit
  {
    if limit > 0 then Some(limit) else None
  }

  /** Which messages `ListMessages` selects: the team's, and the recipient's when one is given. */
  predicate InInbox(m: Message, team: string, recipient: string) {
    m.team == team && (recipient == "" || m.recipient == recipient)
  }

  /** The selected messages, newest first. */
  function InboxNewestFirst(ms: seq<Message>, team: string, recipient: string): (r: seq<Message>)
    ensures forall m :: m in r <==> m in ms && InInbox(m, team, recipient)
    ensures |r| <= |ms|
  {
    if ms == [] then []
    else InboxNewestFirst(ms[1..], team, recipient) + (if InInbox(ms[0], team, recipient) then [ms[0]] else [])
  }

  lemma {:induction false} InboxNewestFirstSplit(ms: seq<Message>, i: int, team: string, recipient: string)
    requires 0 <= i <= |ms|
    ensures InboxNewestFirst(ms, team, recipient) == InboxNewestFirst(ms[i..], team, recipient) + InboxNewestFirst(ms[..i], team, recipient)
    decreases i
  {
    if i == 0 {
      assert ms[0..] == ms;
    } else {
      InboxNewestFirstSplit(ms[1..], i - 1, team, recipient);
      assert ms[1..][i - 1..] == ms[i..];
      assert ms[..i][1..] == ms[1..][..i - 1];
      assert ms[..i][0] == ms[0];
    }
  }

  /** A new message heads every listing that selects it. */
  lemma {:induction false} InboxNewestFirstAppend(ms: seq<Message>, m: Message, team: string, recipient: string)
    ensures InboxNewestFirst(ms + [m], team, recipient)
      == (if InInbox(m, team, recipient) then [m] else []) + InboxNewestFirst(ms, team, recipient)
    decreases |ms|
  {
    if ms == [] {
      assert ([] + [m])[1..] == [];
    } else {
      assert (ms + [m])[1..] == ms[1..] + [m];
      InboxNewestFirstAppend(ms[1..], m, team, recipient);
    }
  }

  /** A team's tasks at a stage, in table order. */
  function AtStage(ts: seq<Task>, team: string, stage: string): (r: seq<Task>)
    ensures forall t :: t in r <==> t in ts && t.team == team && t.currentStage == Some(stage)
    ensures |r| <= |ts|
    decreases |ts|
  {
    if ts == [] then []
    else
      var last := ts[|ts| - 1];
      var init := ts[..|ts| - 1];
      assert forall t :: t in ts <==> t in init || t == last;
      AtStage(init, team, stage) + (if last.team == team && last.currentStage == Some(stage) then [last] else [])
  }

  /** The rows `ListTasksInStage` returns: the team's tasks at the stage, at most `limit` of them when it is positive. */
  function StageListing(ts: seq<Task>, team: string, stage: string, limit: int): (r: seq<Task>)
    ensures forall t :: t in r ==> t in ts && t.team == team && t.currentStage == Some(stage)
    ensures limit > 0 ==> |r| <= limit
    ensures (limit <= 0 || |r| < limit) ==> forall t :: t in ts && t.team == team && t.currentStage == Some(stage) ==> t in r
  {
    var all := AtStage(ts, team, stage);
    var r := Take(all, if limit > 0 then Some(limit as nat) else None);
    assert forall t :: t in r ==> t in all;
    r
  }

  /** Listing a prefix of the table gives a prefix of the listing of the whole table. */
  lemma {:induction false} AtStagePrefix(ts: seq<Task>, i: nat, team: string, stage: string)
    requires i <= |ts|
    ensures var p := AtStage(ts[..i], team, stage); |p| <= |AtStage(ts, team, stage)| && AtStage(ts, team, stage)[..|p|] == p
    decreases |ts|
  {
    if i < |ts| {
      var init := ts[..|ts| - 1];
      assert ts[..i] == init[..i];
      AtStagePrefix(init, i, team, stage);
      assert AtStage(ts, team, stage)[..|AtStage(init, team, stage)|] == AtStage(init, team, stage);
    } else {
      assert ts[..i] == ts;
    }
  }

  /** One more row of the table extends the stage listing of its prefix by that row when it matches. */
  lemma AtStageStep(ts: seq<Task>, i: nat, team: string, stage: string)
    requires i < |ts|
    ensures AtStage(ts[..i + 1], team, stage)
      == AtStage(ts[..i], team, stage) + (if ts[i].team == team && ts[i].currentStage == Some(stage) then [ts[i]] else [])
  {
    assert ts[..i + 1][..i] == ts[..i];
  }

  /** A scan of the first `i` rows that stopped at the limit, or at the end, has found the listing. */
  lemma StageListingFound(ts: seq<Task>, i: nat, team: string, stage: string, limit: int)
    requires i <= |ts|
    requires i == |ts| || (limit > 0 && |AtStage(ts[..i], team, stage)| == limit)
    requires limit > 0 ==> |AtStage(ts[..i], team, stage)| <= limit
    ensures AtStage(ts[..i], team, stage) == StageListing(ts, team, stage, limit)
  {
    AtStagePrefix(ts, i, team, stage);
    if i == |ts| {
      assert ts[..i] == ts;
    }
  }

  /** In a table whose row `k` has id `k + 1`, every listed task is the row of its id. */
  lemma AtStageRows(ts: seq<Task>, team: string, stage: string)
    requires forall k :: 0 <= k < |ts| ==> ts[k].id == k + 1
    ensures forall t :: t in AtStage(ts, team, stage) ==> 1 <= t.id <= |ts| && ts[t.id - 1] == t
  {
    forall t | t in AtStage(ts, team, stage) ensures 1 <= t.id <= |ts| && ts[t.id - 1] == t {
      var k :| 0 <= k < |ts| && ts[k] == t;
    }
  }

  /** The ids along `r` increase strictly. */
  predicate IdsIncrease(r: seq<Task>) {
    forall a, b :: 0 <= a < b < |r| ==> r[a].id < r[b].id
  }

  lemma IdsIncreaseSnoc(p: seq<Task>, last: Task)
    requires IdsIncrease(p)
    requires forall t :: t in p ==> t.id < last.id
    ensures IdsIncrease(p + [last])
  {
    var r := p + [last];
    forall a, b | 0 <= a < b < |r| ensures r[a].id < r[b].id {
      assert r[a] == p[a] && p[a] in p;
      if b < |p| {
        assert r[b] == p[b];
      }
    }
  }

  /** In such a table a stage listing's ids increase strictly. */
  lemma {:induction false} AtStageIdsIncrease(ts: seq<Task>, team: string, stage: string)
    requires forall k :: 0 <= k < |ts| ==> ts[k].id == k + 1
    ensures IdsIncrease(AtStage(ts, team, stage))
    decreases |ts|
  {
    if ts != [] {
      var init := ts[..|ts| - 1];
      var last := ts[|ts| - 1];
      assert forall k :: 0 <= k < |init| ==> init[k].id == k + 1;
      AtStageIdsIncrease(init, team, stage);
      AtStageRows(init, team, stage);
      var p := AtStage(init, team, stage);
      if last.team == team && last.currentStage == Some(stage) {
        IdsIncreaseSnoc(p, last);
      }
    }
  }

  /** The same holds of the listing with its limit, a prefix of the stage listing. */
  lemma StageListingIds(ts: seq<Task>, team: string, stage: string, limit: int)
    requires forall k :: 0 <= k < |ts| ==> ts[k].id == k + 1
    ensures IdsIncrease(StageListing(ts, team, stage, limit))
    ensures var r := StageListing(ts, team, stage, limit);
      forall j :: 0 <= j < |r| ==> 1 <= r[j].id <= |ts| && ts[r[j].id - 1] == r[j]
  {
    AtStageIdsIncrease(ts, team, stage);
    AtStageRows(ts, team, stage);
    var all := AtStage(ts, team, stage);
    var r := StageListing(ts, team, stage, limit);
    assert r == all[..|r|];
    forall a, b | 0 <= a < b < |r| ensures r[a].id < r[b].id {
      assert r[a] == all[a] && r[b] == all[b];
    }
    forall j | 0 <= j < |r| ensures 1 <= r[j].id <= |ts| && ts[r[j].id - 1] == r[j] {
      assert r[j] == all[j] && all[j] in all;
    }
  }

  // -------------------------------------------------------------- allowlist

  /** `ResetAllowlist`: only the wildcard, which means unrestricted. */
  function Reset(): (a: set<string>)
    ensures a == {Wildcard} && a != {}
  {
    {Wildcard}
  }

  /** `AllowDomain`: empty is an error, `*` resets, anything else replaces the wildcard and joins the list. */
  function Allow(a: set<string>, d: string): (r: Result<set<string>>)
    ensures r.Err? <==> d == ""
    ensures r.Ok? ==> d in r.value && r.value != {}
    ensures d == Wildcard ==> r == Ok(Reset())
    ensures d != "" && d != Wildcard ==> r == Ok(a - {Wildcard} + {d}) && Wildcard !in r.value
  {
    if d == "" then Err("domain required")
    else if d == Wildcard then Ok(Reset())
    else Ok(a - {Wildcard} + {d})
  }

  /** `DisallowDomain`: empty is an error; removing the last entry restores the wildcard. */
  function Disallow(a: set<string>, d: string): (r: Result<set<string>>)
    ensures r.Err? <==> d == ""
    ensures r.Ok? ==> d !in r.value || d == Wildcard
    ensures r.Ok? ==> r.value != {}
    ensures r.Ok? && a - {d} == {} ==> r.value == Reset()
    ensures r.Ok? && a - {d} != {} ==> r.value == a - {d}
  {
    if d == "" then Err("domain required")
    else if a - {d} == {} then Ok(Reset())
    else Ok(a - {d})
  }

  /** The wildcard never sits beside a real domain. */
  predicate WildcardAlone(a: set<string>) {
    Wildcard in a ==> a == {Wildcard}
  }

  /** Every allowlist operation keeps the wildcard alone, and leaves the list non-empty. */
  lemma AllowlistInvariant(a: set<string>, d: string)
    requires WildcardAlone(a)
    ensures WildcardAlone(Reset())
    ensures Allow(a, d).Ok? ==> WildcardAlone(Allow(a, d).value) && Allow(a, d).value != {}
    ensures Disallow(a, d).Ok? ==> WildcardAlone(Disallow(a, d).value) && Disallow(a, d).value != {}
  {
    if Disallow(a, d).Ok? && a - {d} != {} && Wildcard in a - {d} {
      assert a == {Wildcard};
    }
  }

  /** Allowing a domain and disallowing it again leaves the list unrestricted when it held only the wildcard. */
  lemma AllowThenDisallow(d: string)
    requires d != "" && d != Wildcard
    ensures Allow(Reset(), d) == Ok({d})
    ensures Disallow({d}, d) == Ok(Reset())
  {
    assert Reset() - {Wildcard} + {d} == {d};
    assert {d} - {d} == {};
  }
}
