/**
 * Workflow tables and the lookups every caller shares: the first edge whose
 * from-stage and outcome match decides the next stage, and a stage is terminal
 * when a stage of that name has type `terminal`.  Also the default workflow the
 * store seeds for every team.
 */
module WorkflowTables {
  import opened Wrappers
  import opened Models
  import opened GoStrings

  predicate Matches(e: Edge, from: string, outcome: string) {
    e.from == from && e.outcome == outcome
  }

  /** Index of the first edge matching `(from, outcome)`, or -1 when none matches. */
  function FirstMatch(edges: seq<Edge>, from: string, outcome: string): (i: int)
    ensures -1 <= i < |edges|
    ensures i == -1 <==> forall k :: 0 <= k < |edges| ==> !Matches(edges[k], from, outcome)
    ensures 0 <= i ==> Matches(edges[i], from, outcome)
    ensures 0 <= i ==> forall k :: 0 <= k < i ==> !Matches(edges[k], from, outcome)
  {
    if edges == [] then -1
    else if Matches(edges[0], from, outcome) then 0
    else
      var j := FirstMatch(edges[1..], from, outcome);
      assert forall k :: 1 <= k < |edges| ==> edges[k] == edges[1..][k - 1];
      if j == -1 then -1 else j + 1
  }

  /** The target of the first matching edge, if any. */
  function NextStage(edges: seq<Edge>, from: string, outcome: string): (r: Option<string>)
    ensures r.None? <==> forall k :: 0 <= k < |edges| ==> !Matches(edges[k], from, outcome)
  {
    var i := FirstMatch(edges, from, outcome);
    if i < 0 then None else Some(edges[i].to)
  }

  /** The engine's `transition`: the first matching edge's target, `""` when none matches. */
  function Transition(edges: seq<Edge>, from: string, outcome: string): (to: string)
    ensures NextStage(edges, from, outcome).None? ==> to == ""
  {
    match NextStage(edges, from, outcome)
    case Some(t) => t
    case None => ""
  }

  /** First match wins: an edge preceded by no other match decides the next stage. */
  lemma FirstMatchWins(edges: seq<Edge>, i: int, from: string, outcome: string)
    requires 0 <= i < |edges| && Matches(edges[i], from, outcome)
    requires forall k :: 0 <= k < i ==> !Matches(edges[k], from, outcome)
    ensures NextStage(edges, from, outcome) == Some(edges[i].to)
    ensures Transition(edges, from, outcome) == edges[i].to
  {
  }

  /** No two edges share a `(from, outcome)` pair. */
  predicate Functional(edges: seq<Edge>) {
    forall i, j :: 0 <= i < j < |edges| && edges[i].from == edges[j].from ==> edges[i].outcome != edges[j].outcome
  }

  /** On a functional table the lookup is plain membership, so the order of the edges does not matter. */
  lemma FunctionalLookup(edges: seq<Edge>, from: string, outcome: string, to: string)
    requires Functional(edges)
    ensures NextStage(edges, from, outcome) == Some(to) <==> Edge(from, outcome, to) in edges
  {
    var i := FirstMatch(edges, from, outcome);
    if Edge(from, outcome, to) in edges {
      var k :| 0 <= k < |edges| && edges[k] == Edge(from, outcome, to);
      assert Matches(edges[k], from, outcome);
      assert i >= 0;
    }
    if NextStage(edges, from, outcome) == Some(to) {
      assert edges[i] == Edge(from, outcome, to);
    }
  }

  /** Reordering a functional table does not change any lookup. */
  lemma FunctionalOrderFree(e1: seq<Edge>, e2: seq<Edge>, from: string, outcome: string)
    requires Functional(e1) && Functional(e2)
    requires multiset(e1) == multiset(e2)
    ensures NextStage(e1, from, outcome) == NextStage(e2, from, outcome)
  {
    var r := NextStage(e1, from, outcome);
    if r.Some? {
      FunctionalLookup(e1, from, outcome, r.value);
      assert Edge(from, outcome, r.value) in multiset(e2);
      FunctionalLookup(e2, from, outcome, r.value);
    } else {
      var r2 := NextStage(e2, from, outcome);
      if r2.Some? {
        FunctionalLookup(e2, from, outcome, r2.value);
        assert Edge(from, outcome, r2.value) in multiset(e1);
        FunctionalLookup(e1, from, outcome, r2.value);
      }
    }
  }

  /** The engine's stage lookup: the first stage with that name. */
  function FindStage(stages: seq<Stage>, name: string): (r: Option<Stage>)
    ensures r.None? <==> forall k :: 0 <= k < |stages| ==> stages[k].name != name
    ensures r.Some? ==> r.value in stages && r.value.name == name
  {
    if stages == [] then None
    else if stages[0].name == name then Some(stages[0])
    else FindStage(stages[1..], name)
  }

  /** `isTerminalStage`: some stage with that name has type `terminal`. */
  function IsTerminalStage(stages: seq<Stage>, name: string): (b: bool)
    ensures b <==> exists k :: 0 <= k < |stages| && stages[k].name == name && stages[k].kind == StageTypeTerminal
  {
    if stages == [] then false
    else if stages[0].name == name && stages[0].kind == StageTypeTerminal then true
    else
      var b := IsTerminalStage(stages[1..], name);
      assert forall k :: 1 <= k < |stages| ==> stages[k] == stages[1..][k - 1];
      assert b ==> exists k :: 1 <= k < |stages| && stages[k].name == name && stages[k].kind == StageTypeTerminal;
      b
  }

  function StageNames(stages: seq<Stage>): (names: seq<string>)
    ensures |names| == |stages|
    ensures forall k :: 0 <= k < |stages| ==> names[k] == stages[k].name
  {
    if stages == [] then [] else [stages[0].name] + StageNames(stages[1..])
  }

  /** The stages the store seeds into every new workflow: Coding, InReview, InApproval, Merging, Done. */
  const DefaultStages: seq<Stage> := [
    Stage("Coding", StageTypeAgent, "submit_for_review,done", ""),
    Stage("InReview", StageTypeAgent, "approved,changes_requested", ""),
    Stage("InApproval", StageTypeHuman, "approved,changes_requested", ""),
    Stage("Merging", StageTypeMerge, "done", ""),
    Stage("Done", StageTypeTerminal, "", "")
  ]

  /** The edges the store seeds into every new workflow. */
  const DefaultEdges: seq<Edge> := [
    Edge("Coding", "submit_for_review", "InReview"),
    Edge("Coding", "done", "Done"),
    Edge("InReview", "approved", "InApproval"),
    Edge("InReview", "changes_requested", "Coding"),
    Edge("InApproval", "approved", "Merging"),
    Edge("InApproval", "changes_requested", "Coding"),
    Edge("Merging", "done", "Done")
  ]

  lemma DefaultEdgesFunctional()
    ensures Functional(DefaultEdges)
  {
  }

  /** Every seeded edge leaves and enters a seeded stage. */
  lemma DefaultEdgesJoinStages()
    ensures forall k :: 0 <= k < |DefaultEdges| ==>
      DefaultEdges[k].from in StageNames(DefaultStages) && DefaultEdges[k].to in StageNames(DefaultStages)
  {
    assert StageNames(DefaultStages) == ["Coding", "InReview", "InApproval", "Merging", "Done"];
  }

  /** In the seeded workflow only `Done` is terminal, and no edge leaves it. */
  lemma DefaultDoneIsSink(outcome: string)
    ensures NextStage(DefaultEdges, "Done", outcome).None?
    ensures IsTerminalStage(DefaultStages, "Done")
    ensures forall n :: n != "Done" ==> !IsTerminalStage(DefaultStages, n)
  {
    assert DefaultStages[4].name == "Done" && DefaultStages[4].kind == StageTypeTerminal;
  }

  /** Every seeded stage, Coding included (through `changes_requested`), is the target of some seeded edge. */
  lemma DefaultEveryStageEntered()
    ensures forall k :: 0 <= k < |DefaultStages| ==> exists j :: 0 <= j < |DefaultEdges| && DefaultEdges[j].to == DefaultStages[k].name
  {
    assert DefaultEdges[3].to == DefaultStages[0].name;
    assert DefaultEdges[0].to == DefaultStages[1].name;
    assert DefaultEdges[2].to == DefaultStages[2].name;
    assert DefaultEdges[4].to == DefaultStages[3].name;
    assert DefaultEdges[1].to == DefaultStages[4].name;
  }
}
