/**
 * Candidate pools of a workflow stage and the scans over a team's agents that
 * reviewer and assignee choice share: a stage's `candidate_agents` is a
 * comma-separated list whose trimmed entries form a set of names, and the
 * agents are filtered and searched in their list order.
 */
module AgentPool {
  import opened Wrappers
  import opened GoStrings
  import opened Models

  /** The set of trimmed entries of a comma-separated candidate list. */
  function Pool(candidates: string): set<string> {
    var parts := Split(candidates, ',');
    set k | 0 <= k < |parts| :: TrimSpace(parts[k])
  }

  /** The set the scheduler and reviewer build entry by entry. */
  method BuildPool(candidates: string) returns (pool: set<string>)
    ensures pool == Pool(candidates)
  {
    var parts := Split(candidates, ',');
    pool := {};
    var i := 0;
    while i < |parts|
      invariant 0 <= i <= |parts|
      invariant pool == set k | 0 <= k < i :: TrimSpace(parts[k])
    {
      pool := pool + {TrimSpace(parts[i])};
      i := i + 1;
    }
  }

  /** A list of names without commas or edge white space, joined by commas, has exactly those names as its pool. */
  lemma PoolOfNames(names: seq<string>)
    requires names != []
    requires forall k :: 0 <= k < |names| ==> ',' !in names[k]
    requires forall k :: 0 <= k < |names| ==> names[k] == [] || (!IsSpace(names[k][0]) && !IsSpace(names[k][|names[k]| - 1]))
    ensures Pool(Join(names, [','])) == set k | 0 <= k < |names| :: names[k]
    ensures forall k :: 0 <= k < |names| ==> names[k] in Pool(Join(names, [',']))
  {
    SplitJoin(names, ',');
    forall k | 0 <= k < |names| {
      TrimSpaceFixed(names[k]);
    }
  }

  /** The agents `keep` accepts, in list order. */
  function Filter(agents: seq<Agent>, keep: Agent -> bool): seq<Agent>
    decreases |agents|
  {
    if agents == [] then []
    else (if keep(agents[0]) then [agents[0]] else []) + Filter(agents[1..], keep)
  }

  /** Filtering a list extended by one agent extends the filtered list by it when it is kept. */
  lemma {:induction false} FilterAppend(agents: seq<Agent>, a: Agent, keep: Agent -> bool)
    ensures Filter(agents + [a], keep) == Filter(agents, keep) + (if keep(a) then [a] else [])
    decreases |agents|
  {
    var last := if keep(a) then [a] else [];
    if agents == [] {
      assert agents + [a] == [a] && [a][1..] == [];
      assert Filter([a], keep) == last + Filter([], keep);
    } else {
      var head := if keep(agents[0]) then [agents[0]] else [];
      var rest := agents[1..];
      assert (agents + [a])[0] == agents[0];
      assert (agents + [a])[1..] == rest + [a];
      assert Filter(agents + [a], keep) == head + Filter(rest + [a], keep);
      FilterAppend(rest, a, keep);
      assert Filter(agents, keep) == head + Filter(rest, keep);
      assert head + (Filter(rest, keep) + last) == (head + Filter(rest, keep)) + last;
    }
  }

  /** Filtering keeps a list whose every agent is kept. */
  lemma {:induction false} FilterAll(agents: seq<Agent>, keep: Agent -> bool)
    requires forall k :: 0 <= k < |agents| ==> keep(agents[k])
    ensures Filter(agents, keep) == agents
    decreases |agents|
  {
    if agents != [] {
      FilterAll(agents[1..], keep);
      assert agents == [agents[0]] + agents[1..];
    }
  }

  /** The filtered list holds exactly the kept agents of the list. */
  lemma {:induction false} FilterMembers(agents: seq<Agent>, keep: Agent -> bool)
    ensures forall a :: a in Filter(agents, keep) <==> a in agents && keep(a)
    decreases |agents|
  {
    if agents != [] {
      FilterMembers(agents[1..], keep);
      assert agents == [agents[0]] + agents[1..];
    }
  }

  /** The first agent `keep` accepts, by position. */
  function FirstWhere(agents: seq<Agent>, keep: Agent -> bool): (r: Option<Agent>)
    ensures r.None? <==> forall k :: 0 <= k < |agents| ==> !keep(agents[k])
    ensures r.Some? ==> exists k :: 0 <= k < |agents| && agents[k] == r.value && keep(agents[k]) &&
                                   forall j :: 0 <= j < k ==> !keep(agents[j])
    decreases |agents|
  {
    if agents == [] then None
    else if keep(agents[0]) then Some(agents[0])
    else
      var r := FirstWhere(agents[1..], keep);
      assert forall k :: 1 <= k < |agents| ==> agents[k] == agents[1..][k - 1];
      r
  }

  /** The head of the filtered list is the first kept agent. */
  lemma {:induction false} FilterHead(agents: seq<Agent>, keep: Agent -> bool)
    ensures Filter(agents, keep) == [] <==> FirstWhere(agents, keep).None?
    ensures Filter(agents, keep) != [] ==> Filter(agents, keep)[0] == FirstWhere(agents, keep).value
    decreases |agents|
  {
    if agents != [] && !keep(agents[0]) {
      FilterHead(agents[1..], keep);
    }
  }

  /** The loop that collects the kept agents. */
  method FilterAgents(agents: seq<Agent>, keep: Agent -> bool) returns (out: seq<Agent>)
    ensures out == Filter(agents, keep)
  {
    out := [];
    var i := 0;
    while i < |agents|
      invariant 0 <= i <= |agents|
      invariant out == Filter(agents[..i], keep)
    {
      FilterAppend(agents[..i], agents[i], keep);
      assert agents[..i + 1] == agents[..i] + [agents[i]];
      if keep(agents[i]) {
        out := out + [agents[i]];
      }
      i := i + 1;
    }
    assert agents[..i] == agents;
  }

  /** The early-return scan for the first kept agent. */
  method FindFirst(agents: seq<Agent>, keep: Agent -> bool) returns (r: Option<Agent>)
    ensures r == FirstWhere(agents, keep)
  {
    var i := 0;
    while i < |agents|
      invariant 0 <= i <= |agents|
      invariant FirstWhere(agents, keep) == FirstWhere(agents[i..], keep)
    {
      assert agents[i..][1..] == agents[i + 1..];
      if keep(agents[i]) {
        return Some(agents[i]);
      }
      i := i + 1;
    }
    return None;
  }
}
