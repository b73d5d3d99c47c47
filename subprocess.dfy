/**
 * The subprocess agent runtime: the agent binary is launched (inside the
 * bubblewrap sandbox when a sandbox home is set), gets the turn request on
 * stdin and answers with one line per event on stdout.  Lines that are not
 * events make up the turn's output.  Starting the process, its stdout lines,
 * the JSON decoding of a line and the clock are parameters.
 */
module Subprocess {
  import opened Wrappers
  import opened GoStrings
  import opened SandboxWrap

  /** An agent event; a zero timestamp means the agent sent none. */
  datatype Event = Event(kind: string, team: string, agent: string, taskId: Option<int>, timestamp: nat)

  /** The runtime's configuration. */
  datatype SubprocessRuntime = SubprocessRuntime(command: string, args: seq<string>, sandboxHome: string, sandboxTeamDir: string)

  const AllowlistVar := "AGENTARY_NETWORK_ALLOWLIST"

  /** The process to start: wrapped in the sandbox when a sandbox home is set, the plain command otherwise. */
  function LaunchCmd(r: SubprocessRuntime, goos: string, bwrap: Option<string>, cwd: Option<string>): (c: Cmd)
    ensures r.sandboxHome == "" ==> c == Cmd(r.command, r.args)
    ensures |c.args| >= |r.args| && c.args[|c.args| - |r.args|..] == r.args
  {
    if r.sandboxHome != "" then
      var c := WrapCommand(goos, bwrap, cwd, r.sandboxHome, r.sandboxTeamDir, r.command, r.args);
      assert c.args[|c.args| - |r.args|..] == (["--", r.command] + r.args)[2..];
      c
    else Cmd(r.command, r.args)
  }

  /** The extra environment entry: the network allowlist joined by `,`, only for a non-empty allowlist. */
  function AllowlistEnv(allowlist: seq<string>): (e: Option<string>)
    ensures e.Some? <==> allowlist != []
    ensures e.Some? ==> HasPrefix(e.value, AllowlistVar + "=")
  {
    if allowlist == [] then None
    else
      var e := AllowlistVar + "=" + Join(allowlist, ",");
      assert e[..|AllowlistVar + "="|] == AllowlistVar + "=";
      Some(e)
  }

  /** The lines that go into the output: trimmed, non-blank, and not decodable as an event. */
  function OutputLines(lines: seq<string>, decode: string -> Option<Event>): (r: seq<string>)
    ensures |r| <= |lines|
    ensures forall k :: 0 <= k < |r| ==> r[k] != "" && decode(r[k]).None?
    decreases |lines|
  {
    if lines == [] then []
    else
      var rest := OutputLines(lines[..|lines| - 1], decode);
      var line := TrimSpace(lines[|lines| - 1]);
      if line == "" || decode(line).Some? then rest else rest + [line]
  }

  /** The events emitted: those of the trimmed non-blank lines, stamped with `now` when they carry no time. */
  function EmittedEvents(lines: seq<string>, decode: string -> Option<Event>, now: nat): (r: seq<Event>)
    ensures |r| <= |lines|
    ensures forall k :: 0 <= k < |r| ==> r[k].timestamp != 0 || now == 0
    decreases |lines|
  {
    if lines == [] then []
    else
      var rest := EmittedEvents(lines[..|lines| - 1], decode, now);
      var line := TrimSpace(lines[|lines| - 1]);
      if line == "" then rest
      else match decode(line)
        case None => rest
        case Some(ev) => rest + [Stamp(ev, now)]
  }

  /** A zero timestamp becomes `now`. */
  function Stamp(ev: Event, now: nat): (r: Event)
    ensures r == ev.(timestamp := r.timestamp)
    ensures r.timestamp == if ev.timestamp == 0 then now else ev.timestamp
  {
    if ev.timestamp == 0 then ev.(timestamp := now) else ev
  }

  /** Each line followed by `\n`. */
  function Lines(ls: seq<string>): string
    decreases |ls|
  {
    if ls == [] then "" else Lines(ls[..|ls| - 1]) + ls[|ls| - 1] + "\n"
  }

  /**
   * `RunTurn`: an empty command fails before anything starts, and so does a
   * failure to start the process; otherwise every stdout line is classified,
   * events are emitted in order, and the output is the other lines, trimmed.
   * A read error on stdout fails the turn.
   */
  method RunTurn(r: SubprocessRuntime, startError: Error, stdout: seq<string>, scanError: Error,
                 decode: string -> Option<Event>, now: nat)
    returns (output: Result<string>, emitted: seq<Event>)
    ensures r.command == "" ==> output.Err? && emitted == []
    ensures r.command != "" && startError.Some? ==> output.Err? && emitted == []
    ensures r.command != "" && startError.None? ==> emitted == EmittedEvents(stdout, decode, now)
    ensures r.command != "" && startError.None? && scanError.Some? ==> output.Err?
    ensures r.command != "" && startError.None? && scanError.None? ==>
      output == Ok(TrimSpace(Lines(OutputLines(stdout, decode))))
  {
    emitted := [];
    if r.command == "" {
      return Err("subprocess command is required"), emitted;
    }
    if startError.Some? {
      return Err(startError.value), emitted;
    }
    var buffer := "";
    var n := 0;
    while n < |stdout|
      invariant 0 <= n <= |stdout|
      invariant buffer == Lines(OutputLines(stdout[..n], decode))
      invariant emitted == EmittedEvents(stdout[..n], decode, now)
    {
      assert stdout[..n + 1][..n] == stdout[..n];
      var line := TrimSpace(stdout[n]);
      if line == "" {
        n := n + 1;
        continue;
      }
      var ev := decode(line);
      if ev.None? {
        buffer := buffer + line;
        buffer := buffer + "\n";
        n := n + 1;
        continue;
      }
      var e := ev.value;
      if e.timestamp == 0 {
        e := e.(timestamp := now);
      }
      emitted := emitted + [e];
      n := n + 1;
    }
    assert stdout[..n] == stdout;
    if scanError.Some? {
      return Err(scanError.value), emitted;
    }
    return Ok(TrimSpace(buffer)), emitted;
  }

  /** Classifying two runs of lines one after the other is classifying them together. */
  lemma {:induction false} OutputLinesAppend(a: seq<string>, b: seq<string>, decode: string -> Option<Event>)
    ensures OutputLines(a + b, decode) == OutputLines(a, decode) + OutputLines(b, decode)
    decreases |b|
  {
    if b == [] {
      assert a + b == a;
    } else {
      var init := b[..|b| - 1];
      assert (a + b)[..|a + b| - 1] == a + init;
      assert (a + b)[|a + b| - 1] == b[|b| - 1];
      OutputLinesAppend(a, init, decode);
    }
  }

  /** A line that decodes as an event, or a blank one, never reaches the output. */
  lemma EventLineNotOutput(lines: seq<string>, line: string, decode: string -> Option<Event>)
    requires TrimSpace(line) == "" || decode(TrimSpace(line)).Some?
    ensures OutputLines(lines + [line], decode) == OutputLines(lines, decode)
  {
    assert (lines + [line])[..|lines|] == lines;
  }

  /** Every output line comes from some stdout line, trimmed. */
  lemma {:induction false} OutputFromStdout(lines: seq<string>, decode: string -> Option<Event>)
    ensures forall k :: 0 <= k < |OutputLines(lines, decode)| ==>
      exists j :: 0 <= j < |lines| && OutputLines(lines, decode)[k] == TrimSpace(lines[j])
    decreases |lines|
  {
    if lines != [] {
      var init := lines[..|lines| - 1];
      OutputFromStdout(init, decode);
      assert forall j :: 0 <= j < |init| ==> init[j] == lines[j];
      var r, rest := OutputLines(lines, decode), OutputLines(init, decode);
      var last := |lines| - 1;
      assert r == rest || r == rest + [TrimSpace(lines[last])];
      forall k | 0 <= k < |r|
        ensures exists j :: 0 <= j < |lines| && r[k] == TrimSpace(lines[j])
      {
        if k == |rest| {
          assert r[k] == TrimSpace(lines[last]);
        } else {
          assert r[k] == rest[k];
          var j :| 0 <= j < |init| && rest[k] == TrimSpace(init[j]);
          assert init[j] == lines[j];
        }
      }
    } else {
      assert OutputLines(lines, decode) == [];
    }
  }
}
