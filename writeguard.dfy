/**
 * The role-based write guard: a manager may write anywhere under the team
 * directory, an engineer only under its own agent directory, the team's
 * `shared` directory or one of its task worktrees.  Paths are cleaned and made
 * absolute against the working directory, which is a parameter here.
 */
module WriteGuard {
  import opened Wrappers
  import opened GoStrings
  import opened GoPath
  import opened Models

  datatype Guard = Guard(role: string, agentName: string, teamDir: string, worktreeDirs: seq<string>)

  /** A path cleaned and made absolute; when the working directory is unknown the cleaned path itself. */
  function Normalize(cwd: Option<string>, p: string): (r: string)
    ensures IsAbs(p) ==> r == Clean(Clean(p))
  {
    match Abs(cwd, Clean(p))
    case Ok(a) => a
    case Err(_) => Clean(p)
  }

  /** `normalizeDir`: `""` stays `""`, anything else is normalized. */
  function NormalizeDir(cwd: Option<string>, dir: string): (r: string)
    ensures dir == "" <==> r == ""
  {
    if dir == "" then "" else
    var r := Normalize(cwd, dir);
    assert r != "" by {
      if IsAbs(Clean(dir)) {
      } else if cwd.Some? {
        assert JoinPath([cwd.value, Clean(dir)]) != "" by { assert [cwd.value, Clean(dir)][1] != ""; }
      }
    }
    r
  }

  /** Some worktree directory, normalized and non-empty, holds `abs`. */
  function InWorktree(cwd: Option<string>, abs: string, dirs: seq<string>): (b: bool)
    ensures b <==> exists k :: 0 <= k < |dirs| && NormalizeDir(cwd, dirs[k]) != "" && Within(abs, NormalizeDir(cwd, dirs[k]))
  {
    if dirs == [] then false
    else
      var d := NormalizeDir(cwd, dirs[0]);
      if d != "" && Within(abs, d) then true
      else
        var b := InWorktree(cwd, abs, dirs[1..]);
        assert forall k :: 1 <= k < |dirs| ==> dirs[k] == dirs[1..][k - 1];
        b
  }

  /** The team check both roles must pass: no team directory configured, or the path is within it. */
  predicate UnderTeam(g: Guard, cwd: Option<string>, abs: string) {
    var teamDir := NormalizeDir(cwd, g.teamDir);
    teamDir == "" || Within(abs, teamDir)
  }

  function OwnAgentDir(g: Guard, cwd: Option<string>): (d: string)
    ensures d != ""
  {
    var r := JoinPath([NormalizeDir(cwd, g.teamDir), "agents", g.agentName]);
    assert r != "" by { assert [NormalizeDir(cwd, g.teamDir), "agents", g.agentName][1] != ""; }
    r
  }

  function TeamSharedDir(g: Guard, cwd: Option<string>): (d: string)
    ensures d != ""
  {
    var r := JoinPath([NormalizeDir(cwd, g.teamDir), "shared"]);
    assert r != "" by { assert [NormalizeDir(cwd, g.teamDir), "shared"][1] != ""; }
    r
  }

  /** The engineer's own places: its agent directory, the team's shared directory, its worktrees. */
  predicate EngineerMayWrite(g: Guard, cwd: Option<string>, abs: string) {
    Within(abs, OwnAgentDir(g, cwd)) || Within(abs, TeamSharedDir(g, cwd)) || InWorktree(cwd, abs, g.worktreeDirs)
  }

  /** `WriteGuard.AllowWrite`. */
  function AllowWrite(g: Guard, cwd: Option<string>, path: string): (ok: bool)
    ensures path == "" ==> !ok
    ensures !UnderTeam(g, cwd, Normalize(cwd, path)) ==> !ok
    ensures g.role == RoleManager ==> (ok <==> path != "" && UnderTeam(g, cwd, Normalize(cwd, path)))
    ensures g.role != RoleManager ==>
      (ok <==> (path != "" && UnderTeam(g, cwd, Normalize(cwd, path)) && EngineerMayWrite(g, cwd, Normalize(cwd, path))))
  {
    if path == "" then false else
    var abs := Normalize(cwd, path);
    if !UnderTeam(g, cwd, abs) then false
    else if g.role == RoleManager then true
    else if Within(abs, OwnAgentDir(g, cwd)) then true
    else if Within(abs, TeamSharedDir(g, cwd)) then true
    else InWorktree(cwd, abs, g.worktreeDirs)
  }

  /** A clean absolute path: its own `Clean`, other than the root. */
  predicate CleanDir(t: string) { IsAbs(t) && Clean(t) == t && t != "/" }

  /** A common head can be dropped from both sides of a prefix test. */
  lemma HasPrefixDrop(pre: string, s: string, q: string)
    requires HasPrefix(pre + s, pre + q)
    ensures HasPrefix(s, q)
  {
    assert forall k :: 0 <= k < |q| ==> s[k] == (pre + s)[|pre| + k] == (pre + q)[|pre| + k] == q[k];
  }

  /** Within `pre + a` holds for `pre + b + r` only when the segments agree. */
  lemma WithinSegment(pre: string, a: string, b: string, r: string)
    requires '/' !in a && '/' !in b
    requires r == [] || r[0] == '/'
    requires Within(pre + (b + r), pre + a)
    ensures a == b
  {
    if pre + (b + r) == pre + a {
      assert b + r == (pre + (b + r))[|pre|..];
      assert a == (pre + a)[|pre|..];
      assert '/' !in b + r;
      assert r == [];
      assert b == b + r;
    } else {
      assert pre + a + "/" == pre + (a + "/");
      HasPrefixDrop(pre, b + r, a + "/");
      SegmentBoundary(a, b, r);
    }
  }

  /** A path below another agent's directory is outside the agent's own directory and outside `shared`. */
  lemma OtherAgentPath(t: string, name: string, other: string, rest: string)
    requires Segment(name) && Segment(other) && other != name
    requires rest == [] || rest[0] == '/'
    ensures var p := t + "/" + "agents" + "/" + other + rest;
      !Within(p, t + "/" + "agents" + "/" + name) && !Within(p, t + "/" + "shared")
  {
    var pre := t + "/" + "agents" + "/";
    var p := pre + other + rest;
    assert p == pre + (other + rest);
    if Within(p, pre + name) {
      WithinSegment(pre, name, other, rest);
    }
    var tp := t + "/";
    assert p == tp + ("agents" + ("/" + other + rest));
    assert t + "/" + "shared" == tp + "shared";
    if Within(p, tp + "shared") {
      WithinSegment(tp, "shared", "agents", "/" + other + rest);
    }
  }

  lemma CleanTeamDir(g: Guard, cwd: Option<string>, t: string)
    requires CleanDir(t) && g.teamDir == t
    ensures NormalizeDir(cwd, g.teamDir) == t
    ensures OwnAgentDir(g, cwd) == JoinPath([t, "agents", g.agentName])
    ensures TeamSharedDir(g, cwd) == t + "/" + "shared"
  {
    JoinPathSegment(t, "shared");
  }

  /** On a clean absolute path and a clean team directory the guard reduces to string prefix tests. */
  lemma AllowWriteOnCleanPath(g: Guard, cwd: Option<string>, p: string)
    requires CleanDir(g.teamDir)
    requires IsAbs(p) && Clean(p) == p
    ensures AllowWrite(g, cwd, p) <==> Within(p, g.teamDir) && (g.role == RoleManager || EngineerMayWrite(g, cwd, p))
  {
    CleanTeamDir(g, cwd, g.teamDir);
    assert Normalize(cwd, p) == p;
  }

  /** Under a clean team directory the agent's own directory is `<team>/agents/<agent>` and the shared one `<team>/shared`. */
  lemma EngineerDirsLayout(g: Guard, cwd: Option<string>)
    requires CleanDir(g.teamDir) && Segment(g.agentName)
    ensures OwnAgentDir(g, cwd) == g.teamDir + "/" + "agents" + "/" + g.agentName
    ensures TeamSharedDir(g, cwd) == g.teamDir + "/" + "shared"
  {
    CleanTeamDir(g, cwd, g.teamDir);
    JoinPathSegments(g.teamDir, "agents", g.agentName);
  }

  /** A manager may write every clean absolute path within a clean team directory. */
  lemma ManagerAllowedUnderTeam(g: Guard, cwd: Option<string>, p: string)
    requires g.role == RoleManager && CleanDir(g.teamDir)
    requires IsAbs(p) && Clean(p) == p && Within(p, g.teamDir)
    ensures AllowWrite(g, cwd, p)
  {
    CleanTeamDir(g, cwd, g.teamDir);
  }

  /** With a team directory configured, a clean absolute path outside it is denied whatever the role. */
  lemma OutsideTeamDenied(g: Guard, cwd: Option<string>, p: string)
    requires CleanDir(g.teamDir)
    requires IsAbs(p) && Clean(p) == p && !Within(p, g.teamDir)
    ensures !AllowWrite(g, cwd, p)
  {
    CleanTeamDir(g, cwd, g.teamDir);
  }

  /** A path at or below `<t>/agents/<name>` is within that directory and within `t`. */
  lemma OwnAgentPath(t: string, name: string, rest: string)
    requires rest == [] || rest[0] == '/'
    ensures var p := t + "/" + "agents" + "/" + name + rest;
      Within(p, t + "/" + "agents" + "/" + name) && Within(p, t)
  {
    var d := t + "/" + "agents" + "/" + name;
    WithinExtend(d, rest);
    assert d + rest == t + ("/" + "agents" + "/" + name + rest);
    WithinExtend(t, "/" + "agents" + "/" + name + rest);
  }

  /** An engineer may write its own agent directory and everything below it. */
  lemma EngineerOwnDirAllowed(g: Guard, cwd: Option<string>, rest: string)
    requires g.role != RoleManager && CleanDir(g.teamDir) && Segment(g.agentName)
    requires rest == [] || rest[0] == '/'
    requires var p := g.teamDir + "/" + "agents" + "/" + g.agentName + rest; Clean(p) == p
    ensures AllowWrite(g, cwd, g.teamDir + "/" + "agents" + "/" + g.agentName + rest)
  {
    var p := g.teamDir + "/" + "agents" + "/" + g.agentName + rest;
    AllowWriteOnCleanPath(g, cwd, p);
    EngineerDirsLayout(g, cwd);
    OwnAgentPath(g.teamDir, g.agentName, rest);
  }

  /** An engineer without worktrees may not write another agent's directory or anything below it. */
  lemma EngineerOtherAgentDenied(g: Guard, cwd: Option<string>, other: string, rest: string)
    requires g.role != RoleManager && g.worktreeDirs == []
    requires CleanDir(g.teamDir) && Segment(g.agentName) && Segment(other) && other != g.agentName
    requires rest == [] || rest[0] == '/'
    requires var p := g.teamDir + "/" + "agents" + "/" + other + rest; Clean(p) == p
    ensures !AllowWrite(g, cwd, g.teamDir + "/" + "agents" + "/" + other + rest)
  {
    var p := g.teamDir + "/" + "agents" + "/" + other + rest;
    AllowWriteOnCleanPath(g, cwd, p);
    EngineerDirsLayout(g, cwd);
    OtherAgentPath(g.teamDir, g.agentName, other, rest);
  }

  /** A directory followed by nothing or by a `/`-led remainder is within that directory. */
  lemma WithinExtend(d: string, rest: string)
    requires rest == [] || rest[0] == '/'
    ensures Within(d + rest, d)
  {
    if rest != [] {
      assert (d + rest)[..|d| + 1] == d + "/";
    }
  }
}
