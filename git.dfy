/**
 * Git naming and the guard clauses around the git commands the agentary runs.
 * Running git is outside the model: `run(dir, argv)` says whether a command
 * succeeds in a directory, and `output(dir, argv)` what a successful one prints.
 */
module Git {
  import opened Wrappers
  import opened GoStrings
  import opened GoPath

  /** A command line run in a directory. */
  datatype Invocation = Invocation(dir: string, argv: seq<string>)

  /** `BranchName`: `agentary/<team id>/<team name with spaces as ->/T<task id>`. */
  function BranchName(teamId: string, teamName: string, taskId: int): (r: string)
    ensures |r| == 12 + |teamId| + |teamName| + |Itoa(taskId)|
    ensures r[..9] == "agentary/" && r[9..9 + |teamId|] == teamId
  {
    "agentary/" + teamId + "/" + ReplaceChar(teamName, ' ', '-') + "/T" + Itoa(taskId)
  }

  /** The branch name as its four `/`-separated pieces. */
  lemma BranchNamePieces(teamId: string, teamName: string, taskId: int)
    ensures BranchName(teamId, teamName, taskId) == Join(["agentary", teamId, ReplaceChar(teamName, ' ', '-'), "T" + Itoa(taskId)], "/")
  {
    var safe := ReplaceChar(teamName, ' ', '-');
    var last := "T" + Itoa(taskId);
    var xs := ["agentary", teamId, safe, last];
    assert xs[1..][1..][1..] == [last];
    assert Join(xs[1..][1..], "/") == safe + "/" + last;
    assert Join(xs[1..], "/") == teamId + "/" + (safe + "/" + last);
    assert Join(xs, "/") == "agentary" + "/" + (teamId + "/" + (safe + "/" + last));
  }

  /** For a team id and name without `/`, the branch name splits into exactly its four pieces. */
  lemma BranchNameSplit(teamId: string, teamName: string, taskId: int)
    requires '/' !in teamId && '/' !in teamName
    ensures Split(BranchName(teamId, teamName, taskId), '/') == ["agentary", teamId, ReplaceChar(teamName, ' ', '-'), "T" + Itoa(taskId)]
  {
    var pieces := ["agentary", teamId, ReplaceChar(teamName, ' ', '-'), "T" + Itoa(taskId)];
    BranchNamePieces(teamId, teamName, taskId);
    ItoaNoChar(taskId, '/');
    assert "T" + Itoa(taskId) == ['T'] + Itoa(taskId);
    assert forall k :: 0 <= k < |pieces| ==> '/' !in pieces[k];
    SplitJoin(pieces, '/');
  }

  /**
   * For a team id and name without `/` and a 64-bit task id, the branch name
   * splits back into its pieces: team id, the dashed team name, and `T`
   * followed by the task id, which parses back.
   */
  lemma BranchNameRoundTrip(teamId: string, teamName: string, taskId: int)
    requires '/' !in teamId && '/' !in teamName && MinInt64 <= taskId <= MaxInt64
    ensures var parts := Split(BranchName(teamId, teamName, taskId), '/');
      |parts| == 4 && parts[0] == "agentary" && parts[1] == teamId && parts[2] == ReplaceChar(teamName, ' ', '-') &&
      |parts[3]| >= 1 && parts[3][0] == 'T' && Atoi(parts[3][1..]) == Ok(taskId)
  {
    BranchNameSplit(teamId, teamName, taskId);
    var last := "T" + Itoa(taskId);
    assert last[1..] == Itoa(taskId);
    AtoiItoa(taskId);
  }

  /** Spaces in the team name become dashes, so the branch name has a space only where the team id has one. */
  lemma BranchNameNoSpace(teamId: string, teamName: string, taskId: int)
    requires ' ' !in teamId
    ensures ' ' !in BranchName(teamId, teamName, taskId)
  {
    ReplaceCharIdempotent(teamName, ' ', '-');
    ItoaNoChar(taskId, ' ');
    BranchNamePieces(teamId, teamName, taskId);
    var safe := ReplaceChar(teamName, ' ', '-');
    var r := BranchName(teamId, teamName, taskId);
    assert r == "agentary/" + teamId + "/" + safe + "/T" + Itoa(taskId);
  }

  /** The last piece of a worktree path: `<repo with spaces as _>-T<task id>`. */
  function WorktreeLeaf(repoName: string, taskId: int): string {
    ReplaceChar(repoName, ' ', '_') + "-T" + Itoa(taskId)
  }

  /** `WorktreePath`: `<home>/protected/teams/<team with spaces as _>/worktrees/<leaf>`, cleaned. */
  function WorktreePath(home: string, teamName: string, repoName: string, taskId: int): string {
    JoinPath([home, "protected", "teams", ReplaceChar(teamName, ' ', '_'), "worktrees", WorktreeLeaf(repoName, taskId)])
  }

  /** For an absolute home and names that are plain segments once made safe, the worktree lies at the documented place below the home. */
  lemma WorktreePathLayout(home: string, teamName: string, repoName: string, taskId: int)
    requires IsAbs(home)
    requires Segment(ReplaceChar(teamName, ' ', '_')) && Segment(WorktreeLeaf(repoName, taskId))
    ensures WorktreePath(home, teamName, repoName, taskId) ==
      RootPrefix(home) + "/" + Join(["protected", "teams", ReplaceChar(teamName, ' ', '_'), "worktrees", WorktreeLeaf(repoName, taskId)], "/")
  {
    var segs := ["protected", "teams", ReplaceChar(teamName, ' ', '_'), "worktrees", WorktreeLeaf(repoName, taskId)];
    assert Segment("protected") && Segment("teams") && Segment("worktrees");
    assert forall k :: 0 <= k < |segs| ==> Segment(segs[k]);
    assert [home] + segs == [home, "protected", "teams", ReplaceChar(teamName, ' ', '_'), "worktrees", WorktreeLeaf(repoName, taskId)];
    JoinPathAll(home, segs);
  }

  /** `CreateWorktree`'s guard: all three of worktree path, source URL and branch name are required. */
  function CreateWorktreeGuard(worktreePath: string, sourceUrl: string, branchName: string): (r: Error)
    ensures r.None? <==> worktreePath != "" && sourceUrl != "" && branchName != ""
  {
    if worktreePath == "" || sourceUrl == "" || branchName == "" then Some("worktree_path, source_url, and branch_name required")
    else None
  }

  /** What `git rev-parse HEAD` prints in a directory, trimmed. */
  function Head(dir: string, output: Invocation -> Option<string>): (r: Result<string>)
    ensures r.Ok? <==> output(Invocation(dir, ["git", "rev-parse", "HEAD"])).Some?
    ensures r.Ok? ==> r.value == TrimSpace(output(Invocation(dir, ["git", "rev-parse", "HEAD"])).value)
  {
    match output(Invocation(dir, ["git", "rev-parse", "HEAD"]))
    case Some(out) => Ok(TrimSpace(out))
    case None => Err("git rev-parse HEAD failed")
  }

  /**
   * `CreateWorktree`: after the guard and creating the parent directory, an
   * existing worktree just reports its HEAD; otherwise a shallow clone and a new
   * branch, then the HEAD of the fresh checkout.
   */
  function CreateWorktree(worktreePath: string, sourceUrl: string, branchName: string, mkdirError: Error, present: bool,
                          run: Invocation -> bool, output: Invocation -> Option<string>): (r: Result<string>)
    ensures CreateWorktreeGuard(worktreePath, sourceUrl, branchName).Some? ==> r.Err?
    ensures CreateWorktreeGuard(worktreePath, sourceUrl, branchName).None? && mkdirError.None? && present ==>
      r == Head(worktreePath, output)
    ensures r.Ok? ==> r == Head(worktreePath, output)
    ensures r.Ok? && !present ==>
      run(Invocation("", ["git", "clone", "--depth", "1", sourceUrl, worktreePath])) &&
      run(Invocation(worktreePath, ["git", "checkout", "-b", branchName]))
  {
    var guard := CreateWorktreeGuard(worktreePath, sourceUrl, branchName);
    if guard.Some? then Err(guard.value)
    else if mkdirError.Some? then Err(mkdirError.value)
    else if present then Head(worktreePath, output)
    else if !run(Invocation("", ["git", "clone", "--depth", "1", sourceUrl, worktreePath])) then Err("git clone failed")
    else if !run(Invocation(worktreePath, ["git", "checkout", "-b", branchName])) then Err("git checkout -b failed")
    else Head(worktreePath, output)
  }

  /** `DeleteWorktree`: nothing to do for an empty or absent path; otherwise the removal's outcome. */
  function DeleteWorktree(worktreePath: string, present: bool, removeError: Error): (r: Error)
    ensures worktreePath == "" || !present ==> r.None?
    ensures worktreePath != "" && present ==> r == removeError
  {
    if worktreePath == "" then None
    else if !present then None
    else removeError
  }

  /** `RebaseOntoMain`: checkout, fetch, then rebase onto `origin/main`, falling back to `origin/master`; a no-op without worktree or branch. */
  function RebaseOntoMain(worktreePath: string, branchName: string, run: Invocation -> bool): (r: Error)
    ensures worktreePath == "" || branchName == "" ==> r.None?
    ensures worktreePath != "" && branchName != "" ==>
      (r.None? <==> (run(Invocation(worktreePath, ["git", "checkout", branchName])) &&
                     run(Invocation(worktreePath, ["git", "fetch", "origin"])) &&
                     (run(Invocation(worktreePath, ["git", "rebase", "origin/main"])) ||
                      run(Invocation(worktreePath, ["git", "rebase", "origin/master"])))))
  {
    if worktreePath == "" || branchName == "" then None
    else if !run(Invocation(worktreePath, ["git", "checkout", branchName])) then Some("git checkout " + branchName + " failed")
    else if !run(Invocation(worktreePath, ["git", "fetch", "origin"])) then Some("git fetch origin failed")
    else if run(Invocation(worktreePath, ["git", "rebase", "origin/main"])) then None
    else if run(Invocation(worktreePath, ["git", "rebase", "origin/master"])) then None
    else Some("git rebase origin/main failed")
  }

  /** `MergeInWorktree`: checkout `main`, falling back to `master`, then merge the branch; a no-op without worktree or branch. */
  function MergeInWorktree(worktreePath: string, branchName: string, run: Invocation -> bool): (r: Error)
    ensures worktreePath == "" || branchName == "" ==> r.None?
    ensures worktreePath != "" && branchName != "" ==>
      (r.None? <==> ((run(Invocation(worktreePath, ["git", "checkout", "main"])) ||
                      run(Invocation(worktreePath, ["git", "checkout", "master"]))) &&
                     run(Invocation(worktreePath, ["git", "merge", branchName]))))
  {
    if worktreePath == "" || branchName == "" then None
    else if !run(Invocation(worktreePath, ["git", "checkout", "main"])) && !run(Invocation(worktreePath, ["git", "checkout", "master"])) then
      Some("git checkout main/master failed")
    else if !run(Invocation(worktreePath, ["git", "merge", branchName])) then Some("git merge " + branchName + " failed")
    else None
  }

  /** `RunTestCmd`: the test command through `sh -c`; a no-op without worktree or command. */
  function RunTestCmd(worktreePath: string, testCmd: string, run: Invocation -> bool): (r: Error)
    ensures worktreePath == "" || testCmd == "" ==> r.None?
    ensures worktreePath != "" && testCmd != "" ==> (r.None? <==> run(Invocation(worktreePath, ["sh", "-c", testCmd])))
  {
    if worktreePath == "" || testCmd == "" then None
    else if run(Invocation(worktreePath, ["sh", "-c", testCmd])) then None
    else Some("test_cmd failed")
  }

  /** The revision range `Diff` asks for: an empty base is `HEAD~1`, an empty head is `HEAD`. */
  function DiffRange(baseSha: string, headRef: string): (r: string)
    ensures baseSha != "" ==> HasPrefix(r, baseSha + "..")
    ensures baseSha == "" ==> HasPrefix(r, "HEAD~1..")
  {
    var b := if baseSha == "" then "HEAD~1" else baseSha;
    var h := if headRef == "" then "HEAD" else headRef;
    assert (b + ".." + h)[..|b + ".."|] == b + "..";
    b + ".." + h
  }

  /** `Diff`: `""` without running git for an empty worktree; otherwise what `git diff <range>` prints, or an error. */
  function Diff(worktreePath: string, baseSha: string, headRef: string, output: Invocation -> Option<string>): (r: Result<string>)
    ensures worktreePath == "" ==> r == Ok("")
    ensures worktreePath != "" ==>
      var inv := Invocation(worktreePath, ["git", "diff", DiffRange(baseSha, headRef)]);
      (r.Ok? <==> output(inv).Some?) && (r.Ok? ==> r.value == output(inv).value)
  {
    if worktreePath == "" then Ok("")
    else
      match output(Invocation(worktreePath, ["git", "diff", DiffRange(baseSha, headRef)]))
      case Some(out) => Ok(out)
      case None => Err("git diff failed")
  }

  /** The range always ends in the head reference, `HEAD` when none is given. */
  lemma DiffRangeHead(baseSha: string, headRef: string)
    ensures HasSuffix(DiffRange(baseSha, headRef), if headRef == "" then "HEAD" else headRef)
  {
    var h := if headRef == "" then "HEAD" else headRef;
    var r := DiffRange(baseSha, headRef);
    var b := if baseSha == "" then "HEAD~1" else baseSha;
    assert r == (b + "..") + h;
    assert r[|r| - |h|..] == h;
  }
}
