/**
 * The command an agent runs in: directly, or inside a bubblewrap sandbox that
 * exposes the agentary home and a few system directories.  The platform name,
 * the result of looking `bwrap` up on the search path and the process's working
 * directory (used by `filepath.Abs`) are parameters.
 */
module SandboxWrap {
  import opened Wrappers
  import opened GoStrings
  import opened GoPath

  /** A program and its arguments, as `exec.Cmd` would run them. */
  datatype Cmd = Cmd(program: string, args: seq<string>)

  /** One bubblewrap option. */
  datatype Mount =
    | Bind(path: string)      // --bind path path: read-write
    | RoBind(path: string)    // --ro-bind path path: read-only
    | Dev(path: string)
    | Proc(path: string)
    | Tmpfs(path: string)
    | UnsharePid

  /** The options as bubblewrap's argv. */
  function MountArgs(ms: seq<Mount>): (r: seq<string>)
    ensures ms == [] ==> r == []
  {
    if ms == [] then []
    else
      var head := match ms[0]
        case Bind(p) => ["--bind", p, p]
        case RoBind(p) => ["--ro-bind", p, p]
        case Dev(p) => ["--dev", p]
        case Proc(p) => ["--proc", p]
        case Tmpfs(p) => ["--tmpfs", p]
        case UnsharePid => ["--unshare-pid"];
      head + MountArgs(ms[1..])
  }

  /** The system directories every sandbox sees. */
  const SystemMounts: seq<Mount> := [
    RoBind("/usr"), RoBind("/lib"), RoBind("/lib64"), Dev("/dev"), Proc("/proc"), Tmpfs("/tmp"), UnsharePid
  ]

  /** The team directory is writable and the home read-only. */
  function TeamMounts(absHome: string, absTeam: string): seq<Mount> {
    [RoBind(absHome), Bind(absTeam)] + SystemMounts
  }

  /** The whole home is writable. */
  function HomeMounts(absHome: string): seq<Mount> {
    [Bind(absHome)] + SystemMounts
  }

  /**
   * The team-under-home test as the code writes it: the lengths are byte
   * lengths, and only the byte at `len(absHome)` is compared with `/`.
   */
  predicate TeamRestrictedAsWritten(absTeam: string, absHome: string) {
    absTeam != "" &&
    (absTeam == absHome || (Utf8Len(absTeam) > Utf8Len(absHome) && Utf8(absTeam)[Utf8Len(absHome)] == '/' as int))
  }

  /** The intended test: the team directory equals the home or lies below it at a separator boundary. */
  predicate TeamRestricted(absTeam: string, absHome: string) {
    absTeam != "" && Within(absTeam, absHome)
  }

  /** `filepath.Abs` whose error is ignored: the empty path on failure. */
  function AbsOrEmpty(cwd: Option<string>, p: string): string {
    match Abs(cwd, p)
    case Ok(a) => a
    case Err(_) => ""
  }

  /** The team-under-home test: as written, or as intended. */
  predicate Restricted(asWritten: bool, absTeam: string, absHome: string) {
    if asWritten then TeamRestrictedAsWritten(absTeam, absHome) else TeamRestricted(absTeam, absHome)
  }

  /** The absolute team directory the test looks at; an unset team directory gives `""`, which no test accepts. */
  function TeamAbs(cwd: Option<string>, teamDir: string): string {
    if teamDir == "" then "" else AbsOrEmpty(cwd, teamDir)
  }

  /** The options for an absolute home and team directory. */
  function Mounts(absHome: string, absTeam: string, asWritten: bool): seq<Mount> {
    if Restricted(asWritten, absTeam, absHome) then TeamMounts(absHome, absTeam) else HomeMounts(absHome)
  }

  /** The wrapped command, given what the team-under-home test says. */
  function Wrap(goos: string, bwrap: Option<string>, cwd: Option<string>, home: string, teamDir: string,
                binary: string, args: seq<string>, asWritten: bool): Cmd
  {
    if home == "" || goos != "linux" || bwrap.None? || Abs(cwd, home).Err? then Cmd(binary, args)
    else Cmd(bwrap.value, MountArgs(Mounts(Abs(cwd, home).value, TeamAbs(cwd, teamDir), asWritten)) + ["--", binary] + args)
  }

  /** `WrapCommand` as the code is written. */
  function WrapCommandAsWritten(goos: string, bwrap: Option<string>, cwd: Option<string>, home: string, teamDir: string,
                                binary: string, args: seq<string>): Cmd
  {
    Wrap(goos, bwrap, cwd, home, teamDir, binary, args, true)
  }

  /** `WrapCommand` with the separator-boundary test it intends. */
  function WrapCommand(goos: string, bwrap: Option<string>, cwd: Option<string>, home: string, teamDir: string,
                       binary: string, args: seq<string>): (c: Cmd)
    ensures home == "" || goos != "linux" || bwrap.None? || Abs(cwd, home).Err? ==> c == Cmd(binary, args)
    ensures home != "" && goos == "linux" && bwrap.Some? && Abs(cwd, home).Ok? ==>
      c.program == bwrap.value && |c.args| >= |args| + 2 && c.args[|c.args| - |args| - 2..] == ["--", binary] + args
    ensures home != "" && goos == "linux" && bwrap.Some? && Abs(cwd, home).Ok? ==>
      c.args == MountArgs(Mounts(Abs(cwd, home).value, TeamAbs(cwd, teamDir), false)) + (["--", binary] + args)
  {
    var c := Wrap(goos, bwrap, cwd, home, teamDir, binary, args, false);
    if home != "" && goos == "linux" && bwrap.Some? && Abs(cwd, home).Ok? then
      var m := MountArgs(Mounts(Abs(cwd, home).value, TeamAbs(cwd, teamDir), false));
      var tail := ["--", binary] + args;
      assert c.args == m + ["--", binary] + args;
      assert m + ["--", binary] + args == m + tail;
      assert (m + tail)[|m|..] == tail;
      c
    else c
  }

  /**
   * The intended and the written `WrapCommand` differ only where the written
   * test accepts a team directory that does not lie within the home.
   */
  lemma WrapCommandDiffers(goos: string, bwrap: Option<string>, cwd: Option<string>, home: string, teamDir: string,
                           binary: string, args: seq<string>)
    ensures WrapCommand(goos, bwrap, cwd, home, teamDir, binary, args) != WrapCommandAsWritten(goos, bwrap, cwd, home, teamDir, binary, args) ==>
      home != "" && goos == "linux" && bwrap.Some? && Abs(cwd, home).Ok? &&
      TeamRestrictedAsWritten(TeamAbs(cwd, teamDir), Abs(cwd, home).value) && !TeamRestricted(TeamAbs(cwd, teamDir), Abs(cwd, home).value)
  {
    if home != "" && goos == "linux" && bwrap.Some? && Abs(cwd, home).Ok? {
      var t, h := TeamAbs(cwd, teamDir), Abs(cwd, home).value;
      if TeamRestricted(t, h) {
        RestrictedAgree(t, h);
      }
    }
  }

  /** The read-write mounts of an option list. */
  function WritablePaths(ms: seq<Mount>): (r: seq<string>)
    ensures forall p :: p in r <==> exists k :: 0 <= k < |ms| && ms[k] == Bind(p)
  {
    if ms == [] then []
    else
      var rest := WritablePaths(ms[1..]);
      assert forall k :: 1 <= k < |ms| ==> ms[k] == ms[1..][k - 1];
      assert forall p :: (exists k :: 1 <= k < |ms| && ms[k] == Bind(p)) ==> exists k :: 0 <= k < |ms[1..]| && ms[1..][k] == Bind(p);
      if ms[0].Bind? then [ms[0].path] + rest else rest
  }

  /** The system mounts are all read-only. */
  lemma SystemMountsReadOnly()
    ensures WritablePaths(SystemMounts) == []
  {
    var s := SystemMounts;
    assert s[6..][1..] == [];
    assert WritablePaths(s[6..]) == [];
    assert s[5..][1..] == s[6..];
    assert WritablePaths(s[5..]) == [];
    assert s[4..][1..] == s[5..];
    assert WritablePaths(s[4..]) == [];
    assert s[3..][1..] == s[4..];
    assert WritablePaths(s[3..]) == [];
    assert s[2..][1..] == s[3..];
    assert WritablePaths(s[2..]) == [];
    assert s[1..][1..] == s[2..];
    assert WritablePaths(s[1..]) == [];
    assert s[0..] == s;
  }

  /** The two layouts: one writable directory each, the home read-only in the first. */
  lemma LayoutsWritable(absHome: string, absTeam: string)
    ensures WritablePaths(TeamMounts(absHome, absTeam)) == [absTeam]
    ensures WritablePaths(HomeMounts(absHome)) == [absHome]
  {
    SystemMountsReadOnly();
    var t := TeamMounts(absHome, absTeam);
    assert t[1..] == [Bind(absTeam)] + SystemMounts && t[1..][1..] == SystemMounts;
    var h := HomeMounts(absHome);
    assert h[1..] == SystemMounts;
  }

  /**
   * With the intended test nothing outside the home is ever writable: the only
   * writable directory is the team directory when it lies within the home, with
   * the home mounted read-only, and the home itself otherwise.
   */
  lemma WritableUnderHome(absHome: string, absTeam: string)
    ensures forall p :: p in WritablePaths(Mounts(absHome, absTeam, false)) ==> Within(p, absHome)
    ensures TeamRestricted(absTeam, absHome) ==>
      Mounts(absHome, absTeam, false)[0] == RoBind(absHome) && WritablePaths(Mounts(absHome, absTeam, false)) == [absTeam]
    ensures !TeamRestricted(absTeam, absHome) ==> WritablePaths(Mounts(absHome, absTeam, false)) == [absHome]
  {
    LayoutsWritable(absHome, absTeam);
  }

  /** An unset team directory always leaves the whole home writable. */
  lemma NoTeamHomeWritable(cwd: Option<string>, absHome: string, asWritten: bool)
    ensures Mounts(absHome, TeamAbs(cwd, ""), asWritten) == HomeMounts(absHome)
  {
  }

  /** An absolute, clean team directory is used as it is. */
  lemma TeamAbsClean(cwd: Option<string>, teamDir: string)
    requires IsAbs(teamDir) && Clean(teamDir) == teamDir
    ensures TeamAbs(cwd, teamDir) == teamDir
  {
  }

  /**
   * The code's test lets a team directory outside the home through: with home
   * `/home/a` and team directory `/srv/xx/t`, the home is mounted read-only and
   * `/srv/xx/t` read-write, although `/srv/xx/t` is not within `/home/a`.
   */
  lemma TeamOutsideHomeRestricted()
    ensures TeamRestrictedAsWritten("/srv/xx/t", "/home/a")
    ensures !Within("/srv/xx/t", "/home/a")
    ensures Mounts("/home/a", "/srv/xx/t", true) == TeamMounts("/home/a", "/srv/xx/t")
    ensures "/srv/xx/t" in WritablePaths(Mounts("/home/a", "/srv/xx/t", true))
  {
    var team, home := "/srv/xx/t", "/home/a";
    OutsideHomeByteSeven();
    assert team[1] != (home + "/")[1];
    LayoutsWritable(home, team);
  }

  /**
   * The byte index matters: with home `/é` (three bytes) and team directory
   * `/ab/c`, the byte at index 3 is the `/` after `ab`, so the written test
   * restricts to `/ab/c`; the rune at index 2 would be `b`.
   */
  lemma NonAsciiHomeRestricted()
    ensures TeamRestrictedAsWritten("/ab/c", "/\U{00E9}")
    ensures "/ab/c"[|"/\U{00E9}"|] != '/'
    ensures !Within("/ab/c", "/\U{00E9}")
  {
    Utf8Ascii("/ab/c");
    assert Utf8("/\U{00E9}") == [0x2F] + Utf8("\U{00E9}");
    assert Utf8("\U{00E9}") == RuneBytes('\U{00E9}') + Utf8([]);
    assert Utf8Len("/\U{00E9}") == 3;
    assert "/ab/c"[1] != ("/\U{00E9}" + "/")[1];
  }

  /** Byte 7 of `/srv/xx/t`, the length of `/home/a`, is a `/`. */
  lemma OutsideHomeByteSeven()
    ensures TeamRestrictedAsWritten("/srv/xx/t", "/home/a")
  {
    var team, home := "/srv/xx/t", "/home/a";
    assert IsAscii(team) by {
      forall k | 0 <= k < |team| ensures team[k] as int < 0x80 {
      }
    }
    assert IsAscii(home) by {
      forall k | 0 <= k < |home| ensures home[k] as int < 0x80 {
      }
    }
    Utf8Ascii(team);
    Utf8Ascii(home);
    assert Utf8(team)[7] == team[7] as int;
  }

  /** A team directory equal to the home or below it gets the restricted layout under both tests. */
  lemma RestrictedAgree(absTeam: string, absHome: string)
    requires TeamRestricted(absTeam, absHome)
    ensures TeamRestrictedAsWritten(absTeam, absHome)
  {
    if absTeam != absHome {
      var rest := absTeam[|absHome| + 1..];
      assert absTeam == absHome + "/" + rest;
      Utf8Append(absHome + "/", rest);
      Utf8Append(absHome, "/");
      Utf8Ascii("/");
    }
  }
}
