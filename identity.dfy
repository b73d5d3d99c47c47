/**
 * The human identity of the person running the agentary: the member file it is
 * saved in and the user name derived from git's `user.name` and `user.email`.
 * What `git config --get` prints is a parameter (`None` when the command fails),
 * and so is the YAML encoding of a record.
 */
module Identity {
  import opened Wrappers
  import opened GoStrings
  import opened GoPath
  import opened Disk

  /** A name and e-mail for commit attribution and review approvals, and where they came from. */
  datatype Human = Human(name: string, email: string, source: string)

  const MembersDirName := "members"
  const DefaultUser := "default"
  const MemberExt := ".yaml"

  /** `MembersDir`: `<home>/members`. */
  function MembersDir(home: string): string {
    JoinPath([home, MembersDirName])
  }

  /** The file-system form of a user name: trimmed, spaces as `_`, lower case. */
  function SafeUser(username: string): (r: string)
    ensures |r| <= |username|
    ensures ' ' !in r
    ensures forall k :: 0 <= k < |r| ==> !FoldsToAscii(r[k])
  {
    var r := ToLower(ReplaceChar(TrimSpace(username), ' ', '_'));
    assert forall k :: 0 <= k < |r| ==> r[k] == LowerChar(ReplaceChar(TrimSpace(username), ' ', '_')[k]);
    r
  }

  /** The member file's name: the safe user name, `default` when that is empty, with `.yaml`. */
  function MemberFileName(username: string): string {
    (if SafeUser(username) == "" then DefaultUser else SafeUser(username)) + MemberExt
  }

  /** `MemberPath`: the member file inside the members directory. */
  function MemberPath(home: string, username: string): string {
    JoinPath([MembersDir(home), MemberFileName(username)])
  }

  /** Replacing a character that does not occur changes nothing. */
  lemma ReplaceAbsent(s: string, a: char, b: char)
    requires a !in s
    ensures ReplaceChar(s, a, b) == s
  {
  }

  /** Sanitising a name a second time changes nothing, so both spellings name one member file. */
  lemma SafeUserIdempotent(username: string)
    ensures SafeUser(SafeUser(username)) == SafeUser(username)
    ensures MemberFileName(SafeUser(username)) == MemberFileName(username)
  {
    var s := SafeUser(username);
    SafeUserEdges(username);
    TrimSpaceFixed(s);
    ReplaceAbsent(s, ' ', '_');
    ToLowerNoUpper(s);
  }

  /** A sanitised name neither begins nor ends with white space. */
  lemma SafeUserEdges(username: string)
    ensures var s := SafeUser(username); s == [] || (!IsSpace(s[0]) && !IsSpace(s[|s| - 1]))
  {
    var t := TrimSpace(username);
    var u := ReplaceChar(t, ' ', '_');
    var s := SafeUser(username);
    assert s == ToLower(u);
    if s != [] {
      assert s[0] == LowerChar(u[0]) && u[0] == (if t[0] == ' ' then '_' else t[0]);
      SafeCharNotSpace(t[0]);
      var n := |s| - 1;
      assert s[n] == LowerChar(u[n]) && u[n] == (if t[n] == ' ' then '_' else t[n]);
      SafeCharNotSpace(t[n]);
    }
  }

  /** A character that is not white space stays so once sanitised. */
  lemma SafeCharNotSpace(c: char)
    requires !IsSpace(c)
    ensures !IsSpace(LowerChar(if c == ' ' then '_' else c))
  {
  }

  /** A blank user name is stored as `default.yaml`. */
  lemma BlankUserIsDefault(username: string)
    requires forall k :: 0 <= k < |username| ==> IsSpace(username[k])
    ensures MemberFileName(username) == "default.yaml"
  {
  }

  /** The member file name is a plain path segment whenever the user name has no `/`. */
  lemma MemberFileNameSegment(username: string)
    requires '/' !in username
    ensures Segment(MemberFileName(username))
  {
    var t := TrimSpace(username);
    TrimSpaceIsSlice(username);
    assert '/' !in t;
    var u := ReplaceChar(t, ' ', '_');
    assert '/' !in u;
    var s := SafeUser(username);
    forall k | 0 <= k < |s| ensures s[k] != '/' {
      assert s[k] == LowerChar(u[k]) && u[k] in u;
    }
    assert '/' !in s;
    var f := MemberFileName(username);
    assert |f| >= 5;
  }

  /** For an absolute home and a user name without `/`, the member file is `<home>/members/<file name>`. */
  lemma MemberPathLayout(home: string, username: string)
    requires IsAbs(home) && '/' !in username
    ensures MembersDir(home) == (if Clean(home) == "/" then "/" else Clean(home) + "/") + MembersDirName
    ensures MemberPath(home, username) == MembersDir(home) + "/" + MemberFileName(username)
  {
    var m := MembersDirName;
    assert Segment(m);
    JoinPathSegment(home, m);
    JoinPathSegmentClean(home, m);
    var d := MembersDir(home);
    var f := MemberFileName(username);
    MemberFileNameSegment(username);
    JoinPathSegment(d, f);
  }

  /** `gitConfig`: the trimmed output of `git config --get`, or the failure. */
  function GitConfig(out: Option<string>): (r: Result<string>)
    ensures r.Ok? <==> out.Some?
    ensures r.Ok? ==> r.value == TrimSpace(out.value)
  {
    match out
    case Some(s) => Ok(TrimSpace(s))
    case None => Err("git config failed")
  }

  /** `DetectFromGit`: each field trimmed, empty when its command fails; the source is always `git` and there is no error. */
  function DetectFromGit(nameOut: Option<string>, emailOut: Option<string>): (h: Human)
    ensures h.source == "git"
    ensures h.name == (if nameOut.Some? then TrimSpace(nameOut.value) else "")
    ensures h.email == (if emailOut.Some? then TrimSpace(emailOut.value) else "")
  {
    var name := if GitConfig(nameOut).Ok? then TrimSpaceIdempotent(nameOut.value); TrimSpace(GitConfig(nameOut).value) else "";
    var email := if GitConfig(emailOut).Ok? then TrimSpaceIdempotent(emailOut.value); TrimSpace(GitConfig(emailOut).value) else "";
    Human(name, email, "git")
  }

  /** The user name `DetectAndSave` files the identity under: the name, else the e-mail's local part, else `default`. */
  function UserName(h: Human): (r: string)
    ensures r != ""
    ensures h.name != "" ==> r == h.name
    ensures h.name == "" ==> '@' !in r
    ensures h.name == "" && IndexOf(h.email, '@') > 0 ==> r == h.email[..IndexOf(h.email, '@')]
    ensures h.name == "" && IndexOf(h.email, '@') <= 0 ==> r == DefaultUser
  {
    var idx := IndexOf(h.email, '@');
    var fromEmail := if idx > 0 then h.email[..idx] else "";
    var r := if h.name != "" then h.name else if fromEmail != "" then fromEmail else DefaultUser;
    assert "default"[0] != '@' && "default"[1] != '@' && "default"[2] != '@' && "default"[3] != '@';
    assert "default"[4] != '@' && "default"[5] != '@' && "default"[6] != '@';
    r
  }

  /**
   * `DetectAndSave`: the detected identity is written, in the given encoding,
   * to the member file of its user name, after creating the members directory.
   */
  method DetectAndSave(fs: FileSystem, home: string, nameOut: Option<string>, emailOut: Option<string>, encode: Human -> string)
    returns (h: Option<Human>, err: Error)
    modifies fs
    ensures err.Some? <==> h.None?
    ensures h.Some? ==> h.value == DetectFromGit(nameOut, emailOut)
    ensures err.None? ==>
      MembersDir(home) !in fs.failing && MemberPath(home, UserName(h.value)) !in fs.failing &&
      fs.dirs == old(fs.dirs) + {MembersDir(home)} &&
      fs.files == old(fs.files)[MemberPath(home, UserName(h.value)) := encode(h.value)]
    ensures err.Some? ==> fs.files == old(fs.files)
    ensures fs.failing == old(fs.failing)
  {
    var detected := DetectFromGit(nameOut, emailOut);
    var username := UserName(detected);
    var e := fs.MkdirAll(MembersDir(home));
    if e.Some? {
      return None, e;
    }
    e := fs.WriteFile(MemberPath(home, username), encode(detected));
    if e.Some? {
      return None, e;
    }
    return Some(detected), None;
  }
}
