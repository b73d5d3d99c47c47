/**
 * The `.env` loader run by `agentary start`: each line of the file is trimmed,
 * blank lines and `#` comments are skipped, and a `key=value` line sets the
 * process environment variable `key` to `value`.  The environment is the map
 * the process holds; the file comes from the modelled file system.
 */
module EnvFile {
  import opened Wrappers
  import opened GoStrings
  import opened Disk

  /**
   * `os.Setenv` on Unix refuses an empty key, a key holding `=` or NUL, and a
   * value holding NUL; the loader ignores that error, so such a pair is not set.
   */
  predicate SetenvAccepts(key: string, value: string) {
    key != "" && '=' !in key && '\0' !in key && '\0' !in value
  }

  /** The text before the first `=` of a line that starts with no space rune, trimmed, is a non-empty key without `=`. */
  lemma KeyBeforeEquals(t: string, i: int)
    requires 0 < i <= |t| && LeadSpace(t) == 0 && '=' !in t[..i]
    ensures ByteTrimSpace(t[..i]) != "" && '=' !in ByteTrimSpace(t[..i])
    ensures ByteTrimSpace(ByteTrimSpace(t[..i])) == ByteTrimSpace(t[..i])
  {
    var k := t[..i];
    assert t[0..|t|] == t && t[0..i] == k;
    LeadShorter(t, 0, |t|, i);
    ByteTrimNonEmpty(k);
    ByteTrimSpaceIsSlice(k);
    ByteTrimSpaceIdempotent(k);
  }

  /** A trimmed line: the `(key, value)` pair it assigns, if it is an assignment. */
  function ParseTrimmed(t: string): (r: Option<(string, string)>)
    requires t == [] || LeadSpace(t) == 0
    ensures r.Some? ==> r.value.0 != "" && '=' !in r.value.0
    ensures r.Some? ==> r.value.0 == ByteTrimSpace(r.value.0) && r.value.1 == ByteTrimSpace(r.value.1)
  {
    if t == "" || HasPrefix(t, "#") then None
    else
      var i := IndexOf(t, '=');
      if i <= 0 then None
      else
        var key := ByteTrimSpace(t[..i]);
        var value := ByteTrimSpace(t[i + 1..]);
        KeyBeforeEquals(t, i);
        ByteTrimSpaceIdempotent(t[i + 1..]);
        if key != "" then Some((key, value)) else None
  }

  /** One line of the file: the `(key, value)` pair it assigns, if it is an assignment. */
  function ParseLine(line: string): (r: Option<(string, string)>)
    ensures r.Some? ==> r.value.0 != "" && '=' !in r.value.0
    ensures r.Some? ==> r.value.0 == ByteTrimSpace(r.value.0) && r.value.1 == ByteTrimSpace(r.value.1)
  {
    ParseTrimmed(ByteTrimSpace(line))
  }

  /** The environment after one line. */
  function ApplyLine(env: map<string, string>, line: string): map<string, string> {
    match ParseLine(line)
    case Some((key, value)) => if SetenvAccepts(key, value) then env[key := value] else env
    case None => env
  }

  /** The environment after the lines, in file order. */
  function ApplyLines(env: map<string, string>, lines: seq<string>): map<string, string>
    decreases |lines|
  {
    if lines == [] then env else ApplyLine(ApplyLines(env, lines[..|lines| - 1]), lines[|lines| - 1])
  }

  /** `bufio.MaxScanTokenSize`: a `bufio.Scanner` line of this many bytes or more is too long. */
  const MaxScanTokenSize := 64 * 1024

  /** The error `Scan` stops with at a line that is too long. */
  const ErrTooLong := "bufio.Scanner: token too long"

  /**
   * How many lines `Scan` returns before it stops: all of them, or those
   * before the first of `MaxScanTokenSize` bytes or more (a `\r` it holds
   * counts, the `\n` after it does not).
   */
  function Scanned(lines: seq<string>): (n: nat)
    ensures n <= |lines|
    ensures forall k :: 0 <= k < n ==> |lines[k]| < MaxScanTokenSize
    ensures n < |lines| ==> |lines[n]| >= MaxScanTokenSize
  {
    if lines == [] || |lines[0]| >= MaxScanTokenSize then 0
    else
      var n := 1 + Scanned(lines[1..]);
      assert forall k :: 1 <= k < n ==> lines[k] == lines[1..][k - 1];
      n
  }

  /** The scan stops at the first line that is too long: nothing after it is returned, whatever it holds. */
  lemma ScanStopsAtLongLine(before: seq<string>, long: string, after: seq<string>)
    requires forall k :: 0 <= k < |before| ==> |before[k]| < MaxScanTokenSize
    requires |long| >= MaxScanTokenSize
    ensures Scanned(before + [long] + after) == |before|
  {
    var lines := before + [long] + after;
    assert lines[|before|] == long;
    assert forall k :: 0 <= k < |before| ==> lines[k] == before[k];
  }

  /** The process environment. */
  class Environment {
    var vars: map<string, string>

    constructor(vars0: map<string, string>)
      ensures vars == vars0
    {
      vars := vars0;
    }

    /** `os.Setenv`, whose refusal the loader ignores. */
    method Setenv(key: string, value: string)
      modifies this
      ensures vars == if SetenvAccepts(key, value) then old(vars)[key := value] else old(vars)
    {
      if SetenvAccepts(key, value) {
        vars := vars[key := value];
      }
    }

    /**
     * `loadEnvFile`: an unreadable or missing file is an error and changes
     * nothing.  Otherwise the lines are applied in order until the scanner
     * stops: at the end, with no error, or at a line too long for it, with
     * `ErrTooLong` and the earlier lines already applied.  The lines are the
     * file split at `\n`; a final empty piece and a `\r` before the `\n` make no
     * difference to the environment, since every line is trimmed and blank
     * lines are skipped.
     */
    method LoadEnvFile(fs: FileSystem, path: string) returns (err: Error)
      modifies this
      ensures !fs.Lookup(path).Contents? ==> err.Some? && vars == old(vars)
      ensures fs.Lookup(path).Contents? ==>
        var lines := Split(fs.Lookup(path).data, '\n');
        var n := Scanned(lines);
        vars == ApplyLines(old(vars), lines[..n]) &&
        (err.None? <==> n == |lines|) && (err.Some? ==> err == Some(ErrTooLong))
    {
      var f := fs.Lookup(path);
      if f.Missing? {
        return Some("open " + path + ": no such file or directory");
      }
      if f.Unreadable? {
        return Some("open " + path + ": " + f.reason);
      }
      var lines := Split(f.data, '\n');
      var n := 0;
      while n < |lines| && |lines[n]| < MaxScanTokenSize
        invariant 0 <= n <= Scanned(lines)
        invariant vars == ApplyLines(old(vars), lines[..n])
      {
        ApplyLinesStep(old(vars), lines, n);
        ApplyEnvLine(lines[n]);
        n := n + 1;
      }
      assert n == Scanned(lines);
      if n < |lines| {
        return Some(ErrTooLong);
      }
      return None;
    }

    /** The body of the loop over the file's lines: one line trimmed, checked and, if it assigns, applied. */
    method ApplyEnvLine(raw: string)
      modifies this
      ensures vars == ApplyLine(old(vars), raw)
    {
      var line := ByteTrimSpace(raw);
      assert ParseLine(raw) == ParseTrimmed(line);
      if line == "" || HasPrefix(line, "#") {
        return;
      }
      var i := IndexOf(line, '=');
      if i <= 0 {
        return;
      }
      var key := ByteTrimSpace(line[..i]);
      var value := ByteTrimSpace(line[i + 1..]);
      KeyBeforeEquals(line, i);
      if key != "" {
        Setenv(key, value);
      }
    }
  }

  /** One more line applied. */
  lemma ApplyLinesStep(env: map<string, string>, lines: seq<string>, n: int)
    requires 0 <= n < |lines|
    ensures ApplyLines(env, lines[..n + 1]) == ApplyLine(ApplyLines(env, lines[..n]), lines[n])
  {
    assert lines[..n + 1][..n] == lines[..n];
  }

  /** Blank lines, comments, lines without `=` and lines starting with `=` assign nothing. */
  lemma IgnoredLines(line: string)
    ensures ByteTrimSpace(line) == "" ==> ParseLine(line).None?
    ensures HasPrefix(ByteTrimSpace(line), "#") ==> ParseLine(line).None?
    ensures '=' !in line ==> ParseLine(line).None?
    ensures ByteTrimSpace(line) != "" && ByteTrimSpace(line)[0] == '=' ==> ParseLine(line).None?
  {
    ByteTrimSpaceIsSlice(line);
    var t := ByteTrimSpace(line);
    if '=' !in line {
      assert '=' !in t;
    }
  }

  /** Blanks around a line make no difference. */
  lemma ParseLineTrimmed(line: string)
    ensures ParseLine(ByteTrimSpace(line)) == ParseLine(line)
  {
    ByteTrimSpaceIdempotent(line);
  }

  /**
   * A line `key=value` assigns `value` to `key` for a trimmed key without `=`
   * that does not start a comment and a trimmed value, which may itself hold `=`.
   */
  lemma ParseAssignment(key: string, value: string)
    requires key != "" && ByteTrimSpace(key) == key && '=' !in key && key[0] != '#'
    requires ByteTrimSpace(value) == value
    ensures ParseLine(key + "=" + value) == Some((key, value))
  {
    var line := key + ("=" + value);
    assert line == key + "=" + value;
    LineEnds(key, value);
    ByteTrimSpaceFixed(line);
    var t := ByteTrimSpace(line);
    assert t == line;
    assert t != "" && t[0] == key[0];
    assert !HasPrefix(t, "#");
    IndexOfAppend(key, "=" + value, '=');
    var i := IndexOf(t, '=');
    assert i == |key|;
    assert t[..i] == key;
    assert t[i + 1..] == value;
  }

  /** A trimmed key followed by `=` and a trimmed value neither starts nor ends with a space rune: `=` is no byte of one. */
  lemma LineEnds(key: string, value: string)
    requires key != "" && ByteTrimSpace(key) == key && ByteTrimSpace(value) == value
    ensures var line := key + ("=" + value);
      LeadSpace(line) == 0 && TrailSpace(line) == 0
  {
    var line := key + ("=" + value);
    var m := |line|;
    forall k | 0 <= k < 3 && k < m
      ensures line[k] == (if k < |key| then key[k] else if k == |key| then '=' else value[k - |key| - 1])
    {
    }
    if value == [] {
      assert line[m - 1] == '=';
    } else {
      assert line[m - 1] == value[|value| - 1];
      if |value| == 1 {
        assert line[m - 2] == '=';
      } else {
        assert line[m - 2] == value[|value| - 2];
        if |value| == 2 {
          assert line[m - 3] == '=';
        } else {
          assert line[m - 3] == value[|value| - 3];
        }
      }
    }
  }

  /** Applying two runs of lines one after the other is applying them together. */
  lemma {:induction false} ApplyLinesAppend(env: map<string, string>, a: seq<string>, b: seq<string>)
    ensures ApplyLines(env, a + b) == ApplyLines(ApplyLines(env, a), b)
    decreases |b|
  {
    if b == [] {
      assert a + b == a;
    } else {
      var init := b[..|b| - 1];
      assert (a + b)[..|a + b| - 1] == a + init;
      assert (a + b)[|a + b| - 1] == b[|b| - 1];
      ApplyLinesAppend(env, a, init);
    }
  }

  /** The last assignment of a key wins, whatever came before it. */
  lemma LaterAssignmentWins(env: map<string, string>, lines: seq<string>, key: string, value: string)
    requires key != "" && ByteTrimSpace(key) == key && '=' !in key && key[0] != '#'
    requires ByteTrimSpace(value) == value && SetenvAccepts(key, value)
    ensures var r := ApplyLines(env, lines + [key + "=" + value]);
      key in r && r[key] == value
  {
    ParseAssignment(key, value);
    ApplyLastLine(env, lines, key + "=" + value);
  }

  /** The last line is applied to what the lines before it left. */
  lemma ApplyLastLine(env: map<string, string>, lines: seq<string>, line: string)
    ensures ApplyLines(env, lines + [line]) == ApplyLine(ApplyLines(env, lines), line)
  {
    assert (lines + [line])[..|lines|] == lines;
  }

  /** A variable that no line assigns keeps its value, or stays unset. */
  lemma {:induction false} UnassignedUnchanged(env: map<string, string>, lines: seq<string>, key: string)
    requires forall k :: 0 <= k < |lines| ==> ParseLine(lines[k]).None? || ParseLine(lines[k]).value.0 != key
    ensures var r := ApplyLines(env, lines);
      (key in r <==> key in env) && (key in env ==> r[key] == env[key])
    decreases |lines|
  {
    if lines != [] {
      var init := lines[..|lines| - 1];
      assert forall k :: 0 <= k < |init| ==> init[k] == lines[k];
      UnassignedUnchanged(env, init, key);
    }
  }
}
