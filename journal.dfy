/**
 * An agent's journal: markdown blocks appended to `<agentDir>/journal.md`, and
 * the tail of that file handed back to the agent as context.  The entry's date
 * arrives already formatted (`2006-01-02 15:04`).
 */
module Journal {
  import opened Wrappers
  import opened GoStrings
  import opened MemoryPaths
  import opened Disk

  datatype JournalEntry = JournalEntry(
    taskId: int,
    taskTitle: string,
    outcome: string,
    decisions: string,
    patterns: string,
    createdAt: string)

  /** The journal of one agent of one team. */
  datatype Journal = Journal(agentName: string, teamDir: string)

  /**
   * The separator between date and title, byte for byte as the source file
   * spells it: a space, C3 A2 E2 82 AC E2 80 9D (the UTF-8 of an em dash read
   * as Windows-1252 text and encoded again) and a space.
   */
  const TitleSeparator: string := " \U{00C3}\U{00A2}\U{00E2}\U{0082}\U{00AC}\U{00E2}\U{0080}\U{009D} "

  const BlockOpening: string := "\n---\n\n" + "## "

  const TaskPrefix: string := "- **Task:** "
  const OutcomePrefix: string := "- **Outcome:** "
  const DecisionsPrefix: string := "- **Decisions:** "
  const PatternsPrefix: string := "- **Patterns:** "

  /** The separator and the title, for a titled entry. */
  function TitlePart(e: JournalEntry): string {
    if e.taskTitle != "" then TitleSeparator + e.taskTitle else ""
  }

  /** The block's first lines: rule, blank line, `## <date>` with the title part, blank line. */
  function Heading(e: JournalEntry): string {
    BlockOpening + e.createdAt + TitlePart(e) + "\n\n"
  }

  /** `- **Task:** <id>` for a positive task id. */
  function TaskLine(e: JournalEntry): string {
    if e.taskId > 0 then TaskPrefix + Decimal(e.taskId) + "\n" else ""
  }

  /** A labelled line for a non-empty value. */
  function FieldLine(prefix: string, value: string): string {
    if value != "" then prefix + value + "\n" else ""
  }

  /** The markdown block of one entry: heading, the lines in their fixed order, a blank line. */
  function JournalBlock(e: JournalEntry): string {
    Heading(e) + TaskLine(e) + FieldLine(OutcomePrefix, e.outcome) + FieldLine(DecisionsPrefix, e.decisions)
      + FieldLine(PatternsPrefix, e.patterns) + "\n"
  }

  /** The lines below the heading. */
  function Lines(e: JournalEntry): string {
    TaskLine(e) + FieldLine(OutcomePrefix, e.outcome) + FieldLine(DecisionsPrefix, e.decisions) + FieldLine(PatternsPrefix, e.patterns)
  }

  /** The block is the heading, the lines and a newline. */
  lemma BlockParts(e: JournalEntry)
    ensures JournalBlock(e) == Heading(e) + (Lines(e) + "\n")
  {
    var h, t := Heading(e), TaskLine(e);
    var fo, fd, fp := FieldLine(OutcomePrefix, e.outcome), FieldLine(DecisionsPrefix, e.decisions), FieldLine(PatternsPrefix, e.patterns);
    assert h + t + fo + fd + fp + "\n" == h + (t + fo + fd + fp + "\n");
  }

  /** Appending a line piece by piece appends the whole line. */
  lemma AppendLine(b: string, prefix: string, value: string)
    ensures b + prefix + value + "\n" == b + (prefix + value + "\n")
  {
  }

  /** `formatJournalBlock`: the block assembled piece by piece in a builder. */
  method FormatJournalBlock(e: JournalEntry) returns (b: string)
    ensures b == JournalBlock(e)
  {
    b := "\n---\n\n";
    b := b + "## ";
    b := b + e.createdAt;
    ghost var h := b;
    if e.taskTitle != "" {
      b := b + TitleSeparator;
      b := b + e.taskTitle;
      AppendLine(h, TitleSeparator, e.taskTitle);
      assert b == h + (TitleSeparator + e.taskTitle);
    }
    b := b + "\n\n";
    assert b == Heading(e);
    ghost var t := b;
    if e.taskId > 0 {
      b := b + TaskPrefix;
      b := b + Decimal(e.taskId);
      b := b + "\n";
      AppendLine(t, TaskPrefix, Decimal(e.taskId));
    }
    assert b == t + TaskLine(e);
    ghost var o := b;
    if e.outcome != "" {
      b := b + OutcomePrefix;
      b := b + e.outcome;
      b := b + "\n";
      AppendLine(o, OutcomePrefix, e.outcome);
    }
    assert b == o + FieldLine(OutcomePrefix, e.outcome);
    ghost var d := b;
    if e.decisions != "" {
      b := b + DecisionsPrefix;
      b := b + e.decisions;
      b := b + "\n";
      AppendLine(d, DecisionsPrefix, e.decisions);
    }
    assert b == d + FieldLine(DecisionsPrefix, e.decisions);
    ghost var p := b;
    if e.patterns != "" {
      b := b + PatternsPrefix;
      b := b + e.patterns;
      b := b + "\n";
      AppendLine(p, PatternsPrefix, e.patterns);
    }
    assert b == p + FieldLine(PatternsPrefix, e.patterns);
    b := b + "\n";
  }

  /** A concatenation starts with its left part. */
  lemma PrefixOfConcat(x: string, y: string)
    ensures HasPrefix(x + y, x)
  {
    assert (x + y)[..|x|] == x;
  }

  lemma PrefixTrans(a: string, b: string, c: string)
    requires HasPrefix(a, b) && HasPrefix(b, c)
    ensures HasPrefix(a, c)
  {
    assert a[..|c|] == b[..|b|][..|c|];
  }

  /** Text that is empty or ends with a newline. */
  predicate EndsLine(x: string) { x == "" || x[|x| - 1] == '\n' }

  lemma EndsLineConcat(x: string, y: string)
    requires EndsLine(x) && EndsLine(y)
    ensures EndsLine(x + y)
  {
    if y == "" {
      assert x + y == x;
    } else {
      assert (x + y)[|x + y| - 1] == y[|y| - 1];
    }
  }

  /** The lines below the heading are complete lines. */
  lemma LinesEndLine(e: JournalEntry)
    ensures EndsLine(Lines(e))
  {
    var t := TaskLine(e);
    var fo, fd, fp := FieldLine(OutcomePrefix, e.outcome), FieldLine(DecisionsPrefix, e.decisions), FieldLine(PatternsPrefix, e.patterns);
    assert EndsLine(t) && EndsLine(fo) && EndsLine(fd) && EndsLine(fp);
    EndsLineConcat(t, fo);
    EndsLineConcat(t + fo, fd);
    EndsLineConcat(t + fo + fd, fp);
  }

  /** Every block opens with the rule and `## <date>`, and closes with a blank line. */
  lemma BlockFraming(e: JournalEntry)
    ensures HasPrefix(JournalBlock(e), BlockOpening + e.createdAt)
    ensures HasSuffix(JournalBlock(e), "\n\n")
  {
    var b := JournalBlock(e);
    var h := Heading(e);
    var l := Lines(e);
    BlockParts(e);
    PrefixOfConcat(h, l + "\n");
    PrefixOfConcat(BlockOpening + e.createdAt, TitlePart(e));
    PrefixOfConcat(BlockOpening + e.createdAt + TitlePart(e), "\n\n");
    PrefixTrans(h, BlockOpening + e.createdAt + TitlePart(e), BlockOpening + e.createdAt);
    PrefixTrans(b, h, BlockOpening + e.createdAt);
    LinesEndLine(e);
    assert EndsLine(h);
    EndsLineConcat(h, l);
    assert b == (h + l) + "\n";
    assert b[|b| - 2] == (h + l)[|h + l| - 1];
    assert b[|b| - 2..] == [b[|b| - 2], b[|b| - 1]];
  }

  /** The date is followed by the separator exactly when the entry has a title. */
  lemma TitleShownIff(e: JournalEntry)
    ensures var p := |BlockOpening + e.createdAt|;
      |JournalBlock(e)| > p && (JournalBlock(e)[p] == ' ' <==> e.taskTitle != "")
  {
    var b := JournalBlock(e);
    var h := Heading(e);
    var start := BlockOpening + e.createdAt;
    BlockParts(e);
    assert b[|start|] == h[|start|];
    assert h == start + (TitlePart(e) + "\n\n");
    assert h[|start|] == (TitlePart(e) + "\n\n")[0];
  }

  /** What follows the heading: the lines and the closing newline. */
  lemma AfterHeading(e: JournalEntry)
    ensures JournalBlock(e)[|Heading(e)|..] ==
      TaskLine(e) + (FieldLine(OutcomePrefix, e.outcome) + FieldLine(DecisionsPrefix, e.decisions) + FieldLine(PatternsPrefix, e.patterns) + "\n")
  {
    BlockParts(e);
    var t := TaskLine(e);
    var fo, fd, fp := FieldLine(OutcomePrefix, e.outcome), FieldLine(DecisionsPrefix, e.decisions), FieldLine(PatternsPrefix, e.patterns);
    DropLeading(Heading(e), Lines(e) + "\n");
    assert Lines(e) == ((t + fo) + fd) + fp;
    Regroup(t, fo, fd, fp, "\n");
  }

  /** Dropping the leading part of a concatenation leaves the rest. */
  lemma DropLeading(h: string, rest: string)
    ensures (h + rest)[|h|..] == rest
  {
  }

  /** Regrouping a five-part concatenation around its first part. */
  lemma Regroup(a: string, b: string, c: string, d: string, n: string)
    ensures (((a + b) + c) + d) + n == a + (((b + c) + d) + n)
  {
  }

  lemma TaskLineLeads(e: JournalEntry)
    requires e.taskId > 0
    ensures HasPrefix(JournalBlock(e)[|Heading(e)|..], TaskPrefix)
  {
    AfterHeading(e);
    var t := TaskLine(e);
    var more := FieldLine(OutcomePrefix, e.outcome) + FieldLine(DecisionsPrefix, e.decisions) + FieldLine(PatternsPrefix, e.patterns) + "\n";
    PrefixOfConcat(t, more);
    PrefixOfConcat(TaskPrefix, Decimal(e.taskId));
    PrefixOfConcat(TaskPrefix + Decimal(e.taskId), "\n");
    PrefixTrans(t, TaskPrefix + Decimal(e.taskId), TaskPrefix);
    PrefixTrans(t + more, t, TaskPrefix);
  }

  /** A field line leads whatever follows it with its prefix. */
  lemma FieldLeads(prefix: string, value: string, more: string)
    requires value != ""
    ensures HasPrefix(FieldLine(prefix, value) + more, prefix)
  {
    var f := FieldLine(prefix, value);
    assert (f + more)[..|prefix|] == f[..|prefix|];
    assert f == prefix + (value + "\n");
  }

  /** Text that starts with `p` does not start with a `q` that differs from `p` at position `i`. */
  lemma OtherPrefix(s: string, p: string, q: string, i: int)
    requires HasPrefix(s, p) && 0 <= i < |p| && i < |q| && p[i] != q[i]
    ensures !HasPrefix(s, q)
  {
    assert s[i] == p[i];
  }

  /** The field lines and the closing newline never start with the Task prefix: they start with another prefix or are the newline. */
  lemma FieldsNotTask(o: string, d: string, p: string)
    ensures !HasPrefix(FieldLine(OutcomePrefix, o) + FieldLine(DecisionsPrefix, d) + FieldLine(PatternsPrefix, p) + "\n", TaskPrefix)
  {
    var fo, fd, fp := FieldLine(OutcomePrefix, o), FieldLine(DecisionsPrefix, d), FieldLine(PatternsPrefix, p);
    var rest := fo + fd + fp + "\n";
    if o != "" {
      assert rest == fo + (fd + fp + "\n");
      FieldLeads(OutcomePrefix, o, fd + fp + "\n");
      OtherPrefix(rest, OutcomePrefix, TaskPrefix, 4);
    } else {
      assert rest == fd + fp + "\n";
      LaterFieldsNotTask(d, p);
    }
  }

  lemma LaterFieldsNotTask(d: string, p: string)
    ensures !HasPrefix(FieldLine(DecisionsPrefix, d) + FieldLine(PatternsPrefix, p) + "\n", TaskPrefix)
  {
    var fd, fp := FieldLine(DecisionsPrefix, d), FieldLine(PatternsPrefix, p);
    var rest := fd + fp + "\n";
    if d != "" {
      assert rest == fd + (fp + "\n");
      FieldLeads(DecisionsPrefix, d, fp + "\n");
      OtherPrefix(rest, DecisionsPrefix, TaskPrefix, 4);
    } else if p != "" {
      assert rest == fp + "\n";
      FieldLeads(PatternsPrefix, p, "\n");
      OtherPrefix(rest, PatternsPrefix, TaskPrefix, 4);
    } else {
      assert rest == "\n";
    }
  }

  /** Below a heading without a Task line comes a field line or the closing newline. */
  lemma NoTaskLine(e: JournalEntry)
    requires e.taskId <= 0
    ensures !HasPrefix(JournalBlock(e)[|Heading(e)|..], TaskPrefix)
  {
    AfterHeading(e);
    var rest := FieldLine(OutcomePrefix, e.outcome) + FieldLine(DecisionsPrefix, e.decisions) + FieldLine(PatternsPrefix, e.patterns) + "\n";
    assert TaskLine(e) + rest == rest;
    FieldsNotTask(e.outcome, e.decisions, e.patterns);
  }

  /** The text right below the heading starts with the Task line exactly when the task id is positive. */
  lemma TaskLineIff(e: JournalEntry)
    ensures HasPrefix(JournalBlock(e)[|Heading(e)|..], TaskPrefix) <==> e.taskId > 0
  {
    if e.taskId > 0 {
      TaskLineLeads(e);
    } else {
      NoTaskLine(e);
    }
  }

  /** Where each piece of a five-piece text followed by a newline sits. */
  lemma PiecesAt(h: string, t: string, fo: string, fd: string, fp: string)
    ensures var b := h + t + fo + fd + fp + "\n";
      OccursAt(b, t, |h|) && OccursAt(b, fo, |h| + |t|) && OccursAt(b, fd, |h| + |t| + |fo|) &&
      OccursAt(b, fp, |h| + |t| + |fo| + |fd|) && |b| == |h| + |t| + |fo| + |fd| + |fp| + 1
  {
    var x0 := h + t;
    var x1 := x0 + fo;
    var x2 := x1 + fd;
    var x3 := x2 + fp;
    var b := x3 + "\n";
    assert x0[|h|..] == t;
    assert x1[|x0|..] == fo;
    assert x2[|x1|..] == fd;
    assert x3[|x2|..] == fp;
    assert b[..|x3|] == x3 && x3[..|x2|] == x2 && x2[..|x1|] == x1 && x1[..|x0|] == x0;
  }

  /** Each present line sits right after the lines before it, in the order Task, Outcome, Decisions, Patterns; absent lines take no room. */
  lemma LinesInOrder(e: JournalEntry)
    ensures var b := JournalBlock(e);
      var t := |Heading(e)|;
      var o := t + |TaskLine(e)|;
      var d := o + |FieldLine(OutcomePrefix, e.outcome)|;
      var p := d + |FieldLine(DecisionsPrefix, e.decisions)|;
      (e.taskId > 0 ==> OccursAt(b, TaskPrefix + Decimal(e.taskId) + "\n", t)) &&
      (e.outcome != "" ==> OccursAt(b, OutcomePrefix + e.outcome + "\n", o)) &&
      (e.decisions != "" ==> OccursAt(b, DecisionsPrefix + e.decisions + "\n", d)) &&
      (e.patterns != "" ==> OccursAt(b, PatternsPrefix + e.patterns + "\n", p)) &&
      p + |FieldLine(PatternsPrefix, e.patterns)| + 1 == |b|
  {
    PiecesAt(Heading(e), TaskLine(e), FieldLine(OutcomePrefix, e.outcome), FieldLine(DecisionsPrefix, e.decisions),
      FieldLine(PatternsPrefix, e.patterns));
  }

  /** An entry with nothing but a date is the bare heading and a closing newline. */
  lemma EmptyEntryBlock(date: string)
    ensures JournalBlock(JournalEntry(0, "", "", "", "", date)) == BlockOpening + date + "\n\n" + "\n"
  {
    var e := JournalEntry(0, "", "", "", "", date);
    assert Lines(e) == "";
    assert TitlePart(e) == "";
  }

  /** `Journal.Read` on the file's state: everything when the limit is not positive or the content fits, else the last `limit` bytes. */
  function ReadTail(f: FileState, limit: int): (r: Result<string>)
    ensures f.Missing? ==> r == Ok("")
    ensures f.Unreadable? ==> r.Err?
    ensures f.Contents? ==> r.Ok? && HasSuffix(f.data, r.value)
    ensures f.Contents? && (limit <= 0 || |f.data| <= limit) ==> r == Ok(f.data)
    ensures f.Contents? && limit > 0 && |f.data| > limit ==> |r.value| == limit
  {
    match f
    case Missing => Ok("")
    case Unreadable(reason) => Err(reason)
    case Contents(s) => if limit <= 0 || |s| <= limit then Ok(s) else Ok(s[|s| - limit..])
  }

  /** A positive limit bounds what `Read` returns. */
  lemma ReadTailBounded(f: FileState, limit: int)
    requires limit > 0
    ensures ReadTail(f, limit).Ok? ==> |ReadTail(f, limit).value| <= limit
  {
  }

  const SummaryDefaultMax := 4000
  const NoEntries := "(no journal entries yet)"

  /** `Journal.Summary`: the trimmed tail, at most `maxLen` bytes (4000 when not positive), or a placeholder when that is blank. */
  function Summary(f: FileState, maxLen: int): (r: Result<string>)
    ensures f.Unreadable? <==> r.Err?
    ensures r.Ok? ==> r.value != ""
    ensures f.Missing? ==> r == Ok(NoEntries)
    ensures r.Ok? && r.value != NoEntries ==> |r.value| <= (if maxLen <= 0 then SummaryDefaultMax else maxLen)
  {
    var max := if maxLen <= 0 then SummaryDefaultMax else maxLen;
    match ReadTail(f, max)
    case Err(e) => Err(e)
    case Ok(s) =>
      var t := ByteTrimSpace(s);
      if t == "" then Ok(NoEntries) else Ok(t)
  }

  /** After appending a block, reading back as many bytes as the block has returns exactly that block. */
  lemma ReadBackAppended(prior: string, block: string)
    requires block != ""
    ensures ReadTail(Contents(prior + block), |block|) == Ok(block)
  {
    var s := prior + block;
    if |s| > |block| {
      assert s[|s| - |block|..] == block;
    }
  }

  /** The journal file of a journal. */
  function JournalFile(j: Journal): string {
    JournalPath(AgentDir(j.teamDir, j.agentName))
  }

  /** `Journal.Read`. */
  function Read(fs: FileSystem, j: Journal, limit: int): (r: Result<string>)
    reads fs
    ensures JournalFile(j) !in fs.failing && JournalFile(j) !in fs.files ==> r == Ok("")
  {
    ReadTail(fs.Lookup(JournalFile(j)), limit)
  }

  /**
   * `Journal.Append`: creates the agent directory, then appends the formatted
   * block; the file keeps its old content as a prefix and ends with the block.
   */
  method Append(fs: FileSystem, j: Journal, e: JournalEntry) returns (err: Error)
    modifies fs
    ensures var dir := AgentDir(j.teamDir, j.agentName);
      dir in fs.failing ==> err.Some? && fs.files == old(fs.files) && fs.dirs == old(fs.dirs)
    ensures var dir := AgentDir(j.teamDir, j.agentName);
      dir !in fs.failing && JournalFile(j) in fs.failing ==>
        err.Some? && fs.files == old(fs.files) && fs.dirs == old(fs.dirs) + {dir}
    ensures var dir := AgentDir(j.teamDir, j.agentName);
      dir !in fs.failing && JournalFile(j) !in fs.failing ==>
        err.None? && fs.dirs == old(fs.dirs) + {dir} &&
        fs.files == old(fs.files)[JournalFile(j) := old(fs.ContentOrEmpty(JournalFile(j))) + JournalBlock(e)]
    ensures fs.failing == old(fs.failing)
  {
    var dir := AgentDir(j.teamDir, j.agentName);
    err := fs.MkdirAll(dir);
    if err.Some? {
      return Some("create agent dir: " + err.value);
    }
    var path := JournalPath(dir);
    var block := FormatJournalBlock(e);
    err := fs.AppendFile(path, block);
    if err.Some? {
      return Some("open journal: " + err.value);
    }
  }

  /** `EnsureAgentDir`: the agent directory, then its `notes` directory. */
  method EnsureAgentDir(fs: FileSystem, teamDir: string, agentName: string) returns (err: Error)
    modifies fs
    ensures var dir := AgentDir(teamDir, agentName);
      err.None? <==> dir !in fs.failing && NotesDir(dir) !in fs.failing
    ensures var dir := AgentDir(teamDir, agentName);
      err.None? ==> fs.dirs == old(fs.dirs) + {dir, NotesDir(dir)}
    ensures fs.files == old(fs.files) && fs.failing == old(fs.failing)
  {
    var dir := AgentDir(teamDir, agentName);
    err := fs.MkdirAll(dir);
    if err.Some? {
      return;
    }
    err := fs.MkdirAll(NotesDir(dir));
  }

  /** `EnsureTeamDirs`: the team directory, then its `shared` directory. */
  method EnsureTeamDirs(fs: FileSystem, teamDir: string) returns (err: Error)
    modifies fs
    ensures err.None? <==> teamDir !in fs.failing && SharedDir(teamDir) !in fs.failing
    ensures err.None? ==> fs.dirs == old(fs.dirs) + {teamDir, SharedDir(teamDir)}
    ensures fs.files == old(fs.files) && fs.failing == old(fs.failing)
  {
    err := fs.MkdirAll(teamDir);
    if err.Some? {
      return;
    }
    err := fs.MkdirAll(SharedDir(teamDir));
  }
}
