/**
 * The Kanban board: seven status columns, the status buttons each card
 * offers, and the two actions of the board, creating a task from the title
 * input and moving a task to another status.  The task list is the board's
 * input and the board never changes it; every change goes through the API
 * and comes back through `onUpdate`.
 */
module Kanban {
  import opened Wrappers
  import opened WebApi

  /** The columns, in display order. `cancelled` is not one of them. */
  const Columns: seq<string> := ["todo", "in_progress", "in_review", "in_approval", "merging", "done", "failed"]

  /** `TRANSITIONS[status]`: `None` for a status with no entry. */
  function Transitions(status: string): Option<seq<string>> {
    if status == "todo" then Some(["in_progress"])
    else if status == "in_progress" then Some(["in_review", "failed"])
    else if status == "in_review" then Some(["in_approval", "in_progress"])
    else if status == "in_approval" then Some(["merging", "in_progress"])
    else if status == "merging" then Some(["done", "failed"])
    else if status == "done" then Some([])
    else if status == "failed" then Some(["todo"])
    else None
  }

  /**
   * Exactly the columns have an entry; every successor is a column and
   * differs from the status it leaves.
   */
  lemma TransitionsShape(status: string)
    ensures Transitions(status).Some? <==> status in Columns
    ensures Transitions(status).Some? ==> forall n :: n in Transitions(status).value ==> n in Columns && n != status
    ensures status == "done" ==> Transitions(status) == Some([])
    ensures status == "failed" ==> Transitions(status) == Some(["todo"])
  {
  }

  /** The status buttons of a card: `TRANSITIONS[status] ?? []`. */
  function Buttons(status: string): (r: seq<string>)
    ensures status in Columns ==> Transitions(status) == Some(r)
    ensures status !in Columns ==> r == []
  {
    TransitionsShape(status);
    match Transitions(status)
    case Some(next) => next
    case None => []
  }

  /** Tasks whose status is the string `status`. */
  function HasStatus(status: string): Task -> bool {
    (t: Task) => t.status == JStr(status)
  }

  /** `byStatus(status)`: the tasks of one column, in list order. */
  function Column(tasks: seq<Task>, status: string): seq<Task> {
    Filter(tasks, HasStatus(status))
  }

  /**
   * A task shows, with all its copies, in the column equal to its status and
   * in no other; a task whose status is no column, `cancelled` for one,
   * shows nowhere.
   */
  lemma ColumnPlacement(tasks: seq<Task>, t: Task)
    ensures forall c :: c in Columns ==>
      multiset(Column(tasks, c))[t] == if t.status == JStr(c) then multiset(tasks)[t] else 0
    ensures (forall c :: c in Columns ==> t.status != JStr(c)) ==> forall c :: c in Columns ==> t !in Column(tasks, c)
    ensures "cancelled" !in Columns
  {
    forall c | c in Columns
      ensures multiset(Column(tasks, c))[t] == if t.status == JStr(c) then multiset(tasks)[t] else 0
      ensures t in Column(tasks, c) <==> t in tasks && t.status == JStr(c)
    {
      FilterCount(tasks, HasStatus(c), t);
    }
  }

  /** A column keeps the list's order: the column of a concatenation is the concatenation of the columns. */
  lemma ColumnOrder(a: seq<Task>, b: seq<Task>, status: string)
    ensures Column(a + b, status) == Column(a, status) + Column(b, status)
  {
    FilterAppend(a, b, HasStatus(status));
  }

  /** `String.prototype.trim`'s white space: the Unicode space separators, the line terminators and the byte order mark. */
  predicate IsJsSpace(c: char) {
    c == '\t' || c == '\n' || c == '\U{000B}' || c == '\U{000C}' || c == '\r' || c == ' '
    || c == '\U{00A0}' || c == '\U{1680}' || ('\U{2000}' <= c <= '\U{200A}')
    || c == '\U{2028}' || c == '\U{2029}' || c == '\U{202F}' || c == '\U{205F}' || c == '\U{3000}' || c == '\U{FEFF}'
  }

  /** Index of the first character of `s` that is not white space (or `|s|`). */
  function TrimStart(s: string): (i: nat)
    ensures i <= |s|
    ensures forall k :: 0 <= k < i ==> IsJsSpace(s[k])
    ensures i < |s| ==> !IsJsSpace(s[i])
  {
    if s == [] || !IsJsSpace(s[0]) then 0 else 1 + TrimStart(s[1..])
  }

  /** Index just after the last character of `s` that is not white space (or 0). */
  function TrimEnd(s: string): (j: nat)
    ensures j <= |s|
    ensures forall k :: j <= k < |s| ==> IsJsSpace(s[k])
    ensures j > 0 ==> !IsJsSpace(s[j - 1])
  {
    if s == [] || !IsJsSpace(s[|s| - 1]) then |s| else TrimEnd(s[..|s| - 1])
  }

  /** `s.trim()`. */
  function Trim(s: string): (r: string)
    ensures |r| <= |s|
    ensures r == [] || (!IsJsSpace(r[0]) && !IsJsSpace(r[|r| - 1]))
    ensures r == [] <==> forall k :: 0 <= k < |s| ==> IsJsSpace(s[k])
  {
    var i := TrimStart(s);
    if i == |s| then [] else
    var j := TrimEnd(s);
    assert !IsJsSpace(s[i]);
    assert i < j;
    s[i..j]
  }

  /** Trimming drops white space at the ends only: the result is a piece of `s` with white space on either side of it. */
  lemma TrimIsSlice(s: string)
    ensures exists i, j :: (0 <= i <= j <= |s| && Trim(s) == s[i..j] &&
      (forall k :: 0 <= k < i ==> IsJsSpace(s[k])) && (forall k :: j <= k < |s| ==> IsJsSpace(s[k])))
  {
    var i := TrimStart(s);
    if i == |s| {
      assert Trim(s) == s[i..i];
    } else {
      var j := TrimEnd(s);
      assert !IsJsSpace(s[i]);
      assert Trim(s) == s[i..j];
    }
  }

  /** A request the board sends. */
  datatype Request = CreateRequest(team: string, title: string, status: string) | PatchRequest(team: string, taskId: Json, status: string)

  /** The state of one board: the title input, the create button's busy flag, the requests sent and the `onUpdate` calls made. */
  class Board {
    const team: string
    var newTitle: string
    var loading: bool
    var requests: seq<Request>
    var updates: nat

    constructor (team: string)
      ensures this.team == team && newTitle == "" && !loading && requests == [] && updates == 0
    {
      this.team := team;
      newTitle := "";
      loading := false;
      requests := [];
      updates := 0;
    }

    /** The title input's `onChange`. */
    method TypeTitle(text: string)
      modifies this
      ensures newTitle == text
      ensures loading == old(loading) && requests == old(requests) && updates == old(updates)
    {
      newTitle := text;
    }

    /**
     * `handleCreate`, with `settled` the way `createTask` settles.  A blank
     * title sends nothing; otherwise one request carries the trimmed title
     * and the default status, and only on success is the input cleared and
     * `onUpdate` called.  The busy flag is down again in every case.
     */
    method HandleCreate(settled: Outcome<Json>)
      modifies this
      ensures Trim(old(newTitle)) == "" ==>
        newTitle == old(newTitle) && loading == old(loading) && requests == old(requests) && updates == old(updates)
      ensures Trim(old(newTitle)) != "" ==>
        requests == old(requests) + [CreateRequest(team, Trim(old(newTitle)), CreateStatus(None))] && !loading
      ensures Trim(old(newTitle)) != "" && settled.Resolved? ==> newTitle == "" && updates == old(updates) + 1
      ensures Trim(old(newTitle)) != "" && settled.Rejected? ==> newTitle == old(newTitle) && updates == old(updates)
    {
      var title := Trim(newTitle);
      if title == "" {
        return;
      }
      loading := true;
      requests := requests + [CreateRequest(team, title, CreateStatus(None))];
      if settled.Resolved? {
        newTitle := "";
        updates := updates + 1;
      }
      loading := false;
    }

    /**
     * `handleStatusChange`: exactly one patch carrying only the new status,
     * with no check of the move against `TRANSITIONS`; `onUpdate` only when
     * it succeeds.
     */
    method HandleStatusChange(taskId: Json, status: string, settled: Outcome<Json>)
      modifies this
      ensures requests == old(requests) + [PatchRequest(team, taskId, status)]
      ensures updates == old(updates) + (if settled.Resolved? then 1 else 0)
      ensures newTitle == old(newTitle) && loading == old(loading)
    {
      requests := requests + [PatchRequest(team, taskId, status)];
      if settled.Resolved? {
        updates := updates + 1;
      }
    }
  }
}
