/**
 * Schema migrations: the embedded `migrations/NNN_name.sql` files, the version each
 * file name carries, and how the SQLite and Postgres stores bring the
 * `schema_migrations` table up to date.  A database is modelled by the
 * versions recorded in `schema_migrations` and the migration bodies it has
 * executed, in order; `failures` maps a body to the error executing it gives.
 */
module Migrations {
  import opened Wrappers
  import opened GoStrings

  /** A directory entry of the embedded `migrations` directory. */
  datatype DirEntry = DirEntry(name: string, isDir: bool, body: string)

  datatype Migration = Migration(version: int, name: string, sql: string)

  const SqlSuffix := ".sql"
  const NotInitialized := "store not initialized"
  const DatabaseClosed := "sql: database is closed"
  /** What SQLite reports when a version is recorded twice. */
  const DuplicateVersion := "UNIQUE constraint failed: schema_migrations.version"
  const AlreadyExists := "already exists"

  // ------------------------------------------------------------ file names

  /** The text before the first `_` of the name without `.sql`. */
  function VersionText(filename: string): string {
    Cut(TrimSuffix(filename, SqlSuffix), '_').0
  }

  /** `parseMigrationVersion`: the integer that starts the file name. */
  function ParseMigrationVersion(filename: string): (r: Result<int>)
    ensures r.Ok? ==> MinInt64 <= r.value <= MaxInt64
    ensures r.Err? ==> r.error == "invalid migration version in " + filename
  {
    match Atoi(VersionText(filename))
    case Ok(v) => Ok(v)
    case Err(_) => Err("invalid migration version in " + filename)
  }

  /** A name `<v>_<rest>.sql` carries version `v`, for every 64-bit `v` and every `rest`. */
  lemma ParseMigrationVersionOf(v: int, rest: string)
    requires MinInt64 <= v <= MaxInt64
    ensures ParseMigrationVersion(Itoa(v) + "_" + rest + SqlSuffix) == Ok(v)
  {
    var base := Itoa(v) + "_" + rest;
    var name := base + SqlSuffix;
    assert name[|name| - |SqlSuffix|..] == SqlSuffix;
    assert name[..|name| - |SqlSuffix|] == base;
    assert TrimSuffix(name, SqlSuffix) == base;
    ItoaNoChar(v, '_');
    CutBefore(Itoa(v), rest, '_');
    assert VersionText(name) == Itoa(v);
    AtoiItoa(v);
  }

  /** A name with nothing before its first `_` carries no version. */
  lemma ParseMigrationVersionEmpty(rest: string)
    ensures ParseMigrationVersion("_" + rest + SqlSuffix).Err?
  {
    var name := "_" + rest + SqlSuffix;
    assert name[|name| - |SqlSuffix|..] == SqlSuffix;
    assert TrimSuffix(name, SqlSuffix) == "_" + rest;
    assert VersionText(name) == "";
  }

  predicate IsMigrationFile(f: DirEntry) {
    !f.isDir && HasSuffix(f.name, SqlSuffix)
  }

  // ---------------------------------------------------------- version order

  predicate Ascending(ms: seq<Migration>) {
    forall i, j :: 0 <= i < j < |ms| ==> ms[i].version <= ms[j].version
  }

  /** Inserts `m` before the first migration with a larger version. */
  function Insert(m: Migration, ms: seq<Migration>): (r: seq<Migration>)
    requires Ascending(ms)
    ensures |r| == |ms| + 1
    ensures forall x :: x in r <==> x == m || x in ms
    ensures Ascending(r) && multiset(r) == multiset(ms) + multiset{m}
  {
    if ms == [] then [m]
    else if m.version <= ms[0].version then
      [m] + ms
    else
      var rest := Insert(m, ms[1..]);
      assert ms == [ms[0]] + ms[1..];
      assert forall k :: 0 <= k < |rest| ==> ms[0].version <= rest[k].version by {
        forall k | 0 <= k < |rest| ensures ms[0].version <= rest[k].version {
          assert rest[k] in rest;
        }
      }
      var r := [ms[0]] + rest;
      assert multiset(r) == multiset{ms[0]} + multiset(rest);
      assert multiset(ms) == multiset{ms[0]} + multiset(ms[1..]);
      ConsAscending(ms[0], rest);
      r
  }

  /** A migration no later than every one of an ascending list can lead it. */
  lemma ConsAscending(x: Migration, ms: seq<Migration>)
    requires Ascending(ms)
    requires forall k :: 0 <= k < |ms| ==> x.version <= ms[k].version
    ensures Ascending([x] + ms)
  {
    var r := [x] + ms;
    forall i, j | 0 <= i < j < |r| ensures r[i].version <= r[j].version {
      assert r[j] == ms[j - 1];
      if i > 0 {
        assert r[i] == ms[i - 1];
      }
    }
  }

  /** `sort.Slice` by version: the same migrations in ascending version order. */
  function SortByVersion(ms: seq<Migration>): (r: seq<Migration>)
    ensures Ascending(r) && multiset(r) == multiset(ms)
  {
    if ms == [] then []
    else
      assert ms == [ms[0]] + ms[1..];
      Insert(ms[0], SortByVersion(ms[1..]))
  }

  // ---------------------------------------------------------------- SQLite

  /** The SQLite collection step: the migration files in directory order; the first bad version name aborts. */
  function Collect(files: seq<DirEntry>): (r: Result<seq<Migration>>)
    ensures r.Ok? ==> forall k :: 0 <= k < |r.value| ==> ParseMigrationVersion(r.value[k].name) == Ok(r.value[k].version)
  {
    if files == [] then Ok([])
    else
      var f := files[0];
      if !IsMigrationFile(f) then Collect(files[1..])
      else match ParseMigrationVersion(f.name)
        case Err(e) => Err(e)
        case Ok(v) =>
          match Collect(files[1..])
          case Err(e) => Err(e)
          case Ok(ms) => Ok([Migration(v, f.name, f.body)] + ms)
  }

  /** What a whole collection gives once `ms` has been gathered in front of the rest. */
  function Prepend(ms: seq<Migration>, r: Result<seq<Migration>>): Result<seq<Migration>> {
    if r.Err? then r else Ok(ms + r.value)
  }

  /** The result of a run: the recorded versions, the executed bodies, and the error it stopped on. */
  datatype Outcome = Outcome(applied: seq<int>, executed: seq<string>, err: Error)

  /**
   * The SQLite apply loop over the sorted migrations: a version in `skip`
   * (read before the loop) is passed over; any other runs in its own
   * transaction, which a failing body or an already recorded version rolls
   * back, stopping the loop.
   */
  function ApplySQLite(ms: seq<Migration>, skip: set<int>, applied: seq<int>, executed: seq<string>,
                       failures: map<string, string>): (o: Outcome)
    ensures |o.applied| >= |applied| && o.applied[..|applied|] == applied
    ensures |o.executed| - |executed| == |o.applied| - |applied| && o.executed[..|executed|] == executed
  {
    if ms == [] then Outcome(applied, executed, None)
    else
      var m := ms[0];
      if m.version in skip then ApplySQLite(ms[1..], skip, applied, executed, failures)
      else if m.sql in failures then Outcome(applied, executed, Some("migration " + m.name + " failed: " + failures[m.sql]))
      else if m.version in applied then Outcome(applied, executed, Some("migration " + m.name + " failed: " + DuplicateVersion))
      else
        var o := ApplySQLite(ms[1..], skip, applied + [m.version], executed + [m.sql], failures);
        assert o.applied[..|applied|] == (o.applied[..|applied| + 1])[..|applied|];
        assert o.executed[..|executed|] == (o.executed[..|executed| + 1])[..|executed|];
        o
  }

  /** The migrations not in `skip`, in their order. */
  function Unskipped(ms: seq<Migration>, skip: set<int>): (r: seq<Migration>)
    ensures forall m :: m in r <==> m in ms && m.version !in skip
  {
    if ms == [] then []
    else (if ms[0].version in skip then [] else [ms[0]]) + Unskipped(ms[1..], skip)
  }

  function Versions(ms: seq<Migration>): (r: seq<int>)
    ensures |r| == |ms| && forall k :: 0 <= k < |ms| ==> r[k] == ms[k].version
  {
    if ms == [] then [] else [ms[0].version] + Versions(ms[1..])
  }

  function Executed(ms: seq<Migration>): (r: seq<string>)
    ensures |r| == |ms| && forall k :: 0 <= k < |ms| ==> r[k] == ms[k].sql
  {
    if ms == [] then [] else [ms[0].sql] + Executed(ms[1..])
  }

  function AsSet(vs: seq<int>): (s: set<int>)
    ensures forall v :: v in s <==> v in vs
  {
    set v | v in vs
  }

  /** A run that succeeds records and executes exactly the migrations not skipped, in their order. */
  lemma {:induction false} ApplySQLiteSucceeds(ms: seq<Migration>, skip: set<int>, applied: seq<int>,
                                               executed: seq<string>, failures: map<string, string>)
    requires ApplySQLite(ms, skip, applied, executed, failures).err.None?
    ensures var o := ApplySQLite(ms, skip, applied, executed, failures);
      o.applied == applied + Versions(Unskipped(ms, skip)) && o.executed == executed + Executed(Unskipped(ms, skip))
  {
    if ms != [] {
      var m := ms[0];
      var u := Unskipped(ms[1..], skip);
      if m.version in skip {
        assert ApplySQLite(ms, skip, applied, executed, failures) == ApplySQLite(ms[1..], skip, applied, executed, failures);
        ApplySQLiteSucceeds(ms[1..], skip, applied, executed, failures);
        assert Unskipped(ms, skip) == u;
      } else {
        assert ApplySQLite(ms, skip, applied, executed, failures)
            == ApplySQLite(ms[1..], skip, applied + [m.version], executed + [m.sql], failures);
        ApplySQLiteSucceeds(ms[1..], skip, applied + [m.version], executed + [m.sql], failures);
        assert Unskipped(ms, skip) == [m] + u;
        VersionsCons(m, u);
        ExecutedCons(m, u);
        AppendCons(applied, m.version, Versions(u));
        AppendCons(executed, m.sql, Executed(u));
      }
    }
  }

  lemma VersionsCons(m: Migration, u: seq<Migration>)
    ensures Versions([m] + u) == [m.version] + Versions(u)
  {
    assert ([m] + u)[1..] == u;
  }

  lemma ExecutedCons(m: Migration, u: seq<Migration>)
    ensures Executed([m] + u) == [m.sql] + Executed(u)
  {
    assert ([m] + u)[1..] == u;
  }

  lemma AppendCons<T>(a: seq<T>, x: T, b: seq<T>)
    ensures (a + [x]) + b == a + ([x] + b)
  {
  }

  /** A run in which every migration is skipped changes nothing. */
  lemma {:induction false} ApplySQLiteAllSkipped(ms: seq<Migration>, skip: set<int>, applied: seq<int>,
                                                 executed: seq<string>, failures: map<string, string>)
    requires forall k :: 0 <= k < |ms| ==> ms[k].version in skip
    ensures ApplySQLite(ms, skip, applied, executed, failures) == Outcome(applied, executed, None)
  {
    if ms != [] {
      ApplySQLiteAllSkipped(ms[1..], skip, applied, executed, failures);
    }
  }

  /** After a successful run, every migration's version is recorded. */
  lemma ApplySQLiteRecordsAll(ms: seq<Migration>, applied: seq<int>, executed: seq<string>, failures: map<string, string>)
    requires ApplySQLite(ms, AsSet(applied), applied, executed, failures).err.None?
    ensures forall k :: 0 <= k < |ms| ==> ms[k].version in ApplySQLite(ms, AsSet(applied), applied, executed, failures).applied
  {
    var o := ApplySQLite(ms, AsSet(applied), applied, executed, failures);
    ApplySQLiteSucceeds(ms, AsSet(applied), applied, executed, failures);
    var u := Unskipped(ms, AsSet(applied));
    forall k | 0 <= k < |ms| ensures ms[k].version in o.applied {
      if ms[k].version !in AsSet(applied) {
        assert ms[k] in u;
        var j :| 0 <= j < |u| && u[j] == ms[k];
        assert o.applied[|applied| + j] == ms[k].version;
      }
    }
  }

  /** Running the same migrations again on the result of a successful run changes nothing. */
  lemma ApplySQLiteTwice(ms: seq<Migration>, applied: seq<int>, executed: seq<string>, failures: map<string, string>)
    requires ApplySQLite(ms, AsSet(applied), applied, executed, failures).err.None?
    ensures var o := ApplySQLite(ms, AsSet(applied), applied, executed, failures);
      ApplySQLite(ms, AsSet(o.applied), o.applied, o.executed, failures) == o
  {
    var o := ApplySQLite(ms, AsSet(applied), applied, executed, failures);
    ApplySQLiteRecordsAll(ms, applied, executed, failures);
    ApplySQLiteAllSkipped(ms, AsSet(o.applied), o.applied, o.executed, failures);
  }

  /** Skipping keeps the order: pending migrations of an ascending list are ascending. */
  lemma {:induction false} UnskippedAscending(ms: seq<Migration>, skip: set<int>)
    requires Ascending(ms)
    ensures Ascending(Unskipped(ms, skip))
  {
    if ms != [] {
      UnskippedAscending(ms[1..], skip);
      var rest := Unskipped(ms[1..], skip);
      forall k | 0 <= k < |rest| ensures ms[0].version <= rest[k].version {
        assert rest[k] in ms[1..];
      }
    }
  }

  /** The versions a successful SQLite run records are new and in ascending order. */
  lemma ApplySQLiteAscending(ms: seq<Migration>, applied: seq<int>, executed: seq<string>, failures: map<string, string>)
    requires Ascending(ms)
    requires ApplySQLite(ms, AsSet(applied), applied, executed, failures).err.None?
    ensures var added := ApplySQLite(ms, AsSet(applied), applied, executed, failures).applied[|applied|..];
      (forall i, j :: 0 <= i < j < |added| ==> added[i] <= added[j]) && forall k :: 0 <= k < |added| ==> added[k] !in applied
  {
    ApplySQLiteSucceeds(ms, AsSet(applied), applied, executed, failures);
    UnskippedAscending(ms, AsSet(applied));
    var u := Unskipped(ms, AsSet(applied));
    forall k | 0 <= k < |u| ensures u[k].version !in applied {
      assert u[k] in u;
    }
  }

  // -------------------------------------------------------------- Postgres

  /**
   * The Postgres collection step: directories, other files, names without an
   * integer version and versions already recorded are all passed over.
   */
  function CollectPending(files: seq<DirEntry>, skip: set<int>): (r: seq<Migration>)
    ensures forall k :: 0 <= k < |r| ==> r[k].version !in skip && ParseMigrationVersion(r[k].name) == Ok(r[k].version)
  {
    if files == [] then []
    else
      var f := files[0];
      var v := Atoi(VersionText(f.name));
      if !IsMigrationFile(f) || v.Err? || v.value in skip then CollectPending(files[1..], skip)
      else [Migration(v.value, f.name, f.body)] + CollectPending(files[1..], skip)
  }

  /** A file without an integer version is silently passed over. */
  lemma PendingSkipsBadName(f: DirEntry, files: seq<DirEntry>, skip: set<int>)
    requires ParseMigrationVersion(f.name).Err?
    ensures CollectPending([f] + files, skip) == CollectPending(files, skip)
  {
    assert ([f] + files)[1..] == files;
  }

  /**
   * The Postgres apply loop: an execution error stops it unless its text says
   * the object already exists; the version is then recorded unless it already
   * is (`ON CONFLICT DO NOTHING`).
   */
  function ApplyPostgres(ms: seq<Migration>, applied: seq<int>, executed: seq<string>,
                         failures: map<string, string>): (o: Outcome)
    ensures forall v :: v in applied ==> v in o.applied
  {
    if ms == [] then Outcome(applied, executed, None)
    else
      var m := ms[0];
      if m.sql in failures && !Contains(failures[m.sql], AlreadyExists) then Outcome(applied, executed, Some(failures[m.sql]))
      else
        ApplyPostgres(ms[1..], if m.version in applied then applied else applied + [m.version],
                      if m.sql in failures then executed else executed + [m.sql], failures)
  }

  /** After a successful Postgres run every migration's version is recorded. */
  lemma {:induction false} ApplyPostgresRecordsAll(ms: seq<Migration>, applied: seq<int>, executed: seq<string>,
                                                   failures: map<string, string>)
    requires ApplyPostgres(ms, applied, executed, failures).err.None?
    ensures forall k :: 0 <= k < |ms| ==> ms[k].version in ApplyPostgres(ms, applied, executed, failures).applied
  {
    if ms != [] {
      var m := ms[0];
      var a := if m.version in applied then applied else applied + [m.version];
      var e := if m.sql in failures then executed else executed + [m.sql];
      ApplyPostgresRecordsAll(ms[1..], a, e, failures);
      assert m.version in a;
      forall k | 0 <= k < |ms| ensures ms[k].version in ApplyPostgres(ms, applied, executed, failures).applied {
        if k > 0 {
          assert ms[k] == ms[1..][k - 1];
        }
      }
    }
  }

  /** When every collected version is recorded, there is nothing pending. */
  lemma {:induction false} NothingPending(files: seq<DirEntry>, skip: set<int>)
    requires forall f :: f in files && IsMigrationFile(f) && Atoi(VersionText(f.name)).Ok? ==> Atoi(VersionText(f.name)).value in skip
    ensures CollectPending(files, skip) == []
  {
    if files != [] {
      assert files[0] in files;
      assert forall f :: f in files[1..] ==> f in files;
      NothingPending(files[1..], skip);
    }
  }

  /** Every pending migration comes from a migration file whose version parses. */
  lemma {:induction false} PendingFromFiles(files: seq<DirEntry>, skip: set<int>)
    ensures forall m :: m in CollectPending(files, skip) ==>
      exists f :: f in files && IsMigrationFile(f) && Atoi(VersionText(f.name)) == Ok(m.version)
  {
    if files != [] {
      PendingFromFiles(files[1..], skip);
      forall m | m in CollectPending(files, skip)
        ensures exists f :: f in files && IsMigrationFile(f) && Atoi(VersionText(f.name)) == Ok(m.version)
      {
        if m in CollectPending(files[1..], skip) {
          var f :| f in files[1..] && IsMigrationFile(f) && Atoi(VersionText(f.name)) == Ok(m.version);
          assert f in files;
        } else {
          assert files[0] in files;
        }
      }
    }
  }

  // ------------------------------------------------------- collection loops

  /** `Prepend` of nothing is the result itself. */
  lemma PrependEmpty(r: Result<seq<Migration>>)
    ensures Prepend([], r) == r
  {
    if r.Ok? {
      assert [] + r.value == r.value;
    }
  }

  /** Moving one gathered migration from the rest's front to the gathered list. */
  lemma PrependSnoc(ms: seq<Migration>, x: Migration, r: Result<seq<Migration>>)
    ensures Prepend(ms, if r.Err? then r else Ok([x] + r.value)) == Prepend(ms + [x], r)
  {
    if r.Ok? {
      assert ms + ([x] + r.value) == (ms + [x]) + r.value;
    }
  }

  /** The collection loop of the SQLite `Migrate`: the first bad version name returns its error. */
  method CollectFiles(files: seq<DirEntry>) returns (r: Result<seq<Migration>>)
    ensures r == Collect(files)
  {
    var migs: seq<Migration> := [];
    var i := 0;
    assert files[0..] == files;
    PrependEmpty(Collect(files));
    while i < |files|
      invariant 0 <= i <= |files|
      invariant Collect(files) == Prepend(migs, Collect(files[i..]))
    {
      var f := files[i];
      assert files[i..][0] == f && files[i..][1..] == files[i + 1..];
      if IsMigrationFile(f) {
        var v := ParseMigrationVersion(f.name);
        if v.Err? {
          return Err(v.error);
        }
        PrependSnoc(migs, Migration(v.value, f.name, f.body), Collect(files[i + 1..]));
        migs := migs + [Migration(v.value, f.name, f.body)];
      }
      i := i + 1;
    }
    assert files[i..] == [];
    assert migs + [] == migs;
    return Ok(migs);
  }

  /** The collection loop of the Postgres `Migrate`. */
  method CollectPendingFiles(files: seq<DirEntry>, skip: set<int>) returns (migs: seq<Migration>)
    ensures migs == CollectPending(files, skip)
  {
    migs := [];
    var i := 0;
    assert files[0..] == files;
    while i < |files|
      invariant 0 <= i <= |files|
      invariant CollectPending(files, skip) == migs + CollectPending(files[i..], skip)
    {
      var f := files[i];
      assert files[i..][0] == f && files[i..][1..] == files[i + 1..];
      var v := Atoi(VersionText(f.name));
      if IsMigrationFile(f) && v.Ok? && v.value !in skip {
        AppendCons(migs, Migration(v.value, f.name, f.body), CollectPending(files[i + 1..], skip));
        migs := migs + [Migration(v.value, f.name, f.body)];
      }
      i := i + 1;
    }
    assert files[i..] == [];
    assert migs + [] == migs;
  }

  // ------------------------------------------------------------- the stores

  /** The database handle of a store: a nil store or DB, an open one, a closed one. */
  datatype Handle = Nil | Open | Closed

  /** The whole of an SQLite `Migrate` on a handle: the records and bodies afterwards and the error returned. */
  function SQLiteMigrate(h: Handle, files: seq<DirEntry>, applied: seq<int>, executed: seq<string>,
                         failures: map<string, string>): Outcome
  {
    if h.Nil? then Outcome(applied, executed, Some(NotInitialized))
    else if h.Closed? then Outcome(applied, executed, Some(DatabaseClosed))
    else if Collect(files).Err? then Outcome(applied, executed, Some(Collect(files).error))
    else ApplySQLite(SortByVersion(Collect(files).value), AsSet(applied), applied, executed, failures)
  }

  class Database {
    var handle: Handle
    var applied: seq<int>
    var executed: seq<string>
    const failures: map<string, string>

    constructor(h: Handle, applied0: seq<int>, executed0: seq<string>, failures0: map<string, string>)
      ensures handle == h && applied == applied0 && executed == executed0 && failures == failures0
    {
      handle := h;
      applied := applied0;
      executed := executed0;
      failures := failures0;
    }

    /**
     * The SQLite `Migrate` (of both SQLite stores): an uninitialized store is
     * an error; otherwise the migration files are collected, sorted by
     * version, and every version not recorded before the run is applied.
     */
    method MigrateSQLite(files: seq<DirEntry>) returns (err: Error)
      modifies this
      ensures handle == old(handle)
      ensures var o := SQLiteMigrate(old(handle), files, old(applied), old(executed), failures);
        applied == o.applied && executed == o.executed && err == o.err
      ensures old(handle).Nil? ==> err == Some(NotInitialized) && applied == old(applied) && executed == old(executed)
      ensures old(handle).Closed? ==> err == Some(DatabaseClosed) && applied == old(applied) && executed == old(executed)
      ensures old(handle).Open? && Collect(files).Err? ==>
        err == Some(Collect(files).error) && applied == old(applied) && executed == old(executed)
      ensures old(handle).Open? && Collect(files).Ok? ==>
        var o := ApplySQLite(SortByVersion(Collect(files).value), AsSet(old(applied)), old(applied), old(executed), failures);
        applied == o.applied && executed == o.executed && err == o.err
    {
      if handle.Nil? {
        return Some(NotInitialized);
      }
      if handle.Closed? {
        return Some(DatabaseClosed);
      }
      var skip := AppliedVersions();
      var collected := CollectFiles(files);
      if collected.Err? {
        return Some(collected.error);
      }
      err := ApplySorted(SortByVersion(collected.value), skip);
    }

    /** The apply loop of the SQLite `Migrate` over the sorted migrations. */
    method ApplySorted(sorted: seq<Migration>, skip: set<int>) returns (err: Error)
      modifies this
      ensures handle == old(handle)
      ensures var o := ApplySQLite(sorted, skip, old(applied), old(executed), failures);
        applied == o.applied && executed == o.executed && err == o.err
    {
      var j := 0;
      ghost var target := ApplySQLite(sorted, skip, applied, executed, failures);
      assert sorted[0..] == sorted;
      while j < |sorted|
        invariant 0 <= j <= |sorted|
        invariant handle == old(handle)
        invariant ApplySQLite(sorted[j..], skip, applied, executed, failures) == target
      {
        var m := sorted[j];
        assert sorted[j..][0] == m && sorted[j..][1..] == sorted[j + 1..];
        if m.version !in skip {
          var e := ApplyMigration(m);
          if e.Some? {
            return Some("migration " + m.name + " failed: " + e.value);
          }
        }
        j := j + 1;
      }
      assert sorted[j..] == [];
      return None;
    }

    /** `appliedVersions`: the recorded versions as a set. */
    function AppliedVersions(): (r: set<int>)
      reads this
      ensures forall v :: v in r <==> v in applied
    {
      AsSet(applied)
    }

    /** `applyMigration`: the body and the version record commit together or not at all. */
    method ApplyMigration(m: Migration) returns (err: Error)
      modifies this
      ensures handle == old(handle)
      ensures err.None? <==> m.sql !in failures && m.version !in old(applied)
      ensures m.sql in failures ==> err == Some(failures[m.sql])
      ensures m.sql !in failures && m.version in old(applied) ==> err == Some(DuplicateVersion)
      ensures err.None? ==> applied == old(applied) + [m.version] && executed == old(executed) + [m.sql]
      ensures err.Some? ==> applied == old(applied) && executed == old(executed)
    {
      if m.sql in failures {
        return Some(failures[m.sql]);
      }
      if m.version in applied {
        return Some(DuplicateVersion);
      }
      executed := executed + [m.sql];
      applied := applied + [m.version];
      return None;
    }

    /**
     * The Postgres `Migrate`: the recorded versions are read, the pending
     * files collected and sorted by version, and each executed and recorded.
     */
    method MigratePostgres(files: seq<DirEntry>) returns (err: Error)
      requires handle.Open?
      modifies this
      ensures handle == old(handle)
      ensures var o := ApplyPostgres(SortByVersion(CollectPending(files, AsSet(old(applied)))), old(applied), old(executed), failures);
        applied == o.applied && executed == o.executed && err == o.err
    {
      var skip := AppliedVersions();
      var pending := CollectPendingFiles(files, skip);
      err := ApplyPending(SortByVersion(pending));
    }

    /** The apply loop of the Postgres `Migrate` over the sorted pending migrations. */
    method ApplyPending(sorted: seq<Migration>) returns (err: Error)
      modifies this
      ensures handle == old(handle)
      ensures var o := ApplyPostgres(sorted, old(applied), old(executed), failures);
        applied == o.applied && executed == o.executed && err == o.err
    {
      var j := 0;
      ghost var target := ApplyPostgres(sorted, applied, executed, failures);
      assert sorted[0..] == sorted;
      while j < |sorted|
        invariant 0 <= j <= |sorted|
        invariant handle == old(handle)
        invariant ApplyPostgres(sorted[j..], applied, executed, failures) == target
      {
        var m := sorted[j];
        assert sorted[j..][0] == m && sorted[j..][1..] == sorted[j + 1..];
        if m.sql in failures && !Contains(failures[m.sql], AlreadyExists) {
          return Some(failures[m.sql]);
        }
        if m.sql !in failures {
          executed := executed + [m.sql];
        }
        if m.version !in applied {
          applied := applied + [m.version];
        }
        j := j + 1;
      }
      assert sorted[j..] == [];
      return None;
    }

    /** `Close` of all three stores: a nil store or handle closes without error. */
    method Close() returns (err: Error)
      modifies this
      ensures err.None?
      ensures old(handle).Nil? ==> handle.Nil?
      ensures !old(handle).Nil? ==> handle.Closed?
      ensures applied == old(applied) && executed == old(executed)
    {
      if handle.Nil? {
        return None;
      }
      handle := Closed;
      return None;
    }
  }

  /** A second Postgres run after a successful one finds nothing pending and changes nothing. */
  lemma PostgresTwice(files: seq<DirEntry>, applied: seq<int>, executed: seq<string>, failures: map<string, string>)
    requires ApplyPostgres(SortByVersion(CollectPending(files, AsSet(applied))), applied, executed, failures).err.None?
    ensures var o := ApplyPostgres(SortByVersion(CollectPending(files, AsSet(applied))), applied, executed, failures);
      CollectPending(files, AsSet(o.applied)) == [] && ApplyPostgres([], o.applied, o.executed, failures) == o
  {
    var pending := CollectPending(files, AsSet(applied));
    var sorted := SortByVersion(pending);
    var o := ApplyPostgres(sorted, applied, executed, failures);
    ApplyPostgresRecordsAll(sorted, applied, executed, failures);
    forall f | f in files && IsMigrationFile(f) && Atoi(VersionText(f.name)).Ok?
      ensures Atoi(VersionText(f.name)).value in AsSet(o.applied)
    {
      var v := Atoi(VersionText(f.name)).value;
      if v !in applied {
        PendingHas(files, AsSet(applied), f);
        var m :| m in pending && m.version == v;
        assert m in multiset(sorted);
        var k :| 0 <= k < |sorted| && sorted[k] == m;
      }
    }
    NothingPending(files, AsSet(o.applied));
  }

  /** A migration file with a parsed, unrecorded version is pending. */
  lemma {:induction false} PendingHas(files: seq<DirEntry>, skip: set<int>, f: DirEntry)
    requires f in files && IsMigrationFile(f) && Atoi(VersionText(f.name)).Ok? && Atoi(VersionText(f.name)).value !in skip
    ensures exists m :: m in CollectPending(files, skip) && m.version == Atoi(VersionText(f.name)).value
  {
    var v := Atoi(VersionText(f.name)).value;
    var rest := CollectPending(files[1..], skip);
    CollectPendingCons(files, skip);
    if files[0] == f {
      assert (PendingHead(f, skip) + rest)[0] == Migration(v, f.name, f.body);
    } else {
      assert f in files[1..];
      PendingHas(files[1..], skip, f);
      var m :| m in rest && m.version == v;
      assert m in PendingHead(files[0], skip) + rest;
    }
  }

  /** What one directory entry contributes to the pending migrations. */
  function PendingHead(f: DirEntry, skip: set<int>): seq<Migration> {
    var v := Atoi(VersionText(f.name));
    if !IsMigrationFile(f) || v.Err? || v.value in skip then [] else [Migration(v.value, f.name, f.body)]
  }

  lemma CollectPendingCons(files: seq<DirEntry>, skip: set<int>)
    requires files != []
    ensures CollectPending(files, skip) == PendingHead(files[0], skip) + CollectPending(files[1..], skip)
  {
  }
}
