/**
 * Opening a store: the DSN an SQLite store is opened with, the database file
 * under the agentary home, and the Postgres DSN fallback to `DATABASE_URL`.
 * Every SQLite open then runs the pragmas, the migrations and the statement
 * preparation; the pragmas' and the preparation's results are given, the
 * migrations are those of `Migrations`.  A successful open yields the DSN it
 * connects with.
 */
module StoreOpen {
  import opened Wrappers
  import opened GoStrings
  import opened GoPath
  import opened Disk
  import opened Migrations

  const FileScheme := "file:"
  const BusyTimeout := "?_pragma=busy_timeout(5000)"
  const ProtectedDirName := "protected"
  const DatabaseFileName := "db.sqlite"
  const DatabaseUrlVar := "DATABASE_URL"
  const PostgresViaPackage := "for postgres use postgres.Open(dsn) from github.com/ankittk/agentary/internal/store/postgres"

  /** `OpenOptions`. */
  datatype OpenOptions = OpenOptions(driver: string, home: string, dsn: string)

  /**
   * The DSN `openSQLiteDSN` opens: an empty one is refused; one without the
   * `file:` scheme is wrapped as a file URI with a busy timeout, one with it
   * is used as given.
   */
  function SQLiteDSN(dsn: string): (r: Result<string>)
    ensures r.Err? <==> dsn == ""
    ensures r.Err? ==> r.error == "sqlite DSN required"
    ensures r.Ok? ==> HasPrefix(r.value, FileScheme)
    ensures r.Ok? && HasPrefix(dsn, FileScheme) ==> r.value == dsn
    ensures r.Ok? && !HasPrefix(dsn, FileScheme) ==> r.value == FileScheme + dsn + BusyTimeout
  {
    if dsn == "" then Err("sqlite DSN required")
    else if HasPrefix(dsn, FileScheme) then Ok(dsn)
    else
      assert (FileScheme + dsn + BusyTimeout)[..|FileScheme|] == FileScheme;
      Ok(FileScheme + dsn + BusyTimeout)
  }

  /** A DSN that `openSQLiteDSN` has normalised is normalised: the wrapping happens once. */
  lemma SQLiteDSNIdempotent(dsn: string)
    requires SQLiteDSN(dsn).Ok?
    ensures SQLiteDSN(SQLiteDSN(dsn).value) == SQLiteDSN(dsn)
  {
  }

  /** The directory holding the database under `home`. */
  function ProtectedDir(home: string): string {
    JoinPath([home, ProtectedDirName])
  }

  /** `filepath.Join(home, "protected", "db.sqlite")`. */
  function DatabasePath(home: string): string {
    JoinPath([home, ProtectedDirName, DatabaseFileName])
  }

  /** For an absolute home the database file lies directly inside the protected directory. */
  lemma DatabaseInProtectedDir(home: string)
    requires IsAbs(home)
    ensures DatabasePath(home) == ProtectedDir(home) + "/" + DatabaseFileName
    ensures Within(ProtectedDir(home), RootPrefix(home))
  {
    JoinPathSegment(home, ProtectedDirName);
    JoinPathSegments(home, ProtectedDirName, DatabaseFileName);
  }

  /**
   * The first failure of the set-up an opened SQLite store goes through:
   * `initPragmas`, then `Migrate`, then `prepareStatements`.
   */
  function SetupError(pragmas: Error, migrate: Error, prepare: Error): Error {
    if pragmas.Some? then pragmas else if migrate.Some? then migrate else prepare
  }

  /**
   * The set-up of a freshly opened database, shared by `openSQLite` and
   * `openSQLiteDSN`: the pragmas (whose result is given), the migrations as
   * `Migrate` runs them, and the prepared statements (whose result is given).
   * A failing step stops the rest and closes the database.
   */
  method Setup(db: Database, files: seq<DirEntry>, pragmas: Error, prepare: Error) returns (err: Error)
    requires db.handle.Open?
    modifies db
    ensures var o := SQLiteMigrate(Open, files, old(db.applied), old(db.executed), db.failures);
      err == SetupError(pragmas, o.err, prepare) &&
      (pragmas.None? ==> db.applied == o.applied && db.executed == o.executed)
    ensures pragmas.Some? ==> db.applied == old(db.applied) && db.executed == old(db.executed)
    ensures err.None? ==> db.handle.Open?
    ensures err.Some? ==> db.handle.Closed?
  {
    if pragmas.Some? {
      var _ := db.Close();
      return pragmas;
    }
    var migrate := db.MigrateSQLite(files);
    if migrate.Some? {
      var _ := db.Close();
      return migrate;
    }
    if prepare.Some? {
      var _ := db.Close();
      return prepare;
    }
    return None;
  }

  /**
   * `OpenWithOptions`: the `postgres` driver is refused; an empty home with a
   * DSN opens that DSN; otherwise the database under the home (an empty home
   * giving `protected/db.sqlite`) is opened once its directory is created.
   * Either SQLite path then sets the database up, and a failing set-up is the
   * open's error.  `db` is the handle `sql.Open` returns.
   */
  method OpenWithOptions(fs: FileSystem, opts: OpenOptions, db: Database, files: seq<DirEntry>,
                         pragmas: Error, prepare: Error) returns (r: Result<string>)
    requires db.handle.Open?
    modifies fs, db
    ensures opts.driver == "postgres" ==>
      r == Err(PostgresViaPackage) && fs.dirs == old(fs.dirs) && db.applied == old(db.applied) && db.handle.Open?
    ensures opts.driver != "postgres" && opts.home == "" && opts.dsn != "" ==>
      var setup := SetupError(pragmas, SQLiteMigrate(Open, files, old(db.applied), old(db.executed), db.failures).err, prepare);
      fs.dirs == old(fs.dirs) && (r.Ok? <==> setup.None?) &&
      (r.Ok? ==> r == SQLiteDSN(opts.dsn)) && (r.Err? ==> r.error == setup.value)
    ensures opts.driver != "postgres" && !(opts.home == "" && opts.dsn != "") ==>
      var setup := SetupError(pragmas, SQLiteMigrate(Open, files, old(db.applied), old(db.executed), db.failures).err, prepare);
      (r.Ok? <==> ProtectedDir(opts.home) !in fs.failing && setup.None?) &&
      (r.Ok? ==> r.value == FileScheme + DatabasePath(opts.home) + BusyTimeout)
    ensures fs.files == old(fs.files) && fs.failing == old(fs.failing)
  {
    if opts.driver == "postgres" {
      return Err(PostgresViaPackage);
    }
    if opts.home == "" && opts.dsn != "" {
      var dsn := SQLiteDSN(opts.dsn);
      var err := Setup(db, files, pragmas, prepare);
      if err.Some? {
        return Err(err.value);
      }
      return dsn;
    }
    r := OpenSQLite(fs, opts.home, db, files, pragmas, prepare);
  }

  /**
   * `openSQLite`: creates the protected directory, opens the database file in
   * it with the busy timeout and sets it up.  A failing directory leaves the
   * database untouched; a failing set-up closes it.
   */
  method OpenSQLite(fs: FileSystem, home: string, db: Database, files: seq<DirEntry>,
                    pragmas: Error, prepare: Error) returns (r: Result<string>)
    requires db.handle.Open?
    modifies fs, db
    ensures ProtectedDir(home) in fs.failing ==>
      r.Err? && fs.dirs == old(fs.dirs) && db.handle.Open? && db.applied == old(db.applied) && db.executed == old(db.executed)
    ensures ProtectedDir(home) !in fs.failing ==>
      var o := SQLiteMigrate(Open, files, old(db.applied), old(db.executed), db.failures);
      var setup := SetupError(pragmas, o.err, prepare);
      fs.dirs == old(fs.dirs) + {ProtectedDir(home)} && (r.Ok? <==> setup.None?) &&
      (r.Err? ==> r.error == setup.value && db.handle.Closed?) &&
      (pragmas.None? ==> db.applied == o.applied && db.executed == o.executed)
    ensures r.Ok? ==> r.value == FileScheme + DatabasePath(home) + BusyTimeout && db.handle.Open?
    ensures fs.files == old(fs.files) && fs.failing == old(fs.failing)
  {
    var err := fs.MkdirAll(ProtectedDir(home));
    if err.Some? {
      return Err(err.value);
    }
    var setup := Setup(db, files, pragmas, prepare);
    if setup.Some? {
      return Err(setup.value);
    }
    return Ok(FileScheme + DatabasePath(home) + BusyTimeout);
  }

  /** Opening by an explicit `file:` DSN uses the very file the home layout names. */
  lemma DSNOfHomeDatabase(home: string)
    ensures SQLiteDSN(FileScheme + DatabasePath(home)) == Ok(FileScheme + DatabasePath(home))
  {
    assert (FileScheme + DatabasePath(home))[..|FileScheme|] == FileScheme;
  }

  /**
   * The DSN the Postgres `Open` connects with: the given one, else the value
   * of `DATABASE_URL`; both empty is an error.
   */
  function PostgresDSN(dsn: string, env: map<string, string>): (r: Result<string>)
    ensures r.Err? <==> dsn == "" && (DatabaseUrlVar !in env || env[DatabaseUrlVar] == "")
    ensures r.Err? ==> r.error == "postgres DSN or DATABASE_URL required"
    ensures r.Ok? && dsn != "" ==> r.value == dsn
    ensures r.Ok? && dsn == "" ==> r.value == env[DatabaseUrlVar]
  {
    var d := if dsn != "" then dsn else if DatabaseUrlVar in env then env[DatabaseUrlVar] else "";
    if d == "" then Err("postgres DSN or DATABASE_URL required") else Ok(d)
  }

  /** An explicit Postgres DSN wins over the environment; the environment is read only without one. */
  lemma PostgresDSNIgnoresEnv(dsn: string, env1: map<string, string>, env2: map<string, string>)
    requires dsn != ""
    ensures PostgresDSN(dsn, env1) == PostgresDSN(dsn, env2) == Ok(dsn)
  {
  }
}
