/** The embedded engine as the wrapper sees it: a database file and a
    connection to it. The engine is an external collaborator; this module
    gives it the behaviour the wrapper relies on and nothing more. */
module Engine {
  import opened Errors
  import opened Settings

  /** The `State` a connection reports. A disposed connection also reports a
      state other than `Open`. */
  datatype ConnState = Closed | Open | Disposed

  /** What one connection and its file look like at a point in time. */
  datatype DbState = DbState(conn: ConnState, present: bool, store: Store)

  /** What `SQLiteDataAdapter.Fill` puts in a `DataTable`: column names and
      rows of column values, in order. */
  datatype DataTable = DataTable(columns: seq<string>, rows: seq<seq<string>>)

  const OpenFailed: Exception := Exception(SQLiteException, "unable to open database file")

  /** What `Open` and `CreateCommand` throw on a disposed connection in an
      engine that refuses to use one again. */
  const ObjectDisposed: Exception := Exception(ObjectDisposedException, "Cannot access a disposed object.")

  /** Opening a connection that is not open. A disposed connection is refused
      unless the engine reopens disposed connections (`reopensDisposed`);
      otherwise opening fails when the file's directory is missing, and creates
      an empty database if the file is absent. */
  function OpenTransition(before: DbState, directoryExists: bool, reopensDisposed: bool): (r: Result<DbState>)
    requires before.conn != Open
    ensures r.Ok? <==> directoryExists && (before.conn == Disposed ==> reopensDisposed)
    ensures r.Ok? ==> r.value.conn == Open && r.value.present
    ensures r.Ok? && before.present ==> r.value.store == before.store
    ensures r.Ok? && !before.present ==> r.value.store == Fresh
    ensures r.Err? ==> r.error == (if before.conn == Disposed && !reopensDisposed then ObjectDisposed else OpenFailed)
  {
    if before.conn == Disposed && !reopensDisposed then Err(ObjectDisposed)
    else if !directoryExists then Err(OpenFailed)
    else Ok(DbState(Open, true, if before.present then before.store else Fresh))
  }

  /** The wrapper's `if (State != ConnectionState.Open) Open();`, together with
      the `CreateCommand()` before it, as a transition. It leaves an open
      connection as it is and reopens any other, unless the engine refuses a
      disposed one. */
  function Guard(before: DbState, directoryExists: bool, reopensDisposed: bool): (r: Result<DbState>)
    ensures r.Ok? ==> r.value.conn == Open
    ensures r.Err? <==> before.conn != Open && (!directoryExists || (before.conn == Disposed && !reopensDisposed))
    ensures r.Ok? && (before.conn == Open || before.present) ==> r.value.store == before.store
    ensures r.Ok? && before.conn != Open ==> r.value.present && (!before.present ==> r.value.store == Fresh)
  {
    if before.conn == Open then Ok(before) else OpenTransition(before, directoryExists, reopensDisposed)
  }

  /** Passing the guard twice is passing it once. */
  lemma GuardIdempotent(before: DbState, directoryExists: bool, reopensDisposed: bool)
    requires Guard(before, directoryExists, reopensDisposed).Ok?
    ensures Guard(Guard(before, directoryExists, reopensDisposed).value, directoryExists, reopensDisposed)
         == Guard(before, directoryExists, reopensDisposed)
  {
  }

  /** After `Dispose` the guard either reopens the connection like a closed one
      or, in an engine that refuses disposed connections, throws
      `ObjectDisposedException` whatever the file and its directory are. */
  lemma GuardAfterDispose(present: bool, store: Store, directoryExists: bool)
    ensures Guard(DbState(Disposed, present, store), directoryExists, true)
         == Guard(DbState(Closed, present, store), directoryExists, true)
    ensures Guard(DbState(Disposed, present, store), directoryExists, false) == Err(ObjectDisposed)
  {
  }

  /** A database file at one path. `present` is what `File.Exists` reports;
      `directoryExists` is whether the directory that holds it exists;
      `reopensDisposed` is whether the engine lets a disposed connection to it
      be opened again. That is a property of the engine's build, so every
      `Database` of one program is meant to carry the same value. */
  class Database {
    const path: string
    const directoryExists: bool
    const reopensDisposed: bool
    var present: bool
    var store: Store

    ghost predicate Valid()
      reads this
    {
      (present ==> directoryExists) && store.Valid()
    }

    constructor (path: string, directoryExists: bool, reopensDisposed: bool, present: bool, store: Store)
      requires present ==> directoryExists
      requires store.Valid()
      ensures Valid()
      ensures this.path == path && this.directoryExists == directoryExists
      ensures this.reopensDisposed == reopensDisposed
      ensures this.present == present && this.store == store
    {
      this.path := path;
      this.directoryExists := directoryExists;
      this.reopensDisposed := reopensDisposed;
      this.present := present;
      this.store := store;
    }

    /** `File.Delete(path)`. An open connection keeps the contents it had. */
    method Delete()
      requires Valid()
      modifies this
      ensures Valid()
      ensures !present && store == old(store)
    {
      present := false;
    }
  }

  /** One `SQLiteConnection` to one database file. */
  class Connection {
    const db: Database
    var state: ConnState

    ghost function Snapshot(): (s: DbState)
      reads this, db
      ensures s.conn == state && s.present == db.present && s.store == db.store
    {
      DbState(state, db.present, db.store)
    }

    /** `new SQLiteConnection("Data Source=...")`: not yet open. */
    constructor (db: Database)
      ensures this.db == db && state == Closed
    {
      this.db := db;
      state := Closed;
    }

    /** `Open()`. The engine refuses to open a connection that is already open. */
    method Open() returns (r: Outcome)
      requires state != ConnState.Open
      requires db.Valid()
      modifies this, db
      ensures db.Valid()
      ensures match OpenTransition(old(Snapshot()), db.directoryExists, db.reopensDisposed)
              case Ok(after) => r == Pass && Snapshot() == after
              case Err(e) => r == Fail(e) && Snapshot() == old(Snapshot())
    {
      if state == Disposed && !db.reopensDisposed {
        return Fail(ObjectDisposed);
      }
      if !db.directoryExists {
        return Fail(OpenFailed);
      }
      if !db.present {
        db.present := true;
        db.store := Fresh;
        assert Fresh.Valid();
      }
      state := ConnState.Open;
      r := Pass;
    }

    /** `Dispose()`: releases the file; calling it again changes nothing. */
    method Dispose()
      modifies this
      ensures state == Disposed
    {
      state := Disposed;
    }

    /** `ExecuteNonQuery()` on a statement the wrapper built. */
    method Execute(st: Statement) returns (r: Outcome)
      requires state == ConnState.Open
      requires db.Valid()
      modifies db
      ensures db.Valid() && db.present == old(db.present)
      ensures match Exec(old(db.store), st)
              case Ok(s) => r == Pass && db.store == s
              case Err(e) => r == Fail(e) && db.store == old(db.store)
    {
      ExecPreservesValid(db.store, st);
      match Exec(db.store, st)
      case Ok(s) =>
        db.store := s;
        r := Pass;
      case Err(e) =>
        r := Fail(e);
    }

    /** `ExecuteReader()` on `SELECT value FROM settings WHERE name = '<name>'`:
        the values the reader yields, in order. */
    method Read(name: string) returns (r: Result<seq<string>>)
      requires state == ConnState.Open
      ensures r == Query(db.store, name)
    {
      r := Query(db.store, name);
    }

    /** `ExecuteNonQuery()` on a statement the caller wrote. The engine's
        answer, `answer`, is given: the model does not interpret SQL text, and
        such a statement changes nothing the model represents. */
    method ExecuteRaw(sql: string, answer: Outcome) returns (r: Outcome)
      requires state == ConnState.Open
      ensures r == answer
    {
      r := answer;
    }

    /** `SQLiteDataAdapter.Fill` on a query the caller wrote; the engine's
        answer is given, as for `ExecuteRaw`. */
    method Fill(sql: string, answer: Result<DataTable>) returns (r: Result<DataTable>)
      requires state == ConnState.Open
      ensures r == answer
    {
      r := answer;
    }
  }
}
