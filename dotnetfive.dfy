/** The .NET 5 class `SQLiteWrapperDotNetFive.SQLiteWrapper`: each instance
    owns its connection, which stays open after construction. Exceptions
    reach the caller unchanged. */
module DotNetFive {
  import opened Errors
  import opened Paths
  import opened Settings
  import opened Engine
  import opened Protocol

  /** What the constructor promises. The path is stored as given, bypassing
      the `PathToDatabase` setter. An absent file is bootstrapped; an existing
      one is only opened, with no schema check and no rows added. Either way
      the new instance's connection is left open. */
  twostate predicate Constructed(databaseName: string, pathToDatabase: string, file: Database,
                                 new r: Result<SQLiteWrapper>)
    reads file, if r.Ok? then {r.value, r.value.conn, r.value.conn.db} else {}
  {
    && file.Valid()
    && (old(file.present) ==> r.Ok? && file.present && file.store == old(file.store))
    && (!old(file.present) && file.directoryExists ==>
          r.Ok? && file.present && file.store == Bootstrapped)
    && (!old(file.present) && !file.directoryExists ==>
          r == Err(OpenFailed) && !file.present && file.store == old(file.store))
    && (r.Ok? ==> fresh(r.value) && fresh(r.value.conn) && r.value.Valid()
                  && r.value.conn.db == file && r.value.conn.state == ConnState.Open
                  && r.value.pathToDatabase == pathToDatabase
                  && r.value.databaseFileName == databaseName)
  }

  class SQLiteWrapper {
    var pathToDatabase: string
    const databaseFileName: string
    const conn: Connection

    ghost predicate Valid()
      reads this, conn, conn.db
    {
      conn.db.Valid()
    }

    /** Field initialisation only; `New` is the C# constructor. */
    constructor Init(databaseName: string, pathToDatabase: string, conn: Connection)
      ensures this.databaseFileName == databaseName
      ensures this.pathToDatabase == pathToDatabase
      ensures this.conn == conn
    {
      this.databaseFileName := databaseName;
      this.pathToDatabase := pathToDatabase;
      this.conn := conn;
    }

    /** `new SQLiteWrapper(databaseName, pathToDatabase)`. `file` is the database
        file at `Path.Combine(pathToDatabase, databaseName)`. */
    static method New(databaseName: string, pathToDatabase: string, file: Database)
      returns (r: Result<SQLiteWrapper>)
      requires file.path == Combine(pathToDatabase, databaseName)
      requires file.Valid()
      modifies file
      ensures Constructed(databaseName, pathToDatabase, file, r)
    {
      var c := new Connection(file);
      if !file.present {
        var o := Bootstrap(c);
        match o
        case Fail(e) =>
          return Err(e);
        case Pass =>
      } else {
        var o := c.Open();
        match o
        case Fail(e) =>
          return Err(e);
        case Pass =>
      }
      var w := new SQLiteWrapper.Init(databaseName, pathToDatabase, c);
      r := Ok(w);
    }

    /** `new SQLiteWrapper(databaseName)`: the directory defaults to ".". */
    static method NewInCurrentDirectory(databaseName: string, file: Database)
      returns (r: Result<SQLiteWrapper>)
      requires file.path == Combine(".", databaseName)
      requires file.Valid()
      modifies file
      ensures Constructed(databaseName, ".", file, r)
    {
      r := New(databaseName, ".", file);
    }

    /** The `PathToDatabase` setter. `directoryExists` is what
        `Directory.Exists(value)` reports. The stored path is `value` without
        its trailing separators; a missing directory throws
        `FileNotFoundException`, naming the path stored before, and stores
        nothing. */
    method SetPathToDatabase(value: string, directoryExists: bool) returns (r: Outcome)
      modifies this`pathToDatabase
      ensures r.Pass? <==> directoryExists
      ensures r.Pass? ==> pathToDatabase == TrimEnd(value)
      ensures r.Fail? ==> pathToDatabase == old(pathToDatabase)
                          && r.error == Exception(FileNotFoundException(old(pathToDatabase)), InvalidPathMessage)
    {
      if directoryExists {
        pathToDatabase := TrimEnd(value);
        r := Pass;
      } else {
        r := Fail(Exception(FileNotFoundException(pathToDatabase), InvalidPathMessage));
      }
    }

    /** `Get(name)`: opens the connection if it is not open, then returns
        the value of the first row named `name`, or "" if none is. The table
        is not changed. */
    method Get(name: string) returns (r: Result<string>)
      requires Valid()
      modifies conn, conn.db
      ensures Valid()
      ensures match Guard(old(conn.Snapshot()), conn.db.directoryExists, conn.db.reopensDisposed)
              case Err(e) => r == Err(e) && conn.Snapshot() == old(conn.Snapshot())
              case Ok(after) => conn.Snapshot() == after && r == Lookup(after.store, name)
    {
      var o := EnsureOpen(conn);
      match o
      case Fail(e) =>
        return Err(e);
      case Pass =>
      var read := conn.Read(name);
      match read
      case Err(e) =>
        r := Err(e);
      case Ok(values) =>
        r := Ok(if |values| > 0 then values[0] else "");
    }

    /** `RawCmd(sqlCommand)`: opens the connection if needed, runs the statement
        (the engine's answer is `answer`) and returns true, or throws. */
    method RawCmd(sqlCommand: string, answer: Outcome) returns (r: Result<bool>)
      requires Valid()
      modifies conn, conn.db
      ensures Valid()
      ensures match Guard(old(conn.Snapshot()), conn.db.directoryExists, conn.db.reopensDisposed)
              case Err(e) => r == Err(e) && conn.Snapshot() == old(conn.Snapshot())
              case Ok(after) =>
                conn.Snapshot() == after
                && r == (match answer case Pass => Ok(true) case Fail(e) => Err(e))
    {
      var o := EnsureOpen(conn);
      match o
      case Fail(e) =>
        return Err(e);
      case Pass =>
      o := conn.ExecuteRaw(sqlCommand, answer);
      match o
      case Fail(e) =>
        r := Err(e);
      case Pass =>
        r := Ok(true);
    }

    /** `Select(sqlCommand)`: opens the connection if needed and returns the
        table the engine fills (`answer`), or throws. */
    method Select(sqlCommand: string, answer: Result<DataTable>) returns (r: Result<DataTable>)
      requires Valid()
      modifies conn, conn.db
      ensures Valid()
      ensures match Guard(old(conn.Snapshot()), conn.db.directoryExists, conn.db.reopensDisposed)
              case Err(e) => r == Err(e) && conn.Snapshot() == old(conn.Snapshot())
              case Ok(after) => conn.Snapshot() == after && r == answer
    {
      var o := EnsureOpen(conn);
      match o
      case Fail(e) =>
        return Err(e);
      case Pass =>
      r := conn.Fill(sqlCommand, answer);
    }

    /** `Set(name, value)`: opens the connection if needed, deletes every row
        named `name`, inserts `(name, value)` and returns true; an engine error
        is thrown as it is. */
    method Set(name: string, value: string) returns (r: Result<bool>)
      requires Valid()
      modifies conn, conn.db
      ensures Valid()
      ensures match Guard(old(conn.Snapshot()), conn.db.directoryExists, conn.db.reopensDisposed)
              case Err(e) => r == Err(e) && conn.Snapshot() == old(conn.Snapshot())
              case Ok(after) =>
                match Put(after.store, name, value)
                case Ok(s) => r == Ok(true) && conn.Snapshot() == after.(store := s)
                case Err(e) => r == Err(e) && conn.Snapshot() == after
    {
      var o := EnsureOpen(conn);
      match o
      case Fail(e) =>
        return Err(e);
      case Pass =>
      o := conn.Execute(DeleteSetting(name));
      match o
      case Fail(e) =>
        return Err(e);
      case Pass =>
      o := conn.Execute(InsertSetting(name, value));
      match o
      case Fail(e) =>
        r := Err(e);
      case Pass =>
        r := Ok(true);
    }

    /** `Dispose()`: releases the connection; a second call changes nothing. */
    method Dispose()
      requires Valid()
      modifies conn
      ensures Valid()
      ensures conn.state == Disposed
    {
      conn.Dispose();
    }
  }
}
