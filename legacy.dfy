/** The .NET Framework class `SQLiteWrapper.SQLiteWrapper`. Its connection is
    a static field: one slot shared by every instance, which each constructor
    fills with a new connection to its own file. Both constructor branches
    hold that connection in `using`, so it is disposed again before the
    constructor returns. `RawCmd` and `Set` rethrow any exception as a new
    `Exception` with the same message. */
module Legacy {
  import opened Errors
  import opened Paths
  import opened Settings
  import opened Engine
  import opened Protocol

  /** `private static SQLiteConnection _cnn`: null until a constructor runs.
      The field is static, so a program creates one `ConnectionSlot` and passes
      it to every `New`. */
  class ConnectionSlot {
    var cnn: Connection?

    constructor ()
      ensures cnn == null
    {
      cnn := null;
    }
  }

  /** What the constructor promises. The path is stored as given, bypassing
      the `PathToDatabase` setter. The shared slot is given a new connection to
      `file` in every case, even when an exception is thrown. An absent file is
      bootstrapped; an existing one is only opened, with no schema check and no
      rows added. Either way the connection is disposed when the constructor
      returns. */
  twostate predicate Constructed(databaseName: string, pathToDatabase: string, shared: ConnectionSlot,
                                 file: Database, new r: Result<SQLiteWrapper>)
    reads shared, file, if shared.cnn == null then {} else {shared.cnn}
    reads if r.Ok? then {r.value} else {}
  {
    && file.Valid()
    && shared.cnn != null && fresh(shared.cnn) && shared.cnn.db == file
    && shared.cnn.state == Disposed
    && (old(file.present) ==> r.Ok? && file.present && file.store == old(file.store))
    && (!old(file.present) && file.directoryExists ==>
          r.Ok? && file.present && file.store == Bootstrapped)
    && (!old(file.present) && !file.directoryExists ==>
          r == Err(OpenFailed) && !file.present && file.store == old(file.store))
    && (r.Ok? ==> fresh(r.value) && r.value.shared == shared && r.value.Valid()
                  && r.value.pathToDatabase == pathToDatabase
                  && r.value.databaseFileName == databaseName)
  }

  class SQLiteWrapper {
    var pathToDatabase: string
    const databaseFileName: string
    const shared: ConnectionSlot

    ghost predicate Valid()
      reads this, shared, if shared.cnn == null then {} else {shared.cnn.db}
    {
      shared.cnn != null && shared.cnn.db.Valid()
    }

    /** Field initialisation only; `New` is the C# constructor. */
    constructor Init(databaseName: string, pathToDatabase: string, shared: ConnectionSlot)
      ensures this.databaseFileName == databaseName
      ensures this.pathToDatabase == pathToDatabase
      ensures this.shared == shared
    {
      this.databaseFileName := databaseName;
      this.pathToDatabase := pathToDatabase;
      this.shared := shared;
    }

    /** `new SQLiteWrapper(databaseName, pathToDatabase)`. `file` is the database
        file at `pathToDatabase + '\\' + databaseName`. */
    static method New(databaseName: string, pathToDatabase: string, shared: ConnectionSlot, file: Database)
      returns (r: Result<SQLiteWrapper>)
      requires file.path == LegacyFilePath(pathToDatabase, databaseName)
      requires file.Valid()
      modifies shared, file
      ensures Constructed(databaseName, pathToDatabase, shared, file, r)
    {
      var c := new Connection(file);
      shared.cnn := c;
      var o;
      if !file.present {
        o := Bootstrap(c);
      } else {
        o := c.Open();
      }
      c.Dispose();
      if o.Fail? {
        return Err(o.error);
      }
      var w := new SQLiteWrapper.Init(databaseName, pathToDatabase, shared);
      r := Ok(w);
    }

    /** `new SQLiteWrapper(databaseName)`: the directory is ".". */
    static method NewInCurrentDirectory(databaseName: string, shared: ConnectionSlot, file: Database)
      returns (r: Result<SQLiteWrapper>)
      requires file.path == LegacyFilePath(".", databaseName)
      requires file.Valid()
      modifies shared, file
      ensures Constructed(databaseName, ".", shared, file, r)
    {
      r := New(databaseName, ".", shared, file);
    }

    /** The `PathToDatabase` setter. `directoryExists` is what
        `Directory.Exists(value)` reports. The stored path is `value` without
        its trailing separators; a missing directory throws and stores
        nothing. */
    method SetPathToDatabase(value: string, directoryExists: bool) returns (r: Outcome)
      modifies this`pathToDatabase
      ensures r.Pass? <==> directoryExists
      ensures r.Pass? ==> pathToDatabase == TrimEnd(value)
      ensures r.Fail? ==> pathToDatabase == old(pathToDatabase)
                          && r.error == Exception(GeneralException, InvalidPathMessage)
    {
      if directoryExists {
        pathToDatabase := TrimEnd(value);
        r := Pass;
      } else {
        r := Fail(Exception(GeneralException, InvalidPathMessage));
      }
    }

    /** `Get(name)`: opens the shared connection if it is not open, then returns
        the value of the first row named `name`, or "" if none is. The table is
        not changed; exceptions pass through unchanged. */
    method Get(name: string) returns (r: Result<string>)
      requires Valid()
      modifies shared.cnn, shared.cnn.db
      ensures Valid() && shared.cnn == old(shared.cnn)
      ensures match Guard(old(shared.cnn.Snapshot()), shared.cnn.db.directoryExists, shared.cnn.db.reopensDisposed)
              case Err(e) => r == Err(e) && shared.cnn.Snapshot() == old(shared.cnn.Snapshot())
              case Ok(after) => shared.cnn.Snapshot() == after && r == Lookup(after.store, name)
    {
      var c := shared.cnn;
      var o := EnsureOpen(c);
      match o
      case Fail(e) =>
        return Err(e);
      case Pass =>
      var read := c.Read(name);
      match read
      case Err(e) =>
        r := Err(e);
      case Ok(values) =>
        r := Ok(if |values| > 0 then values[0] else "");
    }

    /** `RawCmd(sqlCommand)`: opens the shared connection if needed, runs the
        statement (the engine's answer is `answer`) and returns true; any
        exception, including one from opening, is rethrown with its message
        only. */
    method RawCmd(sqlCommand: string, answer: Outcome) returns (r: Result<bool>)
      requires Valid()
      modifies shared.cnn, shared.cnn.db
      ensures Valid() && shared.cnn == old(shared.cnn)
      ensures match Guard(old(shared.cnn.Snapshot()), shared.cnn.db.directoryExists, shared.cnn.db.reopensDisposed)
              case Err(e) => r == Err(Rethrow(e)) && shared.cnn.Snapshot() == old(shared.cnn.Snapshot())
              case Ok(after) =>
                shared.cnn.Snapshot() == after
                && r == (match answer case Pass => Ok(true) case Fail(e) => Err(Rethrow(e)))
    {
      var c := shared.cnn;
      var o := EnsureOpen(c);
      match o
      case Fail(e) =>
        return Err(Rethrow(e));
      case Pass =>
      o := c.ExecuteRaw(sqlCommand, answer);
      match o
      case Fail(e) =>
        r := Err(Rethrow(e));
      case Pass =>
        r := Ok(true);
    }

    /** `Select(sqlCommand)`: opens the shared connection if needed and returns
        the table the engine fills (`answer`); exceptions pass through
        unchanged. */
    method Select(sqlCommand: string, answer: Result<DataTable>) returns (r: Result<DataTable>)
      requires Valid()
      modifies shared.cnn, shared.cnn.db
      ensures Valid() && shared.cnn == old(shared.cnn)
      ensures match Guard(old(shared.cnn.Snapshot()), shared.cnn.db.directoryExists, shared.cnn.db.reopensDisposed)
              case Err(e) => r == Err(e) && shared.cnn.Snapshot() == old(shared.cnn.Snapshot())
              case Ok(after) => shared.cnn.Snapshot() == after && r == answer
    {
      var c := shared.cnn;
      var o := EnsureOpen(c);
      match o
      case Fail(e) =>
        return Err(e);
      case Pass =>
      r := c.Fill(sqlCommand, answer);
    }

    /** `Set(name, value)`: opens the shared connection if needed, deletes every
        row named `name`, inserts `(name, value)` and returns true; any
        exception is rethrown with its message only, and true is not
        returned then. */
    method Set(name: string, value: string) returns (r: Result<bool>)
      requires Valid()
      modifies shared.cnn, shared.cnn.db
      ensures Valid() && shared.cnn == old(shared.cnn)
      ensures match Guard(old(shared.cnn.Snapshot()), shared.cnn.db.directoryExists, shared.cnn.db.reopensDisposed)
              case Err(e) => r == Err(Rethrow(e)) && shared.cnn.Snapshot() == old(shared.cnn.Snapshot())
              case Ok(after) =>
                match Put(after.store, name, value)
                case Ok(s) => r == Ok(true) && shared.cnn.Snapshot() == after.(store := s)
                case Err(e) => r == Err(Rethrow(e)) && shared.cnn.Snapshot() == after
    {
      var c := shared.cnn;
      var o := EnsureOpen(c);
      match o
      case Fail(e) =>
        return Err(Rethrow(e));
      case Pass =>
      o := c.Execute(DeleteSetting(name));
      match o
      case Fail(e) =>
        return Err(Rethrow(e));
      case Pass =>
      o := c.Execute(InsertSetting(name, value));
      match o
      case Fail(e) =>
        r := Err(Rethrow(e));
      case Pass =>
        r := Ok(true);
    }
  }
}
