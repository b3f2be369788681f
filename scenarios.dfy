/** Client code that uses the wrapper only through its contracts: the .NET 5
    unit tests, the shared connection of the legacy class, and a handle that
    was disposed, in an engine that reopens disposed connections
    and in one that refuses them. */
module Scenarios {
  import opened Errors
  import opened Paths
  import opened Settings
  import opened Engine
  import DotNetFive
  import Legacy

  /** The set-up and the `SetTest`, `GetTest` and `GetSetUpdateTest` cases of
      the unit tests, on a file that does not exist yet. The test names the
      file by an absolute path, so `Path.Combine(".", name)` is that path. */
  method UnitTestSession() {
    var name := "/work/1_UnitTest.db";
    var file := new Database(name, true, true, false, Fresh);
    var created := DotNetFive.SQLiteWrapper.NewInCurrentDirectory(name, file);
    var db := created.value;
    assert db.conn.Snapshot() == DbState(ConnState.Open, true, Bootstrapped);

    var ok := db.RawCmd("CREATE TABLE paths (id INTEGER PRIMARY KEY AUTOINCREMENT, path VARCHAR(250) UNIQUE, age int(4))", Pass);
    assert ok == Ok(true);
    BootstrapSequence();
    PutPreservesValid(Bootstrapped, "PathDBInstalled", "TRUE");
    PutThenLookup(Bootstrapped, "PathDBInstalled", "TRUE");
    PutKeepsOtherNames(Bootstrapped, "PathDBInstalled", "TRUE", SentinelName);
    ok := db.Set("PathDBInstalled", "TRUE");
    assert ok == Ok(true);

    // GetTest
    var s1 := db.conn.db.store;
    var v := db.Get(SentinelName);
    assert v == Ok("TRUE");
    v := db.Get("PathDBInstalled");
    assert v == Ok("TRUE");

    // SetTest and GetSetUpdateTest
    PutPreservesValid(s1, "dbName", "UnitTest.db");
    PutThenLookup(s1, "dbName", "UnitTest.db");
    ok := db.Set("dbName", "UnitTest.db");
    assert ok == Ok(true);
    v := db.Get("dbName");
    assert v == Ok("UnitTest.db");
    var s2 := db.conn.db.store;
    PutPreservesValid(s2, "dbName", "GetSetUpdateTest");
    PutThenLookup(s2, "dbName", "GetSetUpdateTest");
    ok := db.Set("dbName", "GetSetUpdateTest");
    assert ok == Ok(true);
    v := db.Get("dbName");
    assert v == Ok("GetSetUpdateTest");

    // TearDown
    db.Dispose();
    assert db.conn.state == Disposed;
  }

  /** The wrapper itself never refuses to work after `Dispose`: in an engine
      that reopens disposed connections, the next operation reopens a disposed
      handle. */
  method ReopenOnDemand() {
    var name := "/work/reopen.db";
    var file := new Database(name, true, true, false, Fresh);
    var created := DotNetFive.SQLiteWrapper.New(name, "/work", file);
    var db := created.value;
    BootstrapSequence();
    db.Dispose();
    var v := db.Get(SentinelName);
    assert v == Ok(SentinelValue) && db.conn.state == ConnState.Open;
  }

  /** A file deleted while the handle is disposed is created again, empty, by
      the next operation, which then fails for want of the settings table. */
  method DeletedFileIsRecreatedEmpty() {
    var name := "/work/deleted.db";
    var file := new Database(name, true, true, false, Fresh);
    var created := DotNetFive.SQLiteWrapper.New(name, "/work", file);
    var db := created.value;
    db.Dispose();
    file.Delete();
    var v := db.Get(SentinelName);
    assert v == Err(NoSuchTable);
    assert file.present && file.store == Fresh;
  }

  /** The legacy connection is static: after a second instance is built on
      another file, `Set` on the first instance writes to the second file. */
  method LegacySharedConnection() {
    var slot := new Legacy.ConnectionSlot();
    var fileA := new Database(LegacyFilePath(".", "a.db"), true, true, false, Fresh);
    var fileB := new Database(LegacyFilePath(".", "b.db"), true, true, false, Fresh);
    var createdA := Legacy.SQLiteWrapper.NewInCurrentDirectory("a.db", slot, fileA);
    var a := createdA.value;
    assert slot.cnn.db == fileA && slot.cnn.state == Disposed;
    var createdB := Legacy.SQLiteWrapper.NewInCurrentDirectory("b.db", slot, fileB);
    assert slot.cnn.db == fileB;
    assert a.shared.cnn.db == fileB;
    assert fileA.store == Bootstrapped && fileB.store == Bootstrapped;
    BootstrapSequence();
    PutPreservesValid(Bootstrapped, "k", "v");
    PutThenLookup(Bootstrapped, "k", "v");
    var before := slot.cnn.Snapshot();
    assert before == DbState(Disposed, true, Bootstrapped);
    assert Guard(before, true, true) == Ok(DbState(ConnState.Open, true, Bootstrapped));
    var ok := a.Set("k", "v");
    assert ok == Ok(true);
    assert fileA.store == Bootstrapped;
    assert Lookup(fileB.store, "k") == Ok("v");
  }

  /** In an engine that refuses disposed connections, `Dispose` ends the .NET 5
      instance: every later operation throws `ObjectDisposedException` and
      the file is left as it was. */
  method DisposedHandleIsRefused() {
    var name := "/work/refused.db";
    var file := new Database(name, true, false, false, Fresh);
    var created := DotNetFive.SQLiteWrapper.New(name, "/work", file);
    var db := created.value;
    db.Dispose();
    var v := db.Get(SentinelName);
    assert v == Err(ObjectDisposed);
    var ok := db.Set("k", "v");
    assert ok == Err(ObjectDisposed);
    assert file.store == Bootstrapped && db.conn.state == Disposed;
  }

  /** In an engine that refuses disposed connections, the legacy class is
      unusable once constructed: its constructor disposes the shared
      connection, so `Get` and `Select` throw `ObjectDisposedException` and
      `RawCmd` and `Set` throw a general exception with its message. */
  method LegacyRefusedAfterConstruction() {
    var slot := new Legacy.ConnectionSlot();
    var file := new Database(LegacyFilePath(".", "c.db"), true, false, false, Fresh);
    var created := Legacy.SQLiteWrapper.NewInCurrentDirectory("c.db", slot, file);
    var w := created.value;
    assert file.store == Bootstrapped;
    var v := w.Get(SentinelName);
    assert v == Err(ObjectDisposed);
    var t := w.Select("SELECT * FROM settings", Ok(DataTable(["value"], [["TRUE"]])));
    assert t == Err(ObjectDisposed);
    var ok := w.RawCmd("DELETE FROM settings", Pass);
    assert ok == Err(Exception(GeneralException, ObjectDisposed.message));
    ok := w.Set("k", "v");
    assert ok == Err(Exception(GeneralException, ObjectDisposed.message));
    assert file.store == Bootstrapped;
  }
}
