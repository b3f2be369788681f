/** The steps both wrapper classes share: the open-on-demand guard, the
    bootstrap of a new file and the check of its read-back. */
module Protocol {
  import opened Errors
  import opened Settings
  import opened Engine

  const BootstrapFailed: Exception := Exception(GeneralException, "Error creating database")

  /** The message both `PathToDatabase` setters throw with. */
  const InvalidPathMessage: string := "Path for database is invalid."

  /** `if (cnn.State != ConnectionState.Open) cnn.Open();` */
  method EnsureOpen(c: Connection) returns (r: Outcome)
    requires c.db.Valid()
    modifies c, c.db
    ensures c.db.Valid()
    ensures match Guard(old(c.Snapshot()), c.db.directoryExists, c.db.reopensDisposed)
            case Ok(after) => r == Pass && c.Snapshot() == after
            case Err(e) => r == Fail(e) && c.Snapshot() == old(c.Snapshot())
  {
    if c.state != ConnState.Open {
      r := c.Open();
    } else {
      r := Pass;
    }
  }

  /** The `while (reader.Read())` loop of the bootstrap: it stops at the first
      value other than "TRUE". The result is true when there is none. */
  method ScanReadBack(values: seq<string>) returns (ok: bool)
    ensures ok <==> forall i :: 0 <= i < |values| ==> values[i] == SentinelValue
  {
    var i := 0;
    while i < |values|
      invariant 0 <= i <= |values|
      invariant forall j :: 0 <= j < i ==> values[j] == SentinelValue
    {
      if values[i] != SentinelValue {
        return false;
      }
      i := i + 1;
    }
    return true;
  }

  /** The read-back check: when any value is not "TRUE", the file is deleted
      and "Error creating database" is thrown; otherwise nothing happens. */
  method VerifySentinel(values: seq<string>, db: Database) returns (r: Outcome)
    requires db.Valid()
    modifies db
    ensures db.Valid() && db.store == old(db.store)
    ensures r.Pass? <==> forall i :: 0 <= i < |values| ==> values[i] == SentinelValue
    ensures r.Pass? ==> db.present == old(db.present)
    ensures r.Fail? ==> r.error == BootstrapFailed && !db.present
  {
    var ok := ScanReadBack(values);
    if !ok {
      db.Delete();
      return Fail(BootstrapFailed);
    }
    r := Pass;
  }

  /** `CreateSettingsTable` on a file that does not exist yet: open (which
      creates the file), create the table, insert the sentinel, read it back.
      An error of any step is thrown as it is; only a wrong read-back deletes
      the file. The connection is left open. */
  method Bootstrap(c: Connection) returns (r: Outcome)
    requires c.state == Closed && !c.db.present && c.db.Valid()
    modifies c, c.db
    ensures c.db.Valid()
    ensures !c.db.directoryExists ==> r == Fail(OpenFailed) && c.Snapshot() == old(c.Snapshot())
    ensures c.db.directoryExists ==> r == Pass && c.Snapshot() == DbState(ConnState.Open, true, Bootstrapped)
  {
    r := c.Open();
    if r.Fail? {
      return;
    }
    BootstrapSequence();
    r := c.Execute(CreateSettingsTable);
    if r.Fail? {
      return;
    }
    r := c.Execute(InsertSetting(SentinelName, SentinelValue));
    if r.Fail? {
      return;
    }
    var read := c.Read(SentinelName);
    match read
    case Err(e) =>
      r := Fail(e);
    case Ok(values) =>
      r := VerifySentinel(values, c.db);
  }
}
