/** The `settings` table as the engine stores it, the three statements the
    wrapper issues against it, and what `Set` and `Get` mean on it.

    The table is `settings(id INTEGER PRIMARY KEY AUTOINCREMENT,
    name VARCHAR(150) UNIQUE, value VARCHAR(250))`. */
module Settings {
  import opened Errors

  datatype Row = Row(id: nat, name: string, value: string)

  /** The contents of one database file: whether the settings table exists,
      its rows in storage order, and the next AUTOINCREMENT id. */
  datatype Store = Store(hasSettings: bool, rows: seq<Row>, nextId: nat) {
    /** What the engine guarantees: the UNIQUE constraint on `name`, and
        AUTOINCREMENT never handing out an id at or below one already used. */
    ghost predicate Valid() {
      UniqueNames(rows)
      && (forall i :: 0 <= i < |rows| ==> rows[i].id < nextId)
      && (!hasSettings ==> rows == [])
      && 1 <= nextId
    }
  }

  /** The statements without a result set that the wrapper builds itself. */
  datatype Statement =
    | CreateSettingsTable                          // CREATE TABLE settings (...)
    | DeleteSetting(name: string)                  // DELETE FROM settings WHERE name = '...'
    | InsertSetting(name: string, value: string)   // INSERT INTO settings (name, value) VALUES (...)

  const SentinelName: string := "dbInstalled"
  const SentinelValue: string := "TRUE"

  /** The database that opening an absent file creates. */
  const Fresh: Store := Store(false, [], 1)

  /** The database after a successful bootstrap. */
  const Bootstrapped: Store := Store(true, [Row(1, SentinelName, SentinelValue)], 2)

  const NoSuchTable: Exception := Exception(SQLiteException, "no such table: settings")
  const TableExists: Exception := Exception(SQLiteException, "table settings already exists")
  const UniqueFailed: Exception := Exception(SQLiteException, "UNIQUE constraint failed: settings.name")

  ghost predicate UniqueNames(rows: seq<Row>) {
    forall i, j :: 0 <= i < j < |rows| ==> rows[i].name != rows[j].name
  }

  predicate HasName(rows: seq<Row>, name: string) {
    exists i :: 0 <= i < |rows| && rows[i].name == name
  }

  /** The first row named `name` is at index `i`. */
  ghost predicate FirstNamed(rows: seq<Row>, name: string, i: int) {
    0 <= i < |rows| && rows[i].name == name
    && forall j :: 0 <= j < i ==> rows[j].name != name
  }

  /** What `SELECT value FROM settings WHERE name = '<name>'` yields, in row
      order: the values of the rows named `name`. */
  function ValuesNamed(rows: seq<Row>, name: string): (r: seq<string>)
    ensures |r| <= |rows|
    ensures r == [] <==> !HasName(rows, name)
    ensures r != [] ==> exists i :: FirstNamed(rows, name, i) && r[0] == rows[i].value
  {
    if rows == [] then []
    else if rows[0].name == name then [rows[0].value] + ValuesNamed(rows[1..], name)
    else
      var rest := ValuesNamed(rows[1..], name);
      assert rest != [] ==> exists i :: FirstNamed(rows, name, i) && rest[0] == rows[i].value by {
        if rest != [] {
          var k :| FirstNamed(rows[1..], name, k) && rest[0] == rows[1..][k].value;
          assert FirstNamed(rows, name, k + 1);
        }
      }
      assert HasName(rows[1..], name) ==> HasName(rows, name) by {
        if HasName(rows[1..], name) {
          var k :| 0 <= k < |rows[1..]| && rows[1..][k].name == name;
          assert rows[k + 1].name == name;
        }
      }
      rest
  }

  /** What `DELETE FROM settings WHERE name = '<name>'` leaves: every other row,
      in its order. */
  function RemoveNamed(rows: seq<Row>, name: string): (r: seq<Row>)
    ensures |r| <= |rows|
    ensures forall x :: x in r <==> x in rows && x.name != name
  {
    if rows == [] then []
    else if rows[0].name == name then RemoveNamed(rows[1..], name)
    else [rows[0]] + RemoveNamed(rows[1..], name)
  }

  /** The engine's answer to one statement. */
  function Exec(s: Store, st: Statement): (r: Result<Store>)
    ensures r.Err? <==>
              (st.CreateSettingsTable? && s.hasSettings)
              || (!st.CreateSettingsTable? && !s.hasSettings)
              || (st.InsertSetting? && HasName(s.rows, st.name))
    ensures r.Ok? ==> r.value.hasSettings
  {
    match st
    case CreateSettingsTable =>
      if s.hasSettings then Err(TableExists) else Ok(s.(hasSettings := true))
    case DeleteSetting(n) =>
      if !s.hasSettings then Err(NoSuchTable) else Ok(s.(rows := RemoveNamed(s.rows, n)))
    case InsertSetting(n, v) =>
      if !s.hasSettings then Err(NoSuchTable)
      else if HasName(s.rows, n) then Err(UniqueFailed)
      else Ok(Store(true, s.rows + [Row(s.nextId, n, v)], s.nextId + 1))
  }

  /** The engine's answer to `SELECT value FROM settings WHERE name = '<name>'`. */
  function Query(s: Store, name: string): (r: Result<seq<string>>)
    ensures r.Err? <==> !s.hasSettings
    ensures r.Err? ==> r.error == NoSuchTable
    ensures r.Ok? ==> (r.value == [] <==> !HasName(s.rows, name))
  {
    if !s.hasSettings then Err(NoSuchTable) else Ok(ValuesNamed(s.rows, name))
  }

  /** `Set(name, value)`: the delete statement, then the insert statement; the
      first failure is the result. */
  function Put(s: Store, name: string, value: string): (r: Result<Store>)
    ensures r.Ok? <==> s.hasSettings
    ensures r.Err? ==> r.error == NoSuchTable
    ensures r.Ok? ==> r.value.hasSettings && ValuesNamed(r.value.rows, name) == [value]
  {
    NoneNamedAfterRemove(s.rows, name);
    ValuesNamedAppend(RemoveNamed(s.rows, name), Row(s.nextId, name, value), name);
    match Exec(s, DeleteSetting(name))
    case Err(e) => Err(e)
    case Ok(s1) => Exec(s1, InsertSetting(name, value))
  }

  /** `Get(name)`: the value of the first row the query yields, or "" when it
      yields none. */
  function Lookup(s: Store, name: string): (r: Result<string>)
    ensures r.Err? <==> !s.hasSettings
    ensures r.Err? ==> r.error == NoSuchTable
    ensures r.Ok? && !HasName(s.rows, name) ==> r.value == ""
    ensures r.Ok? && HasName(s.rows, name) ==>
              exists i :: FirstNamed(s.rows, name, i) && r.value == s.rows[i].value
  {
    match Query(s, name)
    case Err(e) => Err(e)
    case Ok(values) => Ok(if values == [] then "" else values[0])
  }

  // ---------------------------------------------------------------------------
  // Lemmas about the rows

  lemma {:induction false} RemoveNamedKeepsUnique(rows: seq<Row>, name: string)
    requires UniqueNames(rows)
    ensures UniqueNames(RemoveNamed(rows, name))
  {
    if rows != [] {
      assert UniqueNames(rows[1..]);
      RemoveNamedKeepsUnique(rows[1..], name);
      if rows[0].name != name {
        var t := RemoveNamed(rows[1..], name);
        forall x | x in t ensures x.name != rows[0].name {
          var k :| 0 <= k < |rows[1..]| && rows[1..][k] == x;
          assert rows[k + 1] == x;
        }
        var r := [rows[0]] + t;
        forall i, j | 0 <= i < j < |r| ensures r[i].name != r[j].name {
          if i == 0 { assert r[j] == t[j - 1]; assert t[j - 1] in t; }
          else { assert r[i] == t[i - 1] && r[j] == t[j - 1]; }
        }
      }
    }
  }

  lemma {:induction false} ValuesNamedAppend(rows: seq<Row>, x: Row, name: string)
    ensures ValuesNamed(rows + [x], name)
         == ValuesNamed(rows, name) + (if x.name == name then [x.value] else [])
  {
    if rows == [] {
      assert [x][1..] == [];
    } else {
      assert (rows + [x])[1..] == rows[1..] + [x];
      ValuesNamedAppend(rows[1..], x, name);
    }
  }

  lemma {:induction false} RemoveNamedAppend(rows: seq<Row>, x: Row, name: string)
    ensures RemoveNamed(rows + [x], name)
         == RemoveNamed(rows, name) + (if x.name == name then [] else [x])
  {
    if rows == [] {
      assert [x][1..] == [];
    } else {
      assert (rows + [x])[1..] == rows[1..] + [x];
      RemoveNamedAppend(rows[1..], x, name);
    }
  }

  lemma {:induction false} RemoveNamedIdempotent(rows: seq<Row>, name: string)
    ensures RemoveNamed(RemoveNamed(rows, name), name) == RemoveNamed(rows, name)
  {
    if rows != [] {
      RemoveNamedIdempotent(rows[1..], name);
      if rows[0].name != name {
        var t := RemoveNamed(rows[1..], name);
        assert ([rows[0]] + t)[1..] == t;
      }
    }
  }

  lemma NoneNamedAfterRemove(rows: seq<Row>, name: string)
    ensures !HasName(RemoveNamed(rows, name), name)
  {
    var kept := RemoveNamed(rows, name);
    forall k | 0 <= k < |kept| ensures kept[k].name != name {
      assert kept[k] in kept;
    }
  }

  /** Deleting the rows named `name` leaves the query for any other name as it
      was. */
  lemma {:induction false} ValuesNamedAfterRemove(rows: seq<Row>, name: string, other: string)
    requires other != name
    ensures ValuesNamed(RemoveNamed(rows, name), other) == ValuesNamed(rows, other)
  {
    if rows != [] {
      ValuesNamedAfterRemove(rows[1..], name, other);
      if rows[0].name != name {
        var t := RemoveNamed(rows[1..], name);
        assert ([rows[0]] + t)[1..] == t;
      }
    }
  }

  // ---------------------------------------------------------------------------
  // Lemmas about the statements and the two operations

  /** Every statement the engine accepts keeps the engine's guarantees. */
  lemma ExecPreservesValid(s: Store, st: Statement)
    requires s.Valid()
    ensures Exec(s, st).Ok? ==> Exec(s, st).value.Valid()
  {
    match st
    case CreateSettingsTable =>
    case DeleteSetting(n) =>
      if s.hasSettings { RemoveNamedKeepsUnique(s.rows, n); }
    case InsertSetting(n, v) =>
      if s.hasSettings && !HasName(s.rows, n) {
        var r := s.rows + [Row(s.nextId, n, v)];
        forall i, j | 0 <= i < j < |r| ensures r[i].name != r[j].name {
          if j == |s.rows| { assert r[i] == s.rows[i]; }
        }
      }
  }

  /** A successful `Set` keeps the engine's guarantees. */
  lemma PutPreservesValid(s: Store, name: string, value: string)
    requires s.Valid()
    ensures Put(s, name, value).Ok? ==> Put(s, name, value).value.Valid()
  {
    if s.hasSettings {
      ExecPreservesValid(s, DeleteSetting(name));
      var s1 := Exec(s, DeleteSetting(name)).value;
      NoneNamedAfterRemove(s.rows, name);
      ExecPreservesValid(s1, InsertSetting(name, value));
    }
  }

  /** After `Set(name, value)` exactly one row is named `name` and it holds
      `value`; every row with another name is kept, in order; and that row
      has a fresh id, above every id the table had. */
  lemma PutResult(s: Store, name: string, value: string)
    requires s.Valid() && s.hasSettings
    ensures Put(s, name, value).Ok?
    ensures var s' := Put(s, name, value).value;
            && ValuesNamed(s'.rows, name) == [value]
            && RemoveNamed(s'.rows, name) == RemoveNamed(s.rows, name)
            && s'.rows == RemoveNamed(s.rows, name) + [Row(s.nextId, name, value)]
            && s'.nextId == s.nextId + 1
  {
    PutPreservesValid(s, name, value);
    var kept := RemoveNamed(s.rows, name);
    var x := Row(s.nextId, name, value);
    NoneNamedAfterRemove(s.rows, name);
    ValuesNamedAppend(kept, x, name);
    RemoveNamedAppend(kept, x, name);
    RemoveNamedIdempotent(s.rows, name);
  }

  /** `Set(name, value)` then `Get(name)` returns `value`. */
  lemma PutThenLookup(s: Store, name: string, value: string)
    requires s.Valid() && s.hasSettings
    ensures Put(s, name, value).Ok?
    ensures Lookup(Put(s, name, value).value, name) == Ok(value)
  {
    PutResult(s, name, value);
  }

  /** `Set(name, value)` does not change what `Get` returns for any other name. */
  lemma PutKeepsOtherNames(s: Store, name: string, value: string, other: string)
    requires s.Valid() && s.hasSettings && other != name
    ensures Put(s, name, value).Ok?
    ensures Lookup(Put(s, name, value).value, other) == Lookup(s, other)
  {
    PutResult(s, name, value);
    var kept := RemoveNamed(s.rows, name);
    ValuesNamedAppend(kept, Row(s.nextId, name, value), other);
    ValuesNamedAfterRemove(s.rows, name, other);
  }

  /** In this engine `Set` can only fail at its delete: once the delete has
      succeeded, the insert cannot fail, so a failed `Set` changed nothing. */
  lemma PutFailsOnlyAtDelete(s: Store, name: string, value: string)
    ensures Put(s, name, value).Err? ==> Exec(s, DeleteSetting(name)).Err?
    ensures Exec(s, DeleteSetting(name)).Ok? ==>
              Exec(Exec(s, DeleteSetting(name)).value, InsertSetting(name, value)).Ok?
  {
    NoneNamedAfterRemove(s.rows, name);
  }

  /** Overwrite: `Set(name, v1)` then `Set(name, v2)` leaves one row named
      `name`, holding `v2`, and its id is above the id the first `Set` gave. */
  lemma OverwriteReplacesRow(s: Store, name: string, v1: string, v2: string)
    requires s.Valid() && s.hasSettings
    ensures Put(s, name, v1).Ok?
    ensures var s1 := Put(s, name, v1).value;
            && Put(s1, name, v2).Ok?
            && var s2 := Put(s1, name, v2).value;
               && ValuesNamed(s2.rows, name) == [v2]
               && Lookup(s2, name) == Ok(v2)
               && s2.rows[|s2.rows| - 1] == Row(s.nextId + 1, name, v2)
               && forall i :: 0 <= i < |s1.rows| && s1.rows[i].name == name ==> s1.rows[i].id < s.nextId + 1
  {
    PutPreservesValid(s, name, v1);
    PutResult(s, name, v1);
    var s1 := Put(s, name, v1).value;
    PutPreservesValid(s1, name, v2);
    PutResult(s1, name, v2);
  }

  /** `Get(name)` returns the value of the first row named `name`, or "" when no
      row is; without the settings table it throws the engine's error. */
  lemma LookupFirstMatch(s: Store, name: string)
    ensures !s.hasSettings ==> Lookup(s, name) == Err(NoSuchTable)
    ensures s.hasSettings && !HasName(s.rows, name) ==> Lookup(s, name) == Ok("")
    ensures forall i :: s.hasSettings && FirstNamed(s.rows, name, i) ==> Lookup(s, name) == Ok(s.rows[i].value)
  {
    if s.hasSettings && HasName(s.rows, name) {
      var values := ValuesNamed(s.rows, name);
      var k :| FirstNamed(s.rows, name, k) && values[0] == s.rows[k].value;
      forall i | FirstNamed(s.rows, name, i) ensures i == k {
      }
    }
  }

  /** On a freshly created file the three bootstrap statements succeed, leave
      exactly the sentinel row, and the read-back yields only "TRUE". */
  lemma BootstrapSequence()
    ensures Exec(Fresh, CreateSettingsTable) == Ok(Store(true, [], 1))
    ensures Exec(Store(true, [], 1), InsertSetting(SentinelName, SentinelValue)) == Ok(Bootstrapped)
    ensures Query(Bootstrapped, SentinelName) == Ok([SentinelValue])
    ensures Lookup(Bootstrapped, SentinelName) == Ok(SentinelValue)
    ensures Fresh.Valid() && Bootstrapped.Valid()
  {
    assert !HasName([], SentinelName);
    assert [] + [Row(1, SentinelName, SentinelValue)] == [Row(1, SentinelName, SentinelValue)];
    assert Bootstrapped.rows[1..] == [];
    assert Bootstrapped.rows[0].name == SentinelName;
    assert ValuesNamed(Bootstrapped.rows, SentinelName) == [SentinelValue] + ValuesNamed([], SentinelName);
    assert [SentinelValue] + [] == [SentinelValue];
  }
}
