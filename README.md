# SQLiteWrapper: a verified model of the settings-store protocol

SQLiteWrapper is a small C# class over System.Data.SQLite. It keeps named
string settings in a `settings(id AUTOINCREMENT, name UNIQUE, value)` table
in one database file. It also passes raw statements and queries through to
the engine. The repository has two copies of the class. The .NET Framework
copy (`src/SQLiteWrapper`) keeps its connection in a static field. The .NET 5
copy (`src/SQLiteWrapperDotNetFive`) gives each instance its own connection
and is the one the unit tests use.

This project models both copies in Dafny on top of an abstract in-memory
engine and proves the protocol the wrapper adds:

- The `PathToDatabase` setter trims trailing separators (`Paths`).
- The settings table persists across statements: `Settings` holds the rows
  and the three statements the wrapper builds. `Set` is a delete followed by
  an insert; `Get` returns the first row's value or "".
- The engine: a database file (`Engine.Database`) and a connection with the
  states Closed, Open and Disposed (`Engine.Connection`). The engine refuses
  to open an open connection and runs statements only on an open one. So
  every wrapper operation verifies only because its open-on-demand guard
  runs first.
- Code both classes share (`Protocol`): the guard, and the bootstrap of a
  missing file. Bootstrap creates the table, inserts the sentinel
  `("dbInstalled", "TRUE")` and reads it back. A wrong read-back deletes the
  file and throws.
- The two classes (`Legacy`, `DotNetFive`). A C# constructor that can throw
  becomes a static `New` method that returns `Result<SQLiteWrapper>`.
- `Scenarios`: client methods that use only the contracts. They replay the
  set-up, `SetTest`, `GetTest` and `GetSetUpdateTest` of
  `src/UnitTests/Tests.cs:26-72`. They show that a disposed handle is
  reopened in an engine that allows it, and that a file deleted under a disposed handle comes back empty
  (the next `Get` then fails with "no such table"). They also show the legacy
  hazard: after a second instance is built on another file, `Set` on
  the first instance writes to the second file. In an engine that refuses
  disposed connections, they show the opposite: a disposed .NET 5 instance
  and every legacy instance throw `ObjectDisposedException` from their
  first operation on.

The following are parameters rather than effects:

- `Directory.Exists(value)` is the `directoryExists` argument of the setters.
- `File.Exists` is `Database.present`.
- `File.Delete` is `Database.Delete`.
- Whether the file's directory exists is `Database.directoryExists`.
- Whether the engine lets a disposed connection be opened again is
  `Database.reopensDisposed`. System.Data.SQLite decides this at build time:
  a build that checks for disposal throws `ObjectDisposedException` from
  `CreateCommand` and `Open`. Every contract of the wrapper is stated for
  both values.
- The engine's answers to raw statements and queries are the `answer`
  arguments of `RawCmd` and `Select`.

The file behind a wrapper is the `Database` whose `path` is the composed
path. The legacy class composes it as `path + '\\' + name`. The .NET 5 class
uses `Path.Combine`, modelled as on Unix.

Where the code and the intended design differ, the model follows the code:

- Only a wrong read-back deletes the file. An exception from opening, from
  `CREATE TABLE` or from the insert leaves the file in place
  (`Protocol.Bootstrap`).
- An empty read-back counts as success: the reader loop checks only the rows
  it gets (`Protocol.ScanReadBack`).
- The file is deleted while the connection is still open. The .NET 5 class
  then leaves that connection open. The legacy class disposes it on the way
  out of its `using` block.
- The wrapper itself never refuses work after `Dispose`: its guard treats a
  disposed connection like a closed one. Whether that works is up to the
  engine (`Engine.GuardAfterDispose`).
- The legacy class disposes its connection before the constructor returns.
  Its first operation must reopen it. So with an engine that refuses
  disposed connections, no legacy operation can succeed after construction.
  The connection is shared by every instance: a program creates one
  `Legacy.ConnectionSlot` for the static field and passes it to every `New`.
- The .NET 5 setter's `FileNotFoundException` names the path stored before,
  not the rejected one.
- With an exact engine a wrong read-back cannot happen. `Protocol.Bootstrap`
  proves that a missing file in an existing directory is always
  bootstrapped. The check inside it is modelled for arbitrary read-backs by
  `Protocol.VerifySentinel`.
- Trimming the root "/" gives "" (`Paths.TrimEndOfRoot`). The stored path is
  only read back through the getter; the connection never uses it.

## Model

| member | source | states |
|---|---|---|
| `Errors.Rethrow` | src/SQLiteWrapper/SQLiteWrapper.cs:154-157 | the rethrown exception is a general `Exception` with the caught message; a general exception is rethrown as an equal one |
| `Paths.TrimEnd` | src/SQLiteWrapper/SQLiteWrapper.cs:56-57 | the stored path is a prefix of the input, does not end in '\\' or '/', and everything removed is a separator |
| `Paths.TrimEndIdempotent` | src/SQLiteWrapperDotNetFive/SQLiteWrapper.cs:51-52 | trimming a trimmed path changes nothing |
| `Paths.TrimEndUnique` | src/SQLiteWrapperDotNetFive/SQLiteWrapper.cs:52 | the three properties of `TrimEnd` determine its result: trimming removes exactly the trailing run of separators |
| `Paths.TrimEndIgnoresAddedSeparators` | src/SQLiteWrapper/SQLiteWrapper.cs:57 | appending separators to a path does not change what it trims to |
| `Paths.TrimEndOfRoot` | src/SQLiteWrapper/SQLiteWrapper.cs:54-57 | the root "/" (and "\\\\") is trimmed to the empty string |
| `Paths.LegacyFilePath` | src/SQLiteWrapper/SQLiteWrapper.cs:236 | the legacy file path is the directory, one backslash, then the file name |
| `Paths.LegacyFilePathSplits` | src/SQLiteWrapper/SQLiteWrapper.cs:71 | for a file name without a backslash, the directory and the name are recovered from the composed path at its last backslash |
| `Paths.Combine` | src/SQLiteWrapperDotNetFive/SQLiteWrapper.cs:70 | the composed file path ends with the file name; it starts with the directory unless the name is rooted, and is the name itself when it is; between a non-empty directory and a relative name exactly one '/' is inserted unless the directory already ends in one |
| `Settings.ValuesNamed` | src/SQLiteWrapper/SQLiteWrapper.cs:119-126 | the select yields no value exactly when no row has the name; otherwise its first value is that of the first row with the name |
| `Settings.RemoveNamed` | src/SQLiteWrapper/SQLiteWrapper.cs:211-212 | the delete keeps exactly the rows with other names |
| `Settings.Exec` | src/SQLiteWrapper/SQLiteWrapper.cs:78-83 | a statement fails exactly when: CREATE finds the table; DELETE or INSERT finds no table; INSERT finds the name taken. After success the table exists |
| `Settings.Query` | src/SQLiteWrapper/SQLiteWrapper.cs:119-120 | the select fails exactly when the settings table is missing, with "no such table"; otherwise it yields no value exactly when no row has the name |
| `Settings.Put` | src/SQLiteWrapper/SQLiteWrapper.cs:211-216 | the delete then the insert succeed exactly when the settings table exists, and fail with "no such table" otherwise; afterwards the select on the name yields exactly the new value |
| `Settings.Lookup` | src/SQLiteWrapper/SQLiteWrapper.cs:119-129 | `Get` fails exactly when the settings table is missing; otherwise it is "" when no row has the name, and the value of the first row with the name when one does |
| `Settings.ExecPreservesValid` | src/SQLiteWrapperDotNetFive/SQLiteWrapper.cs:91 | every accepted statement keeps names unique and every id below the next AUTOINCREMENT id |
| `Settings.PutPreservesValid` | src/SQLiteWrapperDotNetFive/SQLiteWrapper.cs:198-203 | a successful `Set` keeps names unique and every id below the next AUTOINCREMENT id |
| `Settings.PutResult` | src/SQLiteWrapper/SQLiteWrapper.cs:211-216 | after `Set(n, v)` exactly one row is named n and holds v; the rows with other names are kept in order; the new row comes last with a fresh id above every old id |
| `Settings.PutThenLookup` | src/SQLiteWrapperDotNetFive/SQLiteWrapper.cs:188-205 | `Set(n, v)` then `Get(n)` returns v |
| `Settings.PutKeepsOtherNames` | src/SQLiteWrapper/SQLiteWrapper.cs:198-224 | `Set(n, v)` does not change what `Get(m)` returns for any other name m |
| `Settings.PutFailsOnlyAtDelete` | src/SQLiteWrapper/SQLiteWrapper.cs:211-216 | in the modelled engine a failed `Set` failed at its delete: once the delete succeeds, the insert does too |
| `Settings.OverwriteReplacesRow` | src/SQLiteWrapperDotNetFive/SQLiteWrapper.cs:197-203 | `Set(n, v1)` then `Set(n, v2)` leaves one row named n, holding v2, with an id above the first row's id |
| `Settings.LookupFirstMatch` | src/SQLiteWrapper/SQLiteWrapper.cs:119-129 | `Get(n)` is the value of the first row named n, "" when there is none, and the engine's error when the table is missing |
| `Settings.BootstrapSequence` | src/SQLiteWrapperDotNetFive/SQLiteWrapper.cs:91-99 | on a new file, CREATE and the sentinel INSERT succeed. The table then holds only ("dbInstalled", "TRUE") and the read-back yields only "TRUE" |
| `Engine.OpenTransition` | src/SQLiteWrapperDotNetFive/SQLiteWrapper.cs:88 | opening fails exactly when the directory is missing or the connection is disposed in an engine that refuses disposed connections, with that engine's `ObjectDisposedException` in the second case; otherwise the connection is open and the file exists, with its old contents or, if it was absent, an empty database |
| `Engine.Guard` | src/SQLiteWrapper/SQLiteWrapper.cs:110-116 | after the guard the connection is open; it fails exactly for a non-open connection in a missing directory or a disposed one the engine refuses; it keeps the contents of an open connection or an existing file, and a non-open connection to an absent file comes back with the file present and an empty database |
| `Engine.GuardAfterDispose` | src/SQLiteWrapper/SQLiteWrapper.cs:242-250 | after `Dispose` the guard behaves as on a closed connection in an engine that reopens disposed ones, and throws `ObjectDisposedException` in one that refuses them |
| `Engine.GuardIdempotent` | src/SQLiteWrapper/SQLiteWrapper.cs:144-147 | passing the guard a second time changes nothing |
| `Engine.Database.Delete` | src/SQLiteWrapper/SQLiteWrapper.cs:95 | after `File.Delete` the file is absent |
| `Engine.Connection.constructor` | src/SQLiteWrapper/SQLiteWrapper.cs:71 | a new connection refers to the given file and is not open |
| `Engine.Connection.Open` | src/SQLiteWrapper/SQLiteWrapper.cs:75 | opening is allowed only on a connection that is not open, and changes the state as `OpenTransition` says |
| `Engine.Connection.Dispose` | src/SQLiteWrapperDotNetFive/SQLiteWrapper.cs:213 | a disposed connection is in state Disposed, whatever its state before |
| `Engine.Connection.Execute` | src/SQLiteWrapper/SQLiteWrapper.cs:79 | a statement runs only on an open connection; the table becomes `Exec`'s answer, or stays as it was on failure |
| `Engine.Connection.Read` | src/SQLiteWrapper/SQLiteWrapper.cs:120 | the reader runs only on an open connection and yields the values `Query` gives |
| `Engine.Connection.ExecuteRaw` | src/SQLiteWrapper/SQLiteWrapper.cs:150-151 | a raw statement runs only on an open connection |
| `Engine.Connection.Fill` | src/SQLiteWrapper/SQLiteWrapper.cs:180-185 | a raw query runs only on an open connection |
| `Protocol.EnsureOpen` | src/SQLiteWrapperDotNetFive/SQLiteWrapper.cs:119-122 | a non-open connection is opened and an open one is left alone, as `Guard` says |
| `Protocol.ScanReadBack` | src/SQLiteWrapperDotNetFive/SQLiteWrapper.cs:101-108 | the read-back loop succeeds exactly when every value it yields is "TRUE" |
| `Protocol.VerifySentinel` | src/SQLiteWrapper/SQLiteWrapper.cs:89-98 | if any read-back value is not "TRUE", the file is deleted and "Error creating database" is thrown; otherwise nothing changes |
| `Protocol.Bootstrap` | src/SQLiteWrapperDotNetFive/SQLiteWrapper.cs:84-109 | on a missing file in an existing directory the bootstrap succeeds, leaves the connection open and the table holding exactly ("dbInstalled", "TRUE"); with a missing directory it throws the open error and changes nothing |
| `DotNetFive.SQLiteWrapper.New` | src/SQLiteWrapperDotNetFive/SQLiteWrapper.cs:66-79 | stores the path as given. An absent file is bootstrapped; an existing one is only opened, contents untouched. The new instance's connection is open |
| `DotNetFive.SQLiteWrapper.NewInCurrentDirectory` | src/SQLiteWrapperDotNetFive/SQLiteWrapper.cs:66 | as `New` with the directory "." stored as the path |
| `DotNetFive.SQLiteWrapper.SetPathToDatabase` | src/SQLiteWrapperDotNetFive/SQLiteWrapper.cs:47-58 | an existing directory is stored with its trailing separators removed; a missing one throws `FileNotFoundException` naming the old path and leaves the field unchanged |
| `DotNetFive.SQLiteWrapper.Get` | src/SQLiteWrapperDotNetFive/SQLiteWrapper.cs:115-133 | reopens a non-open connection, then returns `Lookup`'s answer. It issues no write; the table is as the guard leaves it, which recreates a deleted file empty |
| `DotNetFive.SQLiteWrapper.RawCmd` | src/SQLiteWrapperDotNetFive/SQLiteWrapper.cs:140-154 | reopens a non-open connection, then returns true or the engine's exception unchanged |
| `DotNetFive.SQLiteWrapper.Select` | src/SQLiteWrapperDotNetFive/SQLiteWrapper.cs:161-180 | reopens a non-open connection, then returns the engine's table or its exception |
| `DotNetFive.SQLiteWrapper.Set` | src/SQLiteWrapperDotNetFive/SQLiteWrapper.cs:188-206 | reopens a non-open connection. Then either returns true with the table as `Put` leaves it, or throws the engine's exception, which in this engine can only come from the delete, so the table is as it was |
| `DotNetFive.SQLiteWrapper.Dispose` | src/SQLiteWrapperDotNetFive/SQLiteWrapper.cs:211-214 | the held connection is disposed |
| `Legacy.ConnectionSlot.constructor` | src/SQLiteWrapper/SQLiteWrapper.cs:39 | the static connection field is null until a constructor runs |
| `Legacy.SQLiteWrapper.New` | src/SQLiteWrapper/SQLiteWrapper.cs:232-250 | stores the path as given and puts a new connection to the file in the shared slot, even when it throws. An absent file is bootstrapped; an existing one is only opened. The connection is disposed on return |
| `Legacy.SQLiteWrapper.NewInCurrentDirectory` | src/SQLiteWrapper/SQLiteWrapper.cs:256-259 | as `New` with the directory "." stored as the path |
| `Legacy.SQLiteWrapper.SetPathToDatabase` | src/SQLiteWrapper/SQLiteWrapper.cs:52-63 | an existing directory is stored with its trailing separators removed; a missing one throws "Path for database is invalid." and leaves the field unchanged |
| `Legacy.SQLiteWrapper.Get` | src/SQLiteWrapper/SQLiteWrapper.cs:108-130 | reopens the shared connection if it is not open, then returns `Lookup`'s answer from that connection's file. It issues no write; the table is as the guard leaves it, which recreates a deleted file empty |
| `Legacy.SQLiteWrapper.RawCmd` | src/SQLiteWrapper/SQLiteWrapper.cs:137-160 | reopens the shared connection if needed. Returns true, or a new general exception with the caught message; true is never returned after a failure |
| `Legacy.SQLiteWrapper.Select` | src/SQLiteWrapper/SQLiteWrapper.cs:167-190 | reopens the shared connection if needed, then returns the engine's table or its exception unchanged |
| `Legacy.SQLiteWrapper.Set` | src/SQLiteWrapper/SQLiteWrapper.cs:198-225 | reopens the shared connection if needed. Then either returns true with the table as `Put` leaves it, or throws a new general exception with the caught message, which in this engine can only come from the delete, so the table is as it was |

## Left out

- SQL text. Statements are the `Settings.Statement` datatype. The quoting and injection faults of the interpolated statements in `Get` and `Set` are not modelled: a name or value holding `'` behaves in the model as any other string.
- The engine's effect of `RawCmd` and `Select`. The model does not interpret SQL, so the engine's answer is a parameter. A raw statement changes nothing the model represents, even one that touches the `settings` table.
- `SQLiteDataAdapter`, `SQLiteCommandBuilder` and how `Fill` builds the `DataTable`. Because of that, the `InsertTest` and `DeleteTest` unit tests are not replayed.
- The static `_cmd` field and the command and reader objects, and their `using` blocks. They hold no state the protocol depends on.
- `SQLiteConnection.Close()`. Neither class calls it, so after construction a live instance's connection is never Closed: the .NET 5 one is Open until `Dispose`, the legacy one is Disposed.
- Thread safety of the shared static connection. The sharing is modelled for sequential use only.
- Engine diagnostics. The texts of `NoSuchTable`, `TableExists`, `UniqueFailed`, `OpenFailed` and `ObjectDisposed` stand for the engine's messages and are not its exact wording.
- Statement failures other than a missing table (`NoSuchTable`), an existing table (`TableExists`) and a taken name (`UniqueFailed`): a busy, read-only or full database, an I/O error, or a quote in the value that breaks only the insert. So `Set`'s insert cannot fail after its delete (`Settings.PutFailsOnlyAtDelete`), and the model does not show that the source's `Set`, whose two statements commit separately, can throw after deleting the row.
- A directory removed or created while a file is in use. `Database.directoryExists` is fixed for the life of a `Database`, so once a constructor has succeeded the file exists, and the open-failure branch of the `Get`, `Set`, `RawCmd` and `Select` contracts is never reached.
- Ways opening can fail other than a missing directory and a refused disposed connection: permissions, a corrupt file, a locked file.
- The contents of an existing file other than those a wrapper could have written. `Settings.Store` represents a file without a `settings` table or one whose `settings` table has the bootstrap schema and unique names. So opening an existing file without a schema check is modelled only for those two cases; a foreign `settings` table is not represented.
- `File.Delete` on a file that is still open. The model deletes it and the open connection keeps its contents, as on POSIX. On Windows the engine's share mode would make the delete throw instead.
- `Path.Combine` on Windows, with drive letters and '\\' as a second separator. Only the Unix behaviour is modelled.
- The AUTOINCREMENT ceiling of 2^63-1 and the VARCHAR lengths. Ids are unbounded and SQLite does not enforce the lengths.
- The `PathToDatabase` getter. It returns the field, which the model exposes as `pathToDatabase`.
- `Get`'s `while (reader.Read()) return reader[0]` loop. It runs at most once, so it is modelled as a test of whether the reader yields a first value.
- `DotNetFive.SQLiteWrapper.Dispose`: the `?.` null check is not modelled. Every construction path assigns the connection field before anything can throw, so no instance with a null connection exists.
