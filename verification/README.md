# A verified model of ddao

ddao is a Go library that stores objects (a table name, an id and a map of fields) through one
interface in several SQL databases and in an S3 bucket. This project models its object-to-SQL
pipeline, the SQLite adapter built on it, the upserts of the other SQL adapters, the S3 adapter,
the reader that reflects a SQLite table back into a schema, and two example servers on top, and
proves what they promise. `dafny verify dfyconfig.toml` checks all of it.

## How the model is built

**The pipeline.** `Values`, `Common`, `Scanner`, `Statements` and `Ddl` hold Go values, table schemas,
the loops that turn an object into columns, placeholders and values, the statement texts, and the
typed cells a row is scanned into. Ranging over a Go map is `RangeOver`: any order of the keys, each
once, chosen anew at every loop. `Sql` is a lexer and a grammar for the texts the adapters print,
down to characters: every printed statement is proved to read as exactly one statement, for every
number of fields and every range order. A bare `?` is numbered by position, `$n` and `:n` by name.

**The engine.** `Engine` and `Databases` are a small relational database that takes statement texts:
rows by id, column defaults, NOT NULL, UNIQUE, REPLACE, ON CONFLICT, MERGE, UPDATE, DELETE, SELECT
and CREATE TABLE. A refused statement changes nothing, and every statement keeps the constraints.

**Conversions.** A value changes on its way in and out. `Driver` stands for that: what a column makes
of a cell it stores or is compared with, what the database driver hands over for a stored cell, and
what database/sql makes of a cell that is not of the kind of the variable it is scanned into. Most
results hold for every such driver; those that need more name it (`DriverLaws.Lawful`, which
`DriverLaws.SomeDriverIsLawful` shows can be met): nulls stay nulls, kept cells stay as they are, blobs
are never converted, number and boolean columns keep their own kind, text columns keep text and other
columns text that is no number, a printed number reads as that number, and only dates and booleans are
changed when they are fetched.

**The SQLite adapter.** `Sqlite` and `SqliteTx` are the adapter and its hand-written transaction
copies over that database. `SqliteRuns` proves that any run of calls, failing ones included, starting
from a fresh database and `CreateTables`, is answered as by a map from ids to rows; a call carries the
order in which it ranged over its object's fields, since its error or its effect may depend on it.
`SqliteLaws`, `WriteBack`, `SqliteHistory` and `Spellings` prove what that map means: what an inserted
object comes back as, writing back what was read, unique columns, row counts, which columns an update
touches, and when range order matters.

**The other SQL adapters.** `Postgres`, `TiDb`, `SqlServer` and `Oracle` are their inserts, with the
texts they print (`UpsertTexts`, `MergeTexts`), what those texts do to a table (`UpsertEffects`), and
what all five upserts leave behind and when they fail (`Upserts`). ddao's README says Oracle uses MERGE;
the code runs an INSERT and, when that violates a unique constraint, an UPDATE, and the model follows
the code.

**S3.** `S3Keys` is the key layout, `S3Store` the adapter over a bucket whose calls may fail,
`S3Runs` its refinement of a map from (table, id) to fields and its paged scan, and `S3Clients` the
single get, put and delete steps of any number of clients, in any interleaving.

**Schemas.** `Schemas` is the schema object grown by AddField; `Creation` is CREATE TABLE for a
schema, `Reflection` reads a SQLite table back, and `InfoSchema` groups information_schema rows.

**Servers.** `LdapText` and `Directory` are the directory server, `Wiki` the accounts and sessions of
the wiki. Both keep their records in the map the SQLite adapter refines: inserts succeed, and replace.
What the directory reads from a date or JSON column may be spelled otherwise than it was given.

Parameters stand for what lies outside: JSON encoding (`Marshal`, and the change a value undergoes in
JSON on S3), the conversions of a `Driver`, the `%v` form of a value, hashing and password checking,
random ids and salts, clocks, and the cut of a listing into pages. What is assumed of them can be met:
`WriteBack.SomeMarshalQuotes`, `Wiki.SomeLibraryIsSound` and `Directory.SomeServerIsCollisionless` give
instances.

## What turned out false

- A lookup can panic. The scanner asserts that the id it read is a string, and reads it by the type the
  schema gives id, while the database always keeps ids as text: the lookup of a readable row panics
  exactly when that type is not a text type or an unlisted one (`SqliteLaws.LookupPanics`); with a BLOB
  id every lookup does (`SqliteLaws.BlobIdPanics`).
- Writing back an object as it was read does not always leave the row as it was: it does exactly when
  every cell is null or of its column's own kind, or is in a text column and no blob, or is a date or in
  a column of an unlisted type in the spelling it is printed in (`WriteBack.WriteBackIsIdentity`).
  Values that suit their columns are stored as such cells (`DriverLaws.SuitedIsAtHome`).
- A JSON number comes back in the column's spelling; every other encoding comes back as it was given
  (`SqliteLaws.InsertedFieldsBack`, `DriverLaws.SpelledAsGiven`).
- Insert of an object that was read encodes its JSON columns a second time: the tables are left
  unchanged exactly when no column but id is JSON and writing the row back would leave it unchanged
  (`WriteBack.InsertWhatWasRead`).
- An object with two spellings of one column can make the effect of an UPDATE depend on the range
  order. It does not exactly when the row is not there, or the spellings of each column agree on its
  cell, or the UPDATE fails in every order, which is when a value cannot be bound, a field has no column
  or some column may hold none of the cells given to it (`Spellings.SpellingsDecide`).
- REPLACE and the updating upserts part when an object leaves columns out. REPLACE leaves what MERGE
  does exactly when nothing but the id is in the way of either row and those columns hold their defaults
  (as they do when the row is not there), or when REPLACE refuses a null and the updated row cannot be
  stored. Against ON CONFLICT, and against Oracle's retry, the row proposed for insertion must take no
  null either, and they agree as soon as REPLACE refuses (`UpsertEffects.ReplaceAgreesWithUpdate`; for
  tables and replies, `Upserts.ReplacingAdaptersAgree`).
- Nor do the updating forms always agree among themselves: MERGE parts from ON CONFLICT exactly when it
  can store the row and the row proposed for insertion has a null where none is allowed; Oracle's retry
  parts from ON CONFLICT exactly when the id is new and another row blocks it
  (`UpsertEffects.UpdatingFormsAgree`).
- Oracle stores booleans as 0 and 1: on an object that every adapter takes, its row is the others' row
  exactly when the database tells no boolean of it from that number (`Upserts.OracleTablesSame`), and
  where the database tells them apart, exactly when the object has no boolean
  (`Upserts.OraclePartsOnBooleans`, with an instance in `Upserts.OracleStoresNumbers`).
- With the id absent and another row holding one of the new row's unique values, Oracle's Insert
  reports success and stores nothing; that condition is exact (`Upserts.OracleStoresNothing`).
- An object all of whose fields are spellings of id cannot be updated (its SET list is empty, and with
  no field at all the capacity computed for it panics), nor upserted through ON CONFLICT or MERGE, whose
  other reasons to fail are that the driver refuses a value or that the row would break a constraint
  (`Upserts.UpsertTextsFail`, `Upserts.InsertOnlyAnId`).
- S3 table names with slashes can share keys; two tables can collide exactly when one's directory is
  inside the other's (`S3Keys.CollideIffNested`).
- An S3 Update brings back an object that is gone by its upload exactly when the last step to touch the
  key since its check deleted it (`S3Clients.UpdateBringsBack`). An Insert's created flag is wrong at
  its upload exactly when the last step to touch the key since its check left it the other way
  (`S3Clients.CreatedIsRight`), and two Inserts are both told they created the object exactly when it
  was absent at both checks, which is told from the steps in between (`S3Clients.BothCreated`).
- A MODIFY in the directory writes the whole row back, and so respells the creation time of its entry:
  it stays as the ADD gave it exactly when there was no MODIFY since or it was given as it is printed
  (`Directory.CreationFollowsHistory`).
- A wiki registration with a taken name or address removes the other account (`Wiki.OustedUserIsLockedOut`).

## Model

| member | source | states |
|---|---|---|
| Common.PrepareInsertData | storage/common/utils.go:49-86 | for every range order: the id and then every non-id field once, each column with its own placeholder; its value is the field's encoding in a column of type json, whatever its letters, and else the field itself; the error is the first field that is unknown or whose json column cannot be encoded |
| Common.PrepareUpdateData | storage/common/utils.go:89-107 | for every range order: one SET clause and one unencoded value for each non-id field, numbered in step, the id last; an object without fields panics |
| Text.CaseOfLetters | storage/common/utils.go:58-73 | what folding a name to lower or upper case does to each character |
| Statements.InsertParses | storage/sqlite/sqlite.go:108-111 | the printed INSERT reads back as one statement that pairs the i-th column with the i-th parameter, for each verb and the ?, $n and :n styles |
| Statements.UpdateParses | storage/sqlite/sqlite.go:133-135 | the printed UPDATE reads back as one statement that sets each column to its own parameter and selects by the parameter after them, in every style |
| Statements.EmptyUpdateDoesNotParse | storage/sqlite/sqlite.go:133-135 | without a column to set, the printed UPDATE is not a statement |
| Statements.SelectParses | storage/sqlite/sqlite.go:160-164 | the printed SELECT reads back as the columns in order, the table and the key condition |
| Statements.KeylessSelectDoesNotParse | storage/common/utils.go:127 | a key the schema does not have leaves the condition without a left side, which is no statement |
| Statements.DeleteParses | storage/sqlite/sqlite.go:166-170 | the printed DELETE reads back as the deletion of one id |
| Scanner.CellRoundTrip | storage/common/types.go:26-159 | for every column type and cell, converted or not: allocating a variable, scanning the cell into it and reading it back is decoding the cell, and once the scan has succeeded no type assertion on a cell fails |
| Scanner.DecodeByType | storage/common/types.go:93-159 | by the spelling of a column's type, what every cell comes back as: whole number, fraction, boolean, bytes or string, converted if it is of another kind; nil or a nil slice for a null, or nothing |
| Scanner.VariableByType | storage/common/types.go:26-90 | by the spelling of a column's type, the kind of variable allocated for it |
| Scanner.DecodeThenBind | storage/common/types.go:93-159 | a value read and bound again is the cell it came from exactly when the cell is null or of the column's own kind |
| Scanner.FieldScanner.constructor | storage/common/types.go:26-90 | one variable of the right kind for each entry of the field order, also when a field was added twice |
| Scanner.FieldScanner.GetColumns | storage/common/types.go:162-169 | the column names in field order |
| Scanner.FieldScanner.ScanToObject | storage/common/types.go:93-159 | after a successful scan: every field decoded, the id taken from the id column, and a panic exactly when that one is neither nil nor a string |
| DriverLaws.KeptThenRead | storage/common/types.go:93-159 | reading what a column keeps of a value gives the value exactly when it suits the column's type and nullability |
| DriverLaws.ReadThenKept | storage/common/types.go:93-159 | a stored cell that is read and kept again is the same cell exactly when it is at home in its column |
| DriverLaws.SuitedIsAtHome | storage/common/types.go:93-159 | a value that suits a column is at home in it once kept |
| DriverLaws.SpelledAsGiven | storage/common/types.go:111-147 | text columns give every text back, and JSON and similar columns every text that is no number |
| Sqlite.CommonFindByKey | storage/common/utils.go:110-139 | nil exactly when no row holds the string as the key column keeps it, else the reading of a row that does; an unknown key, and a table or column the database lacks, is an error |
| Creation.PrintCreate | storage/sqlite/sqlite.go:42-71 | the CREATE TABLE text of a table for some listing of its non-id fields, whatever the range order |
| Ddl.CreateParses | storage/sqlite/sqlite.go:42-71 | the printed text reads back as exactly the declared columns and constraints, and does so exactly when no field is auto-incremented |
| Creation.BuildAccepts | storage/sqlite/sqlite.go:42-75 | the database accepts the declaration exactly when id is the only primary key, the names differ when case is ignored and none of them, nor a type, is a keyword; then it makes an empty table with those columns |
| Sqlite.SQLiteStorage.CreateTables | storage/sqlite/sqlite.go:37-88 | succeeds exactly when every table is acceptable, for every order of tables and fields, and then adopts the schema; whether or not it succeeds, exactly the tables it got to are as declared and existing ones are untouched |
| Sqlite.SQLiteStorage.Insert | storage/sqlite/sqlite.go:90-121 | REPLACE of one row by the id and the encoded fields; every error is named, an unknown field by range order, and leaves the tables unchanged |
| Sqlite.RefusalMeans | storage/sqlite/sqlite.go:90-105 | every Insert checks, in this order, the connection, the encoding of each field, the schema and the table |
| Sqlite.SQLiteStorage.Update | storage/sqlite/sqlite.go:123-149 | changes the named columns of the row of that id, of two spellings by the later in range order, and says whether it was there; errors and panics leave the tables unchanged |
| Sqlite.SQLiteStorage.Upsert | storage/sqlite/sqlite.go:151-154 | the same as Insert |
| Sqlite.SQLiteStorage.FindByKey | storage/sqlite/sqlite.go:160-164 | as CommonFindByKey, with its argument errors and the panic on an unknown table |
| Sqlite.SQLiteStorage.FindByID | storage/sqlite/sqlite.go:156-158 | the reading of the row under the id, nil exactly when there is none, with the errors and the panic of FindByKey |
| Sqlite.SQLiteStorage.DeleteByID | storage/sqlite/sqlite.go:166-170 | removes exactly the row of that id and says whether it was there; an error for a table that is not there |
| SqliteTx.BuildInsert | storage/sqlite/sqlite.go:209-242 | the hand-grown column and placeholder texts are the joined lists of PrepareInsertData, with the same values and errors |
| SqliteTx.InsertTx | storage/sqlite/sqlite.go:189-253 | on a transaction, the same effect, result and errors as Insert |
| SqliteTx.UpsertTx | storage/sqlite/sqlite.go:447-450 | on a transaction, the same as InsertTx |
| SqliteTx.UpdateTx | storage/sqlite/sqlite.go:255-292 | on a transaction, the same effect and result as Update in the range order it took; without a schema it panics |
| SqliteTx.FindByKeyTx | storage/sqlite/sqlite.go:298-428 | on a transaction, the same answer as FindByKey when every column type is supported, otherwise an error that names an unsupported column |
| SqliteTx.SupportedByType | storage/sqlite/sqlite.go:324-358 | the seventeen types the copied switch supports |
| SqliteTx.DeleteByIDTx | storage/sqlite/sqlite.go:430-445 | on a transaction, the same effect and result as DeleteByID |
| SqliteRuns.Drive | storage/sqlite/sqlite.go:90-170 | any run of inserts, upserts, updates, deletions and lookups, failing ones included, is answered as by the map and leaves the rows of the map, for the range orders its calls took |
| SqliteRuns.Session | storage/sqlite/sqlite.go:37-170 | the same from an empty database and CreateTables on |
| SqliteRuns.PerformTx | storage/sqlite/sqlite.go:189-445 | the transaction copies take the same steps of the map |
| SqliteRuns.DriveTx | storage/sqlite/sqlite.go:189-445 | any run of them in a transaction is answered as by the map and leaves the rows of the map |
| SqliteRuns.StepFacts | storage/sqlite/sqlite.go:90-170 | each call changes only the rows of its table, keeps every constraint, and changes nothing when it fails |
| Engine.ReplaceKeepsHealthy | storage/sqlite/sqlite.go:109-115 | REPLACE removes exactly the rows with the same id or a shared non-null unique value, keeps the others and all constraints, and changes the row count by one minus the number removed |
| Engine.ExecuteKeepsHealthy | storage/sqlite/sqlite.go:55-60 | every statement keeps NOT NULL and UNIQUE |
| SqliteHistory.InsertEvicts | storage/sqlite/sqlite.go:109-115 | a successful Insert takes away exactly the rows sharing its id or a unique value, in the terms of the schema |
| SqliteHistory.RunKeepsUnique | storage/sqlite/sqlite.go:55-60 | after any run no two rows of a table share a value of a unique column |
| SqliteHistory.RunBalances | storage/sqlite/sqlite.go:90-170 | over any run a table's row count changes by the rows inserted less those evicted or deleted |
| SqliteHistory.UpdateTouches | storage/sqlite/sqlite.go:123-149 | true exactly when the row is there, and then each named column takes the value of its last spelling in range order and no other column changes |
| Spellings.SpellingsDecide | storage/common/utils.go:94-101 | an UPDATE has the same effect and reply in every range order exactly when its row is not there, or the spellings of each column agree on its cell, or a value cannot be bound, a field has no column or some column may hold none of the cells its spellings give it |
| Spellings.FittingIsAccepted | storage/sqlite/sqlite.go:133-148 | for a row that is there, some range order makes the UPDATE succeed exactly when there is a field to set, every value can be bound and every column has a spelling that breaks no constraint |
| Spellings.TwoSpellingsDependOnOrder | storage/common/utils.go:94-101 | a table and an object with two spellings of a column whose row ends with whichever comes last |
| SqliteLaws.LookupPanics | storage/common/types.go:153-156 | the lookup of a row panics exactly when the row can be read and the schema gives id a type that is not read as a string |
| SqliteLaws.BlobIdPanics | storage/common/types.go:153-156 | a table whose id is a BLOB, of which every row panics |
| SqliteLaws.FoundByType | storage/sqlite/sqlite.go:156-158 | a lookup by id returns for every column, by the spelling of its type, what the stored cell stands for |
| SqliteLaws.KeyFound | storage/common/utils.go:110-139 | a lookup by key finds nothing exactly when no row's cell is what the column keeps of the text, and else the object of such a row |
| SqliteLaws.InsertAccepted | storage/sqlite/sqlite.go:90-121 | an Insert succeeds and reports created exactly when every value can be encoded, the table is in the schema, each field has a column that takes its value and no column that must have a value is left without; otherwise nothing changes |
| SqliteLaws.InsertThenFind | storage/common/utils.go:49-86 | a lookup after an insert is an error exactly when some column has no Go value, a panic exactly when all have one but the id is no string, and otherwise returns the id and every column as it reads |
| SqliteLaws.InsertedFieldsBack | storage/common/utils.go:64-83 | fields of columns of type json come back as their encoding in the column's spelling; other fields come back unchanged exactly when the value suits the column; omitted columns come back as their default, or nil |
| WriteBack.RunKeepsSettled | storage/sqlite/sqlite.go:90-170 | after any run every stored cell is as its column keeps it |
| WriteBack.WriteBackIsIdentity | storage/common/utils.go:89-107 | updating with an object as it was read leaves all tables unchanged and reports true exactly when every cell of the row is at home, as JSON and null columns are |
| WriteBack.WriteBackAnyTimes | storage/common/utils.go:89-139 | then any run of such reads and writes leaves the tables unchanged and reads the same object every time |
| WriteBack.ChangeOneField | storage/common/utils.go:94-101 | changing one field of an object read from such a row changes exactly that column of exactly that row, or is refused |
| WriteBack.InsertWhatWasRead | storage/common/utils.go:73-78 | inserting an object that was read encodes its JSON columns again; the tables stay the same exactly when no column but id is JSON and every cell is at home |
| UpsertTexts.ConflictParses | storage/postgres/postgres.go:140-161 | the printed upsert reads back as an insert and an update that reuses the parameters of the insert, column by column; without a field it is no statement |
| Postgres.BuildUpdateClause | storage/postgres/postgres.go:155-161 | each column after the id with its own placeholder |
| Postgres.Insert | storage/postgres/postgres.go:121-153 | insert, or update of the row with that id, by the encoded fields; the checks before it as in Insert of SQLite |
| Postgres.Update | storage/postgres/postgres.go:163-189 | the numbered UPDATE has the effect and result of the SQLite one in the range order it took |
| TiDb.Insert | storage/tidb/tidb.go:114-175 | REPLACE INTO of one row, which unlike SQLite's does not turn a null into a default |
| TiDb.FindByKey | storage/tidb/tidb.go:230-347 | the lookup with columns in any map order and JSON and date-like columns read as plain strings; unsupported types are errors, a missing connection panics |
| TiDb.StrictReads | storage/tidb/tidb.go:255-289 | on the same row it returns what the shared finder returns, except that a null in a nullable column of one of the eight types JSON, DATETIME, TIMESTAMP, DATE, TIME, UUID, CLOB and XML makes it fail |
| MergeTexts.MergeParses | storage/sqlserver/sqlserver.go:168-202 | the printed MERGE reads back as a source row that holds each parameter under its column's name and branches that take every column from the source column of that name; without a field it is no statement |
| SqlServer.BuildLists | storage/sqlserver/sqlserver.go:140-172 | bracketed columns, update clauses and values in step, for every range order, with the same errors as the shared loop |
| SqlServer.PrintSource | storage/sqlserver/sqlserver.go:176-192 | the select list of the source row, one aliased parameter for each column |
| SqlServer.Insert | storage/sqlserver/sqlserver.go:121-211 | MERGE on the id: update of the row that is there, else insert |
| Oracle.BuildInsert | storage/oracle/oracle.go:171-212 | upper-case columns, numbered placeholders and values in step, booleans as 0 and 1 |
| Oracle.BuildUpdate | storage/oracle/oracle.go:226-257 | clauses and values of the retry in step, over a range order of its own |
| Oracle.Insert | storage/oracle/oracle.go:144-273 | INSERT and, on a unique violation, UPDATE by id, with independent range orders; what the update affects is not looked at |
| UpsertEffects.AllFormsAgree | storage/tidb/tidb.go:161-164 | on a complete row that can only conflict by its id, all five forms store the same row over the same table |
| UpsertEffects.ReplaceAgreesWithUpdate | storage/oracle/oracle.go:218-268 | for both REPLACE verbs, a row that is there or not, and any constraints: the exact condition under which REPLACE leaves the rows that MERGE leaves, or refuses with it, and the one against ON CONFLICT and against Oracle's retry |
| Upserts.ReplacingAdaptersAgree | storage/postgres/postgres.go:140-153 | the same for one object's tables and replies through REPLACE, MERGE and ON CONFLICT, unbindable values and objects of nothing but an id included |
| UpsertEffects.UpdatingFormsAgree | storage/oracle/oracle.go:218-268 | ON CONFLICT, MERGE and Oracle's retry leave the updated row when it can be stored and its proposal takes no null; MERGE parts from ON CONFLICT, and the retry from ON CONFLICT, under exact conditions |
| UpsertEffects.OtherConflict | storage/oracle/oracle.go:218-268 | when another row holds a unique value: REPLACE removes it, ON CONFLICT and MERGE refuse, Oracle refuses or stores nothing |
| Upserts.InsertInAll | storage/sqlserver/sqlserver.go:174-202 | one complete object inserted through the five adapters over equal tables: all succeed, four end with the same tables, and Oracle with those that hold its 0 and 1 for booleans |
| Upserts.OracleTablesSame | storage/oracle/oracle.go:188-204 | Oracle's tables are the others' exactly when the database tells no boolean of the object from that number |
| Upserts.OraclePartsOnBooleans | storage/oracle/oracle.go:188-204 | on a database that tells booleans from numbers, Oracle's tables are the others' exactly when the object has no boolean |
| Upserts.OracleStoresNumbers | storage/oracle/oracle.go:188-204 | a lawful driver, a table with a boolean column and an object that all five adapters take, over which Oracle's tables differ from the others' |
| Upserts.UpsertTextsFail | storage/postgres/postgres.go:155-161 | in every range order the printed ON CONFLICT and MERGE fail, and change nothing, exactly when every field is a spelling of id, or the driver refuses a value, or the row would break a constraint |
| Upserts.InsertOnlyAnId | storage/postgres/postgres.go:121-153 | PostgreSQL and SQL Server refuse an object all of whose fields are spellings of id, and change nothing |
| Upserts.OracleStoresNothing | storage/oracle/oracle.go:218-272 | with the id absent, Oracle reports success and changes nothing exactly when another row blocks the new one |
| S3Keys.KeysInjective | storage/s3/s3.go:506-508 | for table names without a slash and any ids the object keys are injective |
| S3Keys.NeverTheSchema | storage/s3/s3.go:137 | no object key is the schema key |
| S3Keys.NeverMetadata | storage/s3/s3.go:165 | no object key is the metadata key of a table |
| S3Keys.PrefixMatches | storage/s3/s3.go:391 | the listing prefix of a table matches exactly its own object keys |
| S3Keys.PrefixMissesTheRest | storage/s3/s3.go:391 | the listing prefix matches neither metadata nor schema keys |
| S3Keys.CollideIffNested | storage/s3/s3.go:506-508 | for any table names: two tables can share a key exactly when one's directory is inside the other's |
| S3Keys.SharedKey | storage/s3/s3.go:506-508 | two objects of tables with slashes in their names that share a key |
| S3Keys.KeyTexts | storage/s3/s3.go:506-508 | the object key, table prefix, metadata key and schema key of one table, spelled out |
| S3Store.S3Storage.CreateTables | storage/s3/s3.go:124-191 | writes the schema file and one file for each table in any order, and no stored object changes |
| S3Store.S3Storage.Insert | storage/s3/s3.go:194-260 | check, then upload: created exactly when the key was absent; a failure leaves the bucket as it was or with the upload done |
| S3Store.S3Storage.Update | storage/s3/s3.go:263-321 | false and no change when the key is absent, else the object replaced without its creation time |
| S3Store.S3Storage.FindByID | storage/s3/s3.go:334-381 | the object under the key, nil exactly when there is none |
| S3Store.S3Storage.DeleteByID | storage/s3/s3.go:453-490 | removes exactly that key and says whether it was there |
| S3Store.S3Storage.FindByKey | storage/s3/s3.go:384-450 | the first fetchable match in the concatenation of the pages; a page that fails before a match is an error |
| S3Store.PutStores | storage/s3/s3.go:234-249 | writing an object under its key stores its fields under its (table, id) and nothing else |
| S3Store.DeleteForgets | storage/s3/s3.go:476-482 | deleting a key forgets exactly that (table, id) |
| S3Store.FirstHitMeans | storage/s3/s3.go:403-446 | a hit is a fetchable document under a key ending in .json whose field shows the value; the first hit of a listing has none before it |
| S3Store.ConcatOne | storage/s3/s3.go:398-404 | the listing of one page |
| S3Store.ConcatParts | storage/s3/s3.go:398-404 | the listing of pages in parts, in order |
| S3Runs.Drive | storage/s3/s3.go:194-490 | any run on a reliable bucket is answered as by a map from (table, id) to fields |
| S3Runs.RunLeavesOthers | storage/s3/s3.go:194-490 | operations on other pairs never affect a pair |
| S3Runs.WrittenIsFound | storage/s3/s3.go:334-381 | in any run a lookup finds the last successful write of its pair: its table, its id, every field name given and what JSON makes of each value, whatever was done to other pairs in between |
| S3Runs.InsertThenFind | storage/s3/s3.go:194-381 | the same from an Insert of the adapter to a FindByID on a reliable bucket |
| S3Runs.UpdateThenFind | storage/s3/s3.go:263-381 | the same from an Update that found its object |
| S3Runs.LessMeans | storage/s3/s3.go:391 | the key order of a listing |
| S3Runs.ScanMeans | storage/s3/s3.go:384-450 | nil exactly when no fetchable object of the table has the field, else the first match in key order, whatever the pages |
| S3Runs.Find | storage/s3/s3.go:384-450 | with nothing failing: nil exactly when no object of the table has the field, else the first in key order, for every cut into pages |
| S3Clients.InterleavingsKeepKeys | storage/s3/s3.go:194-321 | in any interleaving of any number of clients every object lies under the key built from its own table and id |
| S3Clients.InsertIsItsSteps | storage/s3/s3.go:194-260 | on a reliable bucket an Insert of the adapter is the check and the upload of the model of many clients, one right after the other |
| S3Clients.UpdateIsItsSteps | storage/s3/s3.go:263-321 | so is an Update |
| S3Clients.DeleteIsItsSteps | storage/s3/s3.go:453-490 | and a deletion |
| S3Clients.FlagIsOfCheck | storage/s3/s3.go:203-221 | the created flag says whether the key was absent at the check |
| S3Clients.PresentAt | storage/s3/s3.go:234-249 | a key is there at a step exactly when the last step since an earlier one to touch it wrote it, or none did and it was there then |
| S3Clients.CreatedIsRight | storage/s3/s3.go:203-221 | at the upload the created flag is wrong exactly when the last step to touch the key since the check left it the other way |
| S3Clients.BothCreated | storage/s3/s3.go:203-221 | two Inserts of one key are both told they created it exactly when it was absent at the first check and no step in between wrote it last |
| S3Clients.LastWriteStays | storage/s3/s3.go:234-249 | the last step that touches a key decides what lies under it |
| S3Clients.UpdateBringsBack | storage/s3/s3.go:271-302 | an Update writes over a key that is gone by then exactly when the last step to touch it since the check deleted it |
| S3Clients.UpdateResurrects | storage/s3/s3.go:271-302 | a concrete interleaving in which an Update brings back a deleted object |
| S3Clients.BothCreate | storage/s3/s3.go:203-221 | a concrete interleaving in which two clients both report created |
| Schemas.TableSchema.AddField | schema/schema.go:70-82 | defines or redefines the field, lists its name again, and keeps the order and the map in agreement; a nameless field changes nothing |
| Schemas.SchemaMap.AddTable | schema/schema.go:47-54 | stores the table under its name; nil is ignored |
| Schemas.SchemaMap.GetTable | schema/schema.go:56-61 | a copy of the table, or a panic when there is none |
| Reflection.ProcessIndexes | schema/parser/infoschema/sqlite_adapter.go:227-238 | lists the indexes the user made in order, the unique ones twice, and nothing else changes |
| Reflection.KeptOne | schema/parser/infoschema/sqlite_adapter.go:227-238 | an index is listed unless its name starts with sqlite_autoindex_, or unique ones are asked for and it is not |
| Reflection.KeptOfParts | schema/parser/infoschema/sqlite_adapter.go:227-238 | a list of indexes keeps what its parts keep, in order |
| Reflection.UpdateColumnConstraints | schema/parser/infoschema/sqlite_adapter.go:259-278 | Unique is set exactly on columns already unique or alone in a unique index, Index exactly on columns already indexed or in some index, nothing else changes |
| Reflection.FlaggedTwice | schema/parser/infoschema/sqlite_adapter.go:259-278 | doing it twice is doing it once |
| Reflection.FlaggedInAnyOrder | schema/parser/infoschema/sqlite_adapter.go:259-278 | only the set of indexes matters, not their order |
| Reflection.ParseTable | schema/parser/infoschema/sqlite_adapter.go:60-83 | fields from the columns, then index names, then flags |
| Reflection.ParsedField | schema/parser/infoschema/sqlite_adapter.go:210-225 | a field is the last column of its name: all the database reports of it, the flags of the indexes that cover it, and auto-increment exactly for an INTEGER primary key |
| Reflection.ReflectsCreated | schema/parser/infoschema/sqlite_adapter.go:210-225 | reading a created table back recovers name, type, nullability and uniqueness of every column, whatever order it was declared in; the default gains quotes |
| Reflection.CreateThenReflect | schema/parser/infoschema/sqlite_adapter.go:60-83 | the same from CreateTables to the reflected schema, for every range order and index order |
| InfoSchema.Group | schema/parser/infoschema/parser.go:211-222 | each index with its columns in row order, and the unique flag exactly when some row sets it |
| InfoSchema.NamesInRows | schema/parser/infoschema/parser.go:211-222 | the indexes, and the unique ones, are exactly those some row speaks of, the primary key aside |
| InfoSchema.ColumnsOfOne | schema/parser/infoschema/parser.go:211-222 | the columns one row gives an index |
| InfoSchema.ColumnsOfParts | schema/parser/infoschema/parser.go:211-222 | the columns rows give in parts, in order |
| InfoSchema.ProcessIndexes | schema/parser/infoschema/parser.go:210-231 | each index but the primary key once, in some order, and the unique ones in the same order |
| InfoSchema.UniquesAre | schema/parser/infoschema/parser.go:224-231 | the unique keys are exactly the indexes some row calls unique |
| InfoSchema.UniquesOfParts | schema/parser/infoschema/parser.go:224-231 | the unique keys of indexes in parts, in order |
| LdapText.ParseAttributes | examples/ldapd/models.go:248-260 | the attributes of the words of the text, split at the first '=', words without one ignored |
| LdapText.ParseUndoesPrint | examples/ldapd/models.go:248-260 | parsing undoes printing for every list of pairs with solid keys and values; a repeated key keeps its last value |
| LdapText.ListingReadsBack | examples/ldapd/web.go:343-348 | any listing of a map reads back as that map |
| LdapText.WordIgnored | examples/ldapd/models.go:248-260 | a word without '=' adds no attribute |
| LdapText.ParentOfName | examples/ldapd/models.go:262-269 | the parent of a name is what comes after its first comma, or nothing |
| LdapText.SpaceCodes | examples/ldapd/models.go:252 | the code points that separate words |
| Directory.LDAPServer.AddEntry | examples/ldapd/models.go:82-128 | stores the entry, and a user record when the class is person or inetOrgPerson and a password is given |
| Directory.LDAPServer.DeleteEntry | examples/ldapd/models.go:130-150 | removes entry and user record, or nothing when there is no entry |
| Directory.LDAPServer.ModifyEntry | examples/ldapd/models.go:152-178 | writes an existing entry back as it was read, dates as they are printed, with the new attributes and update time; says whether it was there |
| Directory.LDAPServer.AuthenticateUser | examples/ldapd/models.go:216-244 | true exactly when the hash under the stored salt matches; then the user is written back as read, dates as they are printed, with the new login time, else nothing changes |
| Directory.LDAPServer.SetupInitialData | examples/ldapd/models.go:272-352 | base, administrator and two units on a fresh directory; nothing if the base entry is there; a panic, and nothing stored, if the base name has no '=' |
| Directory.LDAPServer.ProcessMessage | examples/ldapd/server.go:108-160 | splits, decodes and dispatches every message to the step of its command |
| Directory.MessageReads | examples/ldapd/server.go:108-160 | a message of a verb in any spelling of its letters, a name and words is the command of that verb with that name and those words |
| Directory.FreshDirectory | examples/ldapd/models.go:272-352 | the set-up leaves exactly the four entries with their classes, parents and attributes, and one user |
| Directory.Serve | examples/ldapd/server.go:69-160 | a fresh server, driven through any messages, answers each as the step of its command and is in the state of that history |
| Directory.UsersAreListed | examples/ldapd/models.go:82-150 | after any history on a fresh server every user record has a directory entry |
| Directory.EntriesFollowHistory | examples/ldapd/models.go:130-178 | after any history an entry is there exactly when it was at the start or an ADD put it there, with no successful DELETE since; DELETE and MODIFY report whether it was there |
| Directory.SearchFollowsHistory | examples/ldapd/models.go:46-80 | after any history a SEARCH of an entry, without a filter or with one that has objectClass in it, shows the attributes of its latest ADD, as JSON, or of its latest MODIFY, with the times as they are printed; any other filter finds nothing |
| Directory.AddedEntry | examples/ldapd/models.go:82-111 | the entry an ADD leaves: parent, class among the attributes or person, attributes as JSON, the time |
| Directory.BindFollowsHistory | examples/ldapd/server.go:162-179 | after any history a BIND is the administrator's exactly with the configured name and password, and anyone else's succeeds exactly when the password is the userPassword of the latest ADD of the entry that had one and no objectClass other than person and inetOrgPerson, with no successful DELETE since |
| Directory.OthersLeavePassword | examples/ldapd/models.go:113-178 | whatever is sent, every BIND of an entry answers as before until the entry is deleted or an ADD gives it a password: an ADD without one and a MODIFY of any attribute change nothing |
| Directory.CreationFollowsHistory | examples/ldapd/models.go:152-178 | after any history an entry is there since its latest ADD until a DELETE, with the time of that ADD, as it is printed if there was a MODIFY since; the time is unchanged exactly when there was none or it was given as it is printed |
| Wiki.AuthService.Register | examples/wiki/auth.go:22-48 | stores the account with the hashed password, removing any account of the same name or address, and answers with the id, name and address given; names stay unique |
| Wiki.RegistrationReplaces | examples/wiki/auth.go:22-48 | a registration is the engine's REPLACE on a table with unique names and addresses |
| Wiki.AuthService.Login | examples/wiki/auth.go:50-71 | a session for the account of that name exactly when the password checks |
| Wiki.AuthService.CreateSession | examples/wiki/auth.go:73-93 | a session that ends 24 hours after the second reading of the clock |
| Wiki.AuthService.ValidateSession | examples/wiki/auth.go:95-121 | the user of a session that is there and not past its end; a session past its end is removed |
| Wiki.AuthService.Logout | examples/wiki/auth.go:123-126 | removes the session |
| Wiki.Serve | examples/wiki/auth.go:22-126 | the service, driven through any history, answers each command as its step and is in the state of that history |
| Wiki.UsersFollowHistory | examples/wiki/auth.go:22-48 | an account is stored exactly when no later registration took its name or address |
| Wiki.LoginFollowsHistory | examples/wiki/auth.go:50-71 | after any history Login succeeds exactly with the name and password of a registration nobody has ousted, and yields the id, name and address given there |
| Wiki.SessionsFollowHistory | examples/wiki/auth.go:73-126 | a session is stored exactly when a login issued it and nothing has ended it since |
| Wiki.ValidateFollowsHistory | examples/wiki/auth.go:95-121 | after any history a session yields a user exactly when a login issued it to that user, it was not logged out, its end has not passed, and the account was not removed; the user has the id, name and address given at registration |
| Wiki.SessionLasts | examples/wiki/models.go:125-157 | a session not logged out, of a user not ousted, is valid for more than 24 hours less a second after its login and never for more than 24 hours |
| Wiki.ExpiredForever | examples/wiki/auth.go:101-105 | a session past its end is never valid again |
| Wiki.OustedUserIsLockedOut | examples/wiki/auth.go:107-113 | the sessions of an account removed by a later registration yield no user |

## Left out

- Sqlite.SQLiteStorage.FindByKey: not specified for a table that has all the columns of the schema but other types or constraints, nor for names that are no identifiers.
- Sqlite.CommonFindByKey: the same restriction.
- Sqlite.SQLiteStorage.FindByID: the same restriction.
- SqliteTx.FindByKeyTx: the same restriction.
- TiDb.FindByKey: the same restriction.
- Sqlite.SQLiteStorage.Insert: which row results is stated for tables on which the schema and the database agree.
- Sqlite.SQLiteStorage.Update: which row results is stated for such tables and field names that are plain identifiers.
- SqliteRuns.Drive: names that go into a statement unchecked (the fields of an Update, the table of a deletion) are plain identifiers.
- SqliteRuns.Session: the same restriction.
- SqliteRuns.PerformTx: the same restriction, and lookups are in tables whose column types the transaction lists (SqliteTx.FindByKeyTx covers the others).
- SqliteRuns.DriveTx: the same restrictions.
- Postgres.Update: two spellings of one column in a SET list, which PostgreSQL refuses, are taken as SQLite takes them.
- S3Store.S3Storage.FindByID: a document that is not an object, which only a table name with a slash could reach, is taken as one that cannot be decoded.
- Reflection.ReflectsCreated: comments, and the flags of a column that is auto-incremented or a second primary key, since SQLite refuses to create it.
- Directory.CreationFollowsHistory: assumes that a date printed again is the same.
- Wiki.ValidateFollowsHistory: assumes that random ids do not repeat, that the clock does not go back and that printed times read back.
- Wiki.LoginFollowsHistory: assumes that a password checks against its own hash and no other does.
- Directory.BindFollowsHistory: assumes that under one salt different passwords have different hashes.
- WriteBack.InsertWhatWasRead: assumes that encoding a string adds its quotes and that nil encodes as the text null.
- Names and types in statements are plain identifiers that are not among the reserved words of the grammar; quoting inside names and defaults is not modelled.
- A value that a database other than SQLite refuses because it does not fit its column: columns keep or convert every cell.
- Unicode case folding beyond the letters whose lower or upper form is an ASCII letter.
- Transactions as such (isolation, commit, rollback) and concurrent SQL clients: they are the database's.
- The CREATE TABLE texts and type maps of the adapters other than SQLite, their updates (but PostgreSQL's), deletions and transaction copies, and the finders of Oracle, SQL Server and PostgreSQL: the same forms with other quoting, or reads of nullable JSON that do not match the variables allocated.
- ScyllaDB (its operations lock against themselves), YugabyteDB and CockroachDB, and ORM.FindByID on S3, which searches for a field called id.
- Sharing of a schema's maps between GetTable and its callers, and locking.
- Connections, AWS and HTTP details, templates, logging, and the other example programs.
