/** The five upserts side by side: on a complete object that can only conflict by its id they leave
    the same row, in whatever orders they range over its fields, but for booleans in Oracle. */
module Upserts {
  import opened Outcomes
  import opened Text
  import opened Values
  import opened Sql
  import opened Statements
  import opened Engine
  import opened Ddl
  import opened Databases
  import opened Common
  import opened Scanner
  import opened DriverLaws
  import opened Creation
  import opened Effects
  import opened Sqlite
  import opened SqliteRuns
  import opened SqliteLaws
  import opened SqliteHistory
  import opened UpsertTexts
  import opened MergeTexts
  import opened UpsertEffects
  import Spellings
  import Oracle
  import Postgres
  import SqlServer
  import TiDb

  // ---------------------------------------------------------------- complete objects

  /** Every column but id is supplied, with a value the driver takes and no null where none is
      allowed. */
  ghost predicate Complete(info: TableInfo, driver: Driver, stored: map<string, Value>) {
    && stored.Keys == info.fields.Keys - {"id"} && stored != map[] && Bindable(stored)
    && forall n <- stored :: NotNull(info.fields[n], driver.keep(info.fields[n].dataType, BoundCell(stored[n])))
  }

  /** No row under another id shares a unique value with the new one. */
  ghost predicate NoOtherConflict(info: TableInfo, rows: Rows, id: string, row: Row) {
    forall k <- rows :: k != id ==> !SharesUnique(info, rows[k], row)
  }

  /** The table takes what is stored for the object, in place of the row under its id alone. */
  ghost predicate TakesRow(info: TableInfo, t: Table, driver: Driver, id: string, stored: map<string, Value>) {
    Complete(info, driver, stored) && NoOtherConflict(info, t.rows, id, KeptCells(t.cols, driver, stored))
  }

  lemma CompleteRow(info: TableInfo, cols: map<string, ColDef>, driver: Driver, stored: map<string, Value>)
    requires Mirrors(info, cols, driver) && Complete(info, driver, stored)
    ensures KeptCells(cols, driver, stored).Keys == cols.Keys && NotNullHolds(cols, KeptCells(cols, driver, stored))
  {
    hide IsIdent, ColumnMatches, BoundCell;
    assert FoldsApart(stored.Keys);
    forall c | c in cols && cols[c].notNull ensures KeptCells(cols, driver, stored)[c] != Null {
      var n := ColumnOf(info, cols, driver, c);
      CellMapAt(stored, n);
    }
  }

  lemma CompleteConflictsById(info: TableInfo, t: Table, driver: Driver, id: string, stored: map<string, Value>)
    requires Mirrors(info, t.cols, driver) && Healthy(t.cols, t.rows) && TakesRow(info, t, driver, id, stored)
    ensures WellShaped(t.cols, t.rows) && OnlyIdConflicts(t, id, KeptCells(t.cols, driver, stored))
  {
    hide Mirrors, NotNullHolds, KeptCells, Complete, SharesUnique, Clash, Healthy;
    HealthyIsShaped(t.cols, t.rows);
    CompleteRow(info, t.cols, driver, stored);
    EvictedAreBlockers(info, t, driver, id, KeptCells(t.cols, driver, stored));
  }

  /** The tables with the object's row stored. */
  ghost function WithRow(tables: Tables, table: string, id: string, row: Row): Tables
    requires table in tables
  {
    tables[table := tables[table].(rows := tables[table].rows[id := row])]
  }

  lemma OutcomesAgree(info: TableInfo, tables: Tables, driver: Driver, table: string, id: string,
                      stored: map<string, Value>)
    requires AllHealthy(tables) && table in tables && Mirrors(info, tables[table].cols, driver)
    requires TakesRow(info, tables[table], driver, id, stored)
    ensures var after := WithRow(tables, table, id, KeptCells(tables[table].cols, driver, stored));
            && ReplaceOutcome(tables, driver, table, id, stored) == (after, Some(1))
            && InsertOutcome(tables, driver, table, ReplaceInto, id, stored) == (after, Some(1))
            && ConflictOutcome(tables, driver, table, id, stored) == (after, Some(1))
            && MergeOutcome(tables, driver, table, id, stored) == (after, Some(1))
            && Oracle.RetryOutcome(tables, driver, table, id, stored) == (after, Ok(true))
  {
    var t := tables[table];
    assert Bindable(stored) && stored != map[];
    CompleteConflictsById(info, t, driver, id, stored);
    AllFormsAgree(t, id, KeptCells(t.cols, driver, stored));
    hide Mirrors, KeptCells, TakesRow, Healthy, ReplaceRow, InsertRow, RetryEffect, MergeEffect, ConflictEffect,
         OnlyIdConflicts, InsertEffect;
    ReplaceIsInsert(tables, driver, table, id, stored);
  }

  // ---------------------------------------------------------------- one object in five databases

  /** What an Insert of the object stores in a table, and what Oracle stores. */
  ghost function StoredOf(sch: Schema, marshal: Marshal, obj: Object): map<string, Value>
    requires obj.tableName in sch
  {
    InsertStored(marshal, sch[obj.tableName], obj.fields)
  }

  ghost function OracleStoredOf(sch: Schema, marshal: Marshal, obj: Object): map<string, Value>
    requires obj.tableName in sch
  {
    Oracle.OracleStored(sch[obj.tableName], StoredOf(sch, marshal, obj))
  }

  /** The tables with those fields stored as the object's row. */
  ghost function Storing(tables: Tables, driver: Driver, obj: Object, stored: map<string, Value>): Tables
    requires Lower(obj.tableName) in tables
  {
    WithRow(tables, Lower(obj.tableName), obj.id, KeptCells(tables[Lower(obj.tableName)].cols, driver, stored))
  }

  /** What the comparison asks of an object: known columns, all supplied, and no conflict but by id. */
  ghost predicate Comparable(sch: Schema, tables: Tables, driver: Driver, marshal: Marshal, obj: Object) {
    && AllHealthy(tables) && Installed(sch, tables, driver, obj.tableName)
    && Marshals(marshal, obj.fields) && ColumnsKnown(sch[obj.tableName], obj.fields)
    && var t := tables[Lower(obj.tableName)];
       && TakesRow(sch[obj.tableName], t, driver, obj.id, StoredOf(sch, marshal, obj))
       && TakesRow(sch[obj.tableName], t, driver, obj.id, OracleStoredOf(sch, marshal, obj))
  }

  lemma SpecsAgree(sch: Schema, tables: Tables, driver: Driver, marshal: Marshal, obj: Object)
    requires Comparable(sch, tables, driver, marshal, obj)
    ensures var table := Lower(obj.tableName); var stored := StoredOf(sch, marshal, obj);
            var after := Storing(tables, driver, obj, stored); var oracle := OracleStoredOf(sch, marshal, obj);
            && InsertSpec(sch, tables, driver, marshal, obj) == (after, Ok(true))
            && InsertOutcome(tables, driver, table, ReplaceInto, obj.id, stored) == (after, Some(1))
            && ConflictOutcome(tables, driver, table, obj.id, stored) == (after, Some(1))
            && MergeOutcome(tables, driver, table, obj.id, stored) == (after, Some(1))
            && Oracle.RetryOutcome(tables, driver, table, obj.id, oracle) ==
               (Storing(tables, driver, obj, oracle), Ok(true))
  {
    hide Mirrors, KeptCells, Healthy, TakesRow, ReplaceOutcome, InsertOutcome, ConflictOutcome, MergeOutcome,
         Oracle.RetryOutcome, InsertStored, Oracle.OracleStored, Marshals, ColumnsKnown, BuiltByAddField, WithRow;
    var info := sch[obj.tableName];
    OutcomesAgree(info, tables, driver, Lower(obj.tableName), obj.id, StoredOf(sch, marshal, obj));
    OutcomesAgree(info, tables, driver, Lower(obj.tableName), obj.id, OracleStoredOf(sch, marshal, obj));
  }

  predicate IsBoolean(info: TableInfo, n: string) {
    n in info.fields && Lower(info.fields[n].dataType) == "boolean"
  }

  /** The database tells no boolean of the object from the 0 or 1 Oracle stores for it. */
  ghost predicate BooleansAsNumbers(info: TableInfo, driver: Driver, fields: map<string, Value>) {
    forall n <- fields :: IsBoolean(info, n) && !IsId(n) && fields[n].Boolean? ==>
      driver.keep(info.fields[n].dataType, Logical(fields[n].b)) ==
      driver.keep(info.fields[n].dataType, Integer(if fields[n].b then 1 else 0))
  }

  lemma BooleanIsNoJson(f: ColumnData)
    requires Lower(f.dataType) == "boolean"
    ensures !IsJson(f)
  {
  }

  /** One column as Oracle stores it and as the others do. */
  lemma OracleCell(info: TableInfo, cols: map<string, ColDef>, driver: Driver, marshal: Marshal,
                   fields: map<string, Value>, n: string)
    requires Mirrors(info, cols, driver) && n in InsertStored(marshal, info, fields)
    ensures var stored := InsertStored(marshal, info, fields);
            && n in info.fields && n != "id" && Lower(n) in cols && n in fields && !IsId(n)
            && KeptCells(cols, driver, stored)[Lower(n)] == driver.keep(info.fields[n].dataType, BoundCell(stored[n]))
            && KeptCells(cols, driver, Oracle.OracleStored(info, stored))[Lower(n)] ==
                 driver.keep(info.fields[n].dataType, BoundCell(Oracle.Numbered(info.fields[n], stored[n])))
            && (Lower(info.fields[n].dataType) == "boolean" ==> stored[n] == fields[n])
  {
    hide IsIdent, IsId, IsJson, Oracle.Numbered, BoundCell;
    var stored := InsertStored(marshal, info, fields);
    assert stored.Keys <= info.fields.Keys;
    FewerFoldApart(info.fields.Keys, stored.Keys);
    if n == "id" { LowerId(); assert IsId("id") by { hide Lower; IdIsId(); } }
    assert ColumnMatches(cols, info.fields[n], driver);
    CellMapAt(stored, n);
    assert Oracle.OracleStored(info, stored).Keys == stored.Keys;
    CellMapAt(Oracle.OracleStored(info, stored), n);
    if Lower(info.fields[n].dataType) == "boolean" { BooleanIsNoJson(info.fields[n]); }
  }

  lemma IdIsId()
    ensures IsId("id")
  {
    LowerId();
  }

  /** Oracle's row is the others' exactly when the database tells no boolean of it from a number. */
  lemma OracleRowSame(info: TableInfo, cols: map<string, ColDef>, driver: Driver, marshal: Marshal,
                      fields: map<string, Value>)
    requires Mirrors(info, cols, driver) && Marshals(marshal, fields) && ColumnsKnown(info, fields)
    ensures var stored := InsertStored(marshal, info, fields);
            KeptCells(cols, driver, stored) == KeptCells(cols, driver, Oracle.OracleStored(info, stored)) <==>
            BooleansAsNumbers(info, driver, fields)
  {
    hide Mirrors, IsIdent, IsJson, KeptCells, IsId, InsertStored, Lower;
    var stored := InsertStored(marshal, info, fields);
    var oracle := Oracle.OracleStored(info, stored);
    assert oracle.Keys == stored.Keys;
    if BooleansAsNumbers(info, driver, fields) {
      forall c | c in FoldAll(stored.Keys) ensures KeptCells(cols, driver, stored)[c] ==
        KeptCells(cols, driver, oracle)[c]
      {
        var n := NameFor(stored.Keys, c);
        OracleCell(info, cols, driver, marshal, fields, n);
      }
    }
    if KeptCells(cols, driver, stored) == KeptCells(cols, driver, oracle) {
      AllStored(marshal, info, fields);
      forall n | n in fields && IsBoolean(info, n) && !IsId(n)
        && fields[n].Boolean?
        ensures driver.keep(info.fields[n].dataType, Logical(fields[n].b)) ==
                driver.keep(info.fields[n].dataType, Integer(if fields[n].b then 1 else 0))
      {
        assert n in stored.Keys;
        OracleCell(info, cols, driver, marshal, fields, n);
      }
    }
  }

  lemma SameRowSameTables(tables: Tables, table: string, id: string, a: Row, b: Row)
    requires table in tables
    ensures WithRow(tables, table, id, a) == WithRow(tables, table, id, b) <==> a == b
  {
    if WithRow(tables, table, id, a) == WithRow(tables, table, id, b) {
      assert WithRow(tables, table, id, a)[table].rows[id] == a && WithRow(tables, table, id, b)[table].rows[id] == b;
    }
  }

  /** The same object inserted through each of the five adapters, each over its own database with
      the same tables: all succeed, the first four end with the same tables, and Oracle with those
      that hold what it makes of booleans. */
  method InsertInAll(sqlite: SQLiteStorage, postgres: Database, tidb: Database, sqlserver: Database, oracle: Database,
                     sch: Schema, obj: Object)
    returns (ok: bool, ghost after: Tables)
    requires sqlite.Valid() && sqlite.db != null && sqlite.sch == Some(sch)
    requires sqlite.db != postgres && sqlite.db != tidb && sqlite.db != sqlserver && sqlite.db != oracle
    requires postgres != tidb && postgres != sqlserver && postgres != oracle
    requires tidb != sqlserver && tidb != oracle && sqlserver != oracle
    requires sqlite.db.tables == postgres.tables == tidb.tables == sqlserver.tables == oracle.tables
    requires sqlite.db.driver == postgres.driver && postgres.driver == tidb.driver
    requires tidb.driver == sqlserver.driver && sqlserver.driver == oracle.driver
    requires Comparable(sch, sqlite.db.tables, sqlite.db.driver, sqlite.marshal, obj)
    modifies sqlite.db, postgres, tidb, sqlserver, oracle
    ensures ok && Lower(obj.tableName) in old(sqlite.db.tables)
    ensures after == Storing(old(sqlite.db.tables), sqlite.db.driver, obj, StoredOf(sch, sqlite.marshal, obj))
    ensures sqlite.db.tables == after && postgres.tables == after && tidb.tables == after && sqlserver.tables == after
    ensures oracle.tables == Storing(old(sqlite.db.tables), sqlite.db.driver, obj,
                                     OracleStoredOf(sch, sqlite.marshal, obj))
  {
    ComparableIsThere(sch, sqlite.db.tables, sqlite.db.driver, sqlite.marshal, obj);
    hide *;
    after := Storing(sqlite.db.tables, sqlite.db.driver, obj, StoredOf(sch, sqlite.marshal, obj));
    var a := SqliteInserts(sqlite, sch, obj);
    var b := PostgresInserts(postgres, sch, sqlite.marshal, obj);
    var c := TiDbInserts(tidb, sch, sqlite.marshal, obj);
    var d := SqlServerInserts(sqlserver, sch, sqlite.marshal, obj);
    var e := OracleInserts(oracle, sch, sqlite.marshal, obj);
    ok := a == Ok(true) && b == Ok(true) && c == Ok(true) && d == Ok(true) && e == Ok(true);
  }

  lemma ComparableIsThere(sch: Schema, tables: Tables, driver: Driver, marshal: Marshal, obj: Object)
    requires Comparable(sch, tables, driver, marshal, obj)
    ensures obj.tableName in sch && Lower(obj.tableName) in tables
    ensures AllHealthy(tables) && Installed(sch, tables, driver, obj.tableName)
    ensures Marshals(marshal, obj.fields) && ColumnsKnown(sch[obj.tableName], obj.fields)
    ensures Refusal(true, Some(sch), marshal, obj) == None
    ensures StoredOf(sch, marshal, obj) == InsertStored(marshal, sch[obj.tableName], obj.fields)
    ensures OracleStoredOf(sch, marshal, obj) == Oracle.OracleStored(sch[obj.tableName], StoredOf(sch, marshal, obj))
  {
    hide Mirrors, BuiltByAddField, TakesRow;
  }

  method SqliteInserts(sqlite: SQLiteStorage, sch: Schema, obj: Object) returns (out: Outcome<bool>)
    requires sqlite.Valid() && sqlite.db != null && sqlite.sch == Some(sch)
    requires Comparable(sch, sqlite.db.tables, sqlite.db.driver, sqlite.marshal, obj)
    modifies sqlite.db
    ensures out == Ok(true) && Lower(obj.tableName) in old(sqlite.db.tables)
    ensures sqlite.db.tables == Storing(old(sqlite.db.tables), sqlite.db.driver, obj,
                                        StoredOf(sch, sqlite.marshal, obj))
  {
    ComparableIsThere(sch, sqlite.db.tables, sqlite.db.driver, sqlite.marshal, obj);
    SpecsAgree(sch, sqlite.db.tables, sqlite.db.driver, sqlite.marshal, obj);
    hide TakesRow, InsertSpec, Storing, StoredOf, OracleStoredOf, FirstFault, RangeOrder, AllHealthy,
         Installed, Marshals, ColumnsKnown, Covers, NonId, InsertStored, Lower;
    ghost var order;
    out, order := sqlite.Insert(obj);
  }

  method PostgresInserts(db: Database, sch: Schema, marshal: Marshal, obj: Object) returns (out: Outcome<bool>)
    requires Comparable(sch, db.tables, db.driver, marshal, obj)
    modifies db
    ensures out == Ok(true) && Lower(obj.tableName) in old(db.tables)
    ensures db.tables == Storing(old(db.tables), db.driver, obj, StoredOf(sch, marshal, obj))
  {
    ComparableIsThere(sch, db.tables, db.driver, marshal, obj);
    SpecsAgree(sch, db.tables, db.driver, marshal, obj);
    hide *;
    out := Postgres.Insert(db, Some(sch), marshal, obj);
  }

  method TiDbInserts(db: Database, sch: Schema, marshal: Marshal, obj: Object) returns (out: Outcome<bool>)
    requires Comparable(sch, db.tables, db.driver, marshal, obj)
    modifies db
    ensures out == Ok(true) && Lower(obj.tableName) in old(db.tables)
    ensures db.tables == Storing(old(db.tables), db.driver, obj, StoredOf(sch, marshal, obj))
  {
    ComparableIsThere(sch, db.tables, db.driver, marshal, obj);
    SpecsAgree(sch, db.tables, db.driver, marshal, obj);
    hide *;
    out := TiDb.Insert(db, Some(sch), marshal, obj);
  }

  method SqlServerInserts(db: Database, sch: Schema, marshal: Marshal, obj: Object) returns (out: Outcome<bool>)
    requires Comparable(sch, db.tables, db.driver, marshal, obj)
    modifies db
    ensures out == Ok(true) && Lower(obj.tableName) in old(db.tables)
    ensures db.tables == Storing(old(db.tables), db.driver, obj, StoredOf(sch, marshal, obj))
  {
    ComparableIsThere(sch, db.tables, db.driver, marshal, obj);
    SpecsAgree(sch, db.tables, db.driver, marshal, obj);
    hide *;
    out := SqlServer.Insert(db, Some(sch), marshal, obj);
  }

  method OracleInserts(db: Database, sch: Schema, marshal: Marshal, obj: Object) returns (out: Outcome<bool>)
    requires Comparable(sch, db.tables, db.driver, marshal, obj)
    modifies db
    ensures out == Ok(true) && Lower(obj.tableName) in old(db.tables)
    ensures db.tables == Storing(old(db.tables), db.driver, obj, OracleStoredOf(sch, marshal, obj))
  {
    ComparableIsThere(sch, db.tables, db.driver, marshal, obj);
    SpecsAgree(sch, db.tables, db.driver, marshal, obj);
    hide *;
    out := Oracle.Insert(db, Some(sch), marshal, obj);
  }

  /** Oracle's tables are the others' exactly when the database tells no boolean of the object from
      the number Oracle stores for it. */
  lemma OracleTablesSame(sch: Schema, tables: Tables, driver: Driver, marshal: Marshal, obj: Object)
    requires Comparable(sch, tables, driver, marshal, obj)
    ensures Lower(obj.tableName) in tables
    ensures Storing(tables, driver, obj, OracleStoredOf(sch, marshal, obj)) ==
            Storing(tables, driver, obj, StoredOf(sch, marshal, obj)) <==>
            BooleansAsNumbers(sch[obj.tableName], driver, obj.fields)
  {
    hide Mirrors, KeptCells, Healthy, TakesRow, InsertStored, Oracle.OracleStored, Marshals, ColumnsKnown,
         BuiltByAddField, WithRow, BooleansAsNumbers;
    var cols := tables[Lower(obj.tableName)].cols;
    OracleRowSame(sch[obj.tableName], cols, driver, marshal, obj.fields);
    SameRowSameTables(tables, Lower(obj.tableName), obj.id, KeptCells(cols, driver, OracleStoredOf(sch, marshal, obj)),
                      KeptCells(cols, driver, StoredOf(sch, marshal, obj)));
  }

  /** A database that keeps a boolean apart from the number Oracle stores for it. */
  ghost predicate TellsBooleans(driver: Driver) {
    forall t: string, b: bool {:trigger driver.keep(t, Logical(b))} ::
      Lower(t) == "boolean" ==> driver.keep(t, Logical(b)) != driver.keep(t, Integer(if b then 1 else 0))
  }

  ghost predicate NoBooleans(info: TableInfo, fields: map<string, Value>) {
    forall n <- fields :: IsBoolean(info, n) && !IsId(n) ==> !fields[n].Boolean?
  }

  /** On such a database Oracle's tables are the others' exactly when the object has no boolean. */
  lemma OraclePartsOnBooleans(sch: Schema, tables: Tables, driver: Driver, marshal: Marshal, obj: Object)
    requires Comparable(sch, tables, driver, marshal, obj) && TellsBooleans(driver)
    ensures Lower(obj.tableName) in tables
    ensures Storing(tables, driver, obj, OracleStoredOf(sch, marshal, obj)) ==
            Storing(tables, driver, obj, StoredOf(sch, marshal, obj)) <==>
            NoBooleans(sch[obj.tableName], obj.fields)
  {
    ComparableIsThere(sch, tables, driver, marshal, obj);
    hide Comparable, Storing, OracleStoredOf, StoredOf;
    OracleTablesSame(sch, tables, driver, marshal, obj);
    BooleansTold(sch[obj.tableName], driver, obj.fields);
  }

  lemma BooleansTold(info: TableInfo, driver: Driver, fields: map<string, Value>)
    requires TellsBooleans(driver)
    ensures BooleansAsNumbers(info, driver, fields) <==> NoBooleans(info, fields)
  {
    hide Lower, IsId;
    forall n | n in fields && IsBoolean(info, n) && fields[n].Boolean?
      ensures driver.keep(info.fields[n].dataType, Logical(fields[n].b)) !=
              driver.keep(info.fields[n].dataType, Integer(if fields[n].b then 1 else 0))
    {
    }
  }

  lemma BooleanIsNoText(t: string)
    requires Lower(t) == "boolean"
    ensures FamilyOf(t) != TextLike
  {
    assert LowerChar(t[0]) == Lower(t)[0] == 'b';
    assert Upper(t)[0] == 'B';
    forall i | 0 <= i < |TEXT_TYPES| ensures TEXT_TYPES[i] != Upper(t) {
      assert TEXT_TYPES[i][0] != 'B';
    }
  }

  lemma SomeDriverTells()
    ensures Lawful(PrintingDriver()) && TellsBooleans(PrintingDriver())
  {
    SomeDriverIsLawful();
    hide Lawful, Lower, FamilyOf;
    var d := PrintingDriver();
    forall t: string, b: bool | Lower(t) == "boolean"
      ensures d.keep(t, Logical(b)) != d.keep(t, Integer(if b then 1 else 0))
    {
      BooleanIsNoText(t);
    }
  }

  /** A table t with one boolean column a, and an object for it. */
  function BooleanSchema(): Schema {
    var id := ColumnData("id", "TEXT", false, None, false, false, false, true);
    var a := ColumnData("a", "boolean", false, None, false, false, false, false);
    map["t" := TableInfo("t", map["id" := id, "a" := a], ["id", "a"])]
  }

  function BooleanTables(): Tables {
    map["t" := Table("t", ["a"], map["a" := ColDef("a", "boolean", true, None, Null, false)], map[])]
  }

  const TRUE_OBJECT := Object("t", "1", map["a" := Boolean(true)])

  /** A lawful database and an object that all five adapters take, and that Oracle stores otherwise. */
  lemma OracleStoresNumbers(marshal: Marshal)
    requires marshal(Boolean(true)).Some?
    ensures Lawful(PrintingDriver()) && Lower("t") in BooleanTables()
    ensures Comparable(BooleanSchema(), BooleanTables(), PrintingDriver(), marshal, TRUE_OBJECT)
    ensures Storing(BooleanTables(), PrintingDriver(), TRUE_OBJECT,
                    OracleStoredOf(BooleanSchema(), marshal, TRUE_OBJECT)) !=
            Storing(BooleanTables(), PrintingDriver(), TRUE_OBJECT, StoredOf(BooleanSchema(), marshal, TRUE_OBJECT))
  {
    hide Lawful, Comparable, Storing, OracleStoredOf, StoredOf, PrintingDriver, TellsBooleans;
    SomeDriverTells();
    TrueIsComparable(PrintingDriver(), marshal);
    OraclePartsOnBooleans(BooleanSchema(), BooleanTables(), PrintingDriver(), marshal, TRUE_OBJECT);
    TrueIsBoolean();
  }

  lemma TrueIsBoolean()
    ensures !NoBooleans(BooleanSchema()["t"], TRUE_OBJECT.fields)
  {
    assert Lower("boolean") == "boolean";
    Spellings.LetterIsIdent("a");
    hide IsId, Lower;
    assert IsBoolean(BooleanSchema()["t"], "a");
  }

  lemma TrueIsComparable(driver: Driver, marshal: Marshal)
    requires marshal(Boolean(true)).Some? && Lawful(driver)
    ensures Lower("t") == "t" && Comparable(BooleanSchema(), BooleanTables(), driver, marshal, TRUE_OBJECT)
  {
    hide Lawful, Lower, IsIdent, IsId, Mirrors, BuiltByAddField, TakesRow, Healthy, InsertStored, Oracle.OracleStored,
         ColumnsKnown;
    Spellings.LetterIsIdent("t");
    TrueMirrors(driver);
    TrueStored(marshal);
    TakesOne(driver, Boolean(true));
    TakesOne(driver, Int(1));
  }

  lemma TrueMirrors(driver: Driver)
    ensures var info := BooleanSchema()["t"]; var t := BooleanTables()["t"];
            && BuiltByAddField(info) && Mirrors(info, t.cols, driver) && Healthy(t.cols, t.rows)
  {
    hide IsIdent, Lower;
    var info := BooleanSchema()["t"];
    Spellings.LetterIsIdent("a");
    Spellings.LetterIsIdent("t");
    IdIsIdent();
    LowerId();
    assert info.order[0] == "id" && info.order[1] == "a";
    assert info.fields.Keys - {"id"} == {"a"};
    assert BooleanTables()["t"].cols.Keys == FoldAll({"a"});
  }

  lemma TrueStored(marshal: Marshal)
    ensures var info := BooleanSchema()["t"]; var stored := map["a" := Boolean(true)];
            && ColumnsKnown(info, stored) && InsertStored(marshal, info, stored) == stored
            && Oracle.OracleStored(info, stored) == map["a" := Int(1)]
  {
    assert Lower("boolean") == "boolean";
    Spellings.LetterIsIdent("a");
    hide IsId, Lower;
  }

  lemma TakesOne(driver: Driver, v: Value)
    requires Lawful(driver) && (v == Boolean(true) || v == Int(1))
    ensures TakesRow(BooleanSchema()["t"], BooleanTables()["t"], driver, "1", map["a" := v])
  {
    KeepLaws(driver, "boolean", BoundCell(v));
    hide Lawful, KeptCells, SharesUnique, Lower;
    var stored := map["a" := v];
    assert BooleanSchema()["t"].fields.Keys - {"id"} == {"a"};
    assert stored.Keys == {"a"};
    assert "a" in stored;
    assert BoundCell(v) != Null;
    assert Complete(BooleanSchema()["t"], driver, stored);
  }

  // ---------------------------------------------------------------- where they part

  ghost predicate OnlyIds(obj: Object) {
    forall n <- obj.fields :: IsId(n)
  }

  lemma OnlyIdsStoreNothing(marshal: Marshal, info: TableInfo, obj: Object)
    requires Marshals(marshal, obj.fields) && ColumnsKnown(info, obj.fields)
    ensures InsertStored(marshal, info, obj.fields) == map[] <==> OnlyIds(obj)
  {
    hide IsId, InsertStored;
    AllStored(marshal, info, obj.fields);
    assert forall n <- obj.fields :: !IsId(n) ==> n in InsertStored(marshal, info, obj.fields).Keys;
    if OnlyIds(obj) { assert InsertStored(marshal, info, obj.fields).Keys == {}; }
  }

  lemma GivenKnown(info: TableInfo, cols: map<string, ColDef>, driver: Driver, marshal: Marshal,
                   fields: map<string, Value>)
    requires Mirrors(info, cols, driver)
    ensures KeptCells(cols, driver, InsertStored(marshal, info, fields)).Keys <= cols.Keys
  {
    hide IsIdent, ColumnMatches;
    forall c | c in FoldAll(InsertStored(marshal, info, fields).Keys) ensures c in cols {
      var n :| n in InsertStored(marshal, info, fields) && Lower(n) == c;
      IdIsId();
      assert n in info.fields.Keys - {"id"};
    }
  }

  /** When ON CONFLICT and MERGE fail. */
  ghost predicate UpsertFails(info: TableInfo, t: Table, driver: Driver, marshal: Marshal, obj: Object, conflict: bool)
    requires WellShaped(t.cols, t.rows) && Mirrors(info, t.cols, driver)
  {
    var stored := InsertStored(marshal, info, obj.fields);
    var given := KeptCells(t.cols, driver, stored);
    GivenKnown(info, t.cols, driver, marshal, obj.fields);
    MergedEffect(t, obj.id, given);
    || OnlyIds(obj) || !Bindable(stored)
    || !Storable(t, obj.id, Merged(t, obj.id, given))
    || (conflict && !NotNullHolds(t.cols, Fill(t.cols, given, false)))
  }

  /** The texts of PostgreSQL and SQL Server, in any range order, fail and leave the tables as they
      were exactly when every field of the object is a spelling of id, or the driver refuses a
      value, or the row would break a constraint; ON CONFLICT also asks that the row could have
      been inserted. */
  lemma UpsertTextsFail(sch: Schema, tables: Tables, driver: Driver, marshal: Marshal, obj: Object, order: seq<string>)
    requires AllHealthy(tables) && Installed(sch, tables, driver, obj.tableName) && RangeOrder(order, obj.fields.Keys)
    requires Marshals(marshal, obj.fields) && ColumnsKnown(sch[obj.tableName], obj.fields)
    ensures var info := sch[obj.tableName]; var t := tables[Lower(obj.tableName)]; var names := NonId(order);
            && WellShaped(t.cols, t.rows) && Fits(marshal, info, obj.fields, names)
            && var values := [Str(obj.id)] + Stored(marshal, info, obj.fields, names);
               var conflict := RunText(tables, driver,
                                       ConflictText(info.name, ["id"] + names, Placeholders(DOLLAR, 1, |names| + 1),
                                                                    SetClauses(Bares(names), DOLLAR, 2)), values);
               var merge := RunText(tables, driver, MergeQuery(info.name, names), values);
               && (conflict.1 == None <==> UpsertFails(info, t, driver, marshal, obj, true))
               && (merge.1 == None <==> UpsertFails(info, t, driver, marshal, obj, false))
               && (conflict.1 == None ==> conflict.0 == tables) && (merge.1 == None ==> merge.0 == tables)
  {
    hide RunText, ConflictText, MergeQuery, Healthy, Carries, Stored, InsertStored, OnlyIds, BuiltByAddField, Mirrors,
         RangeOrder, ConflictOutcome, MergeOutcome, UpsertFails, IsIdent, Marshals, ColumnsKnown, NonId;
    var info, t, names := sch[obj.tableName], tables[Lower(obj.tableName)], NonId(order);
    TableIsNamed(info, t, driver);
    HealthyIsShaped(t.cols, t.rows);
    InsertCarries(info, t, driver, marshal, obj.fields, order);
    var values, stored := Stored(marshal, info, obj.fields, names), InsertStored(marshal, info, obj.fields);
    ConflictTextRuns(tables, driver, info.name, obj.id, names, values, stored);
    MergeTextRuns(tables, driver, info.name, obj.id, names, values, stored);
    OutcomesFail(info, tables, driver, marshal, obj);
  }

  lemma TableIsNamed(info: TableInfo, t: Table, driver: Driver)
    requires Mirrors(info, t.cols, driver)
    ensures IsIdent(info.name)
  {
  }

  lemma OutcomesFail(info: TableInfo, tables: Tables, driver: Driver, marshal: Marshal, obj: Object)
    requires AllHealthy(tables) && Lower(info.name) in tables && Mirrors(info, tables[Lower(info.name)].cols, driver)
    requires Marshals(marshal, obj.fields) && ColumnsKnown(info, obj.fields)
    ensures var t := tables[Lower(info.name)]; var stored := InsertStored(marshal, info, obj.fields);
            var conflict := ConflictOutcome(tables, driver, Lower(info.name), obj.id, stored);
            var merge := MergeOutcome(tables, driver, Lower(info.name), obj.id, stored);
            && WellShaped(t.cols, t.rows)
            && (conflict.1 == None <==> UpsertFails(info, t, driver, marshal, obj, true))
            && (merge.1 == None <==> UpsertFails(info, t, driver, marshal, obj, false))
            && (conflict.1 == None ==> conflict.0 == tables) && (merge.1 == None ==> merge.0 == tables)
  {
    hide Healthy, Mirrors, InsertStored, OnlyIds, KeptCells, Marshals, ColumnsKnown, Bindable, Lower;
    var t := tables[Lower(info.name)];
    var given := KeptCells(t.cols, driver, InsertStored(marshal, info, obj.fields));
    HealthyIsShaped(t.cols, t.rows);
    OnlyIdsStoreNothing(marshal, info, obj);
    GivenKnown(info, t.cols, driver, marshal, obj.fields);
    MergedEffect(t, obj.id, given);
    ConflictBlocked(t, obj.id, given);
    hide MergeEffect, ConflictEffect, NotNullHolds, Merged, Fill, Storable;
  }

  lemma ConflictBlocked(t: Table, id: string, given: map<string, Cell>)
    requires WellShaped(t.cols, t.rows) && given.Keys <= t.cols.Keys
    ensures Merged(t, id, given).Keys == t.cols.Keys
    ensures ConflictEffect(t, id, given).Done? <==>
              Storable(t, id, Merged(t, id, given)) && NotNullHolds(t.cols, Fill(t.cols, given, false))
  {
    BlockersHave(t, id, Merged(t, id, given));
    hide Blockers, NotNullHolds, Fill;
  }

  /** One object through REPLACE (of SQLite or TiDB), MERGE and ON CONFLICT over the same tables: the
      tables and the reply are the same exactly when a value cannot be bound, or, with nothing but
      spellings of id, REPLACE refuses too, or else when the three leave the same row. */
  lemma ReplacingAdaptersAgree(sch: Schema, tables: Tables, driver: Driver, marshal: Marshal, obj: Object, verb: Verb)
    requires AllHealthy(tables) && Installed(sch, tables, driver, obj.tableName) && verb != InsertInto
    requires Marshals(marshal, obj.fields) && ColumnsKnown(sch[obj.tableName], obj.fields)
    ensures var t := tables[Lower(obj.tableName)]; var stored := InsertStored(marshal, sch[obj.tableName], obj.fields);
            var given := KeptCells(t.cols, driver, stored);
            var replaced := InsertOutcome(tables, driver, Lower(obj.tableName), verb, obj.id, stored);
            && WellShaped(t.cols, t.rows) && Merged(t, obj.id, given).Keys == t.cols.Keys
            && (replaced == MergeOutcome(tables, driver, Lower(obj.tableName), obj.id, stored) <==>
                || !Bindable(stored)
                || (if OnlyIds(obj) then !NotNullHolds(t.cols, Fill(t.cols, given, verb == InsertOrReplace))
                    else ReplaceIsMerge(t, verb, obj.id, given)))
            && (replaced == ConflictOutcome(tables, driver, Lower(obj.tableName), obj.id, stored) <==>
                || !Bindable(stored)
                || (if OnlyIds(obj) then !NotNullHolds(t.cols, Fill(t.cols, given, verb == InsertOrReplace))
                    else ReplaceIsConflict(t, verb, obj.id, given)))
  {
    hide Healthy, Mirrors, BuiltByAddField, InsertStored, OnlyIds, KeptCells, Marshals, ColumnsKnown, Bindable, Lower,
         InsertEffect, MergeEffect, ConflictEffect, NotNullHolds, Merged, Fill, ReplaceIsMerge, ReplaceIsConflict;
    var info, table := sch[obj.tableName], Lower(obj.tableName);
    var t, given := tables[table], KeptCells(tables[table].cols, driver, InsertStored(marshal, info, obj.fields));
    HealthyIsShaped(t.cols, t.rows);
    OnlyIdsStoreNothing(marshal, info, obj);
    GivenKnown(info, t.cols, driver, marshal, obj.fields);
    ReplaceAgreesWithUpdate(t, verb, obj.id, given);
    OneRowEach(t, verb, obj.id, given);
    SameEffectSameTables(tables, table, InsertEffect(t, verb, obj.id, given), MergeEffect(t, obj.id, given));
    SameEffectSameTables(tables, table, InsertEffect(t, verb, obj.id, given), ConflictEffect(t, obj.id, given));
  }

  /** What an effect leaves in the tables, and the count it reports. */
  ghost function Leaves(tables: Tables, table: string, e: Effect): (Tables, Option<nat>)
    requires table in tables
  {
    match e
    case Refused(_) => (tables, None)
    case Done(rows, n) => (tables[table := tables[table].(rows := rows)], Some(n))
  }

  lemma OneRowEach(t: Table, verb: Verb, id: string, given: map<string, Cell>)
    requires WellShaped(t.cols, t.rows) && given.Keys <= t.cols.Keys && verb != InsertInto
    ensures InsertEffect(t, verb, id, given).Refused? <==>
            !NotNullHolds(t.cols, Fill(t.cols, given, verb == InsertOrReplace))
    ensures forall e <- [InsertEffect(t, verb, id, given), MergeEffect(t, id, given), ConflictEffect(t, id, given)] ::
              e.Done? ==> e.affected == 1
  {
    MergedEffect(t, id, given);
    ReplacedEffect(t, verb, id, given);
    ConflictByMerge(t, id, given);
    hide NotNullHolds, Fill, Blockers, MergeEffect, ConflictEffect, InsertEffect;
  }

  lemma SameEffectSameTables(tables: Tables, table: string, a: Effect, b: Effect)
    requires table in tables && (a.Done? ==> a.affected == 1) && (b.Done? ==> b.affected == 1)
    ensures Leaves(tables, table, a) == Leaves(tables, table, b) <==> Seen(a) == Seen(b)
  {
    if a.Done? && b.Done? && Leaves(tables, table, a) == Leaves(tables, table, b) {
      assert Leaves(tables, table, a).0[table].rows == Leaves(tables, table, b).0[table].rows;
    }
  }

  /** So PostgreSQL and SQL Server always refuse an object all of whose fields are spellings of id,
      whether or not its row is there. */
  method InsertOnlyAnId(postgres: Database, sqlserver: Database, sch: Schema, marshal: Marshal, obj: Object)
    returns (a: Outcome<bool>, b: Outcome<bool>)
    requires postgres != sqlserver && AllHealthy(postgres.tables) && AllHealthy(sqlserver.tables)
    requires Installed(sch, postgres.tables, postgres.driver, obj.tableName)
    requires Installed(sch, sqlserver.tables, sqlserver.driver, obj.tableName)
    requires Marshals(marshal, obj.fields) && OnlyIds(obj)
    modifies postgres, sqlserver
    ensures a == b == Err(Storage)
    ensures postgres.tables == old(postgres.tables) && sqlserver.tables == old(sqlserver.tables)
  {
    hide Mirrors, BuiltByAddField, ConflictOutcome, MergeOutcome, Healthy, InsertStored, UpsertFails;
    assert ColumnsKnown(sch[obj.tableName], obj.fields);
    OutcomesFail(sch[obj.tableName], postgres.tables, postgres.driver, marshal, obj);
    OutcomesFail(sch[obj.tableName], sqlserver.tables, sqlserver.driver, marshal, obj);
    IdsFail(sch[obj.tableName], postgres.tables[Lower(obj.tableName)], postgres.driver, marshal, obj);
    IdsFail(sch[obj.tableName], sqlserver.tables[Lower(obj.tableName)], sqlserver.driver, marshal, obj);
    a := Postgres.Insert(postgres, Some(sch), marshal, obj);
    b := SqlServer.Insert(sqlserver, Some(sch), marshal, obj);
  }

  lemma IdsFail(info: TableInfo, t: Table, driver: Driver, marshal: Marshal, obj: Object)
    requires WellShaped(t.cols, t.rows) && Mirrors(info, t.cols, driver) && OnlyIds(obj)
    ensures UpsertFails(info, t, driver, marshal, obj, true) && UpsertFails(info, t, driver, marshal, obj, false)
  {
    hide Mirrors, Merged, Storable, NotNullHolds, KeptCells, InsertStored;
  }

  /** With the id absent, Oracle's Insert reports success and stores nothing exactly when another
      row holds one of the new row's unique values. */
  lemma OracleStoresNothing(tables: Tables, driver: Driver, table: string, id: string, stored: map<string, Value>)
    requires AllHealthy(tables) && table in tables && stored != map[] && Bindable(stored)
    requires id !in tables[table].rows && KeptCells(tables[table].cols, driver, stored).Keys <= tables[table].cols.Keys
    requires NotNullHolds(tables[table].cols, Fill(tables[table].cols, KeptCells(tables[table].cols, driver, stored),
                                                   false))
    ensures WellShaped(tables[table].cols, tables[table].rows)
    ensures var t := tables[table];
            (Oracle.RetryOutcome(tables, driver, table, id, stored) == (tables, Ok(true)) <==>
             Blockers(t.cols, t.rows, id, Fill(t.cols, KeptCells(t.cols, driver, stored), false)) != {})
  {
    var t := tables[table];
    HealthyIsShaped(t.cols, t.rows);
    hide Healthy, KeptCells, Bindable, Fill, NotNullHolds, Blockers;
    assert tables[table := t.(rows := t.rows)] == tables;
    var row := Fill(t.cols, KeptCells(t.cols, driver, stored), false);
    if Blockers(t.cols, t.rows, id, row) == {} {
      assert tables[table := t.(rows := t.rows[id := row])][table].rows != t.rows;
    }
  }
}
