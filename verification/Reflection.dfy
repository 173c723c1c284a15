/** schema/parser/infoschema: a SQLite table read back into a table schema. */
module Reflection {
  import opened Outcomes
  import opened Text
  import opened Values
  import opened Engine
  import opened Ddl
  import opened Scanner
  import opened Effects
  import opened Creation
  import opened Schemas
  import opened Databases
  import opened Sqlite

  datatype SQLiteColumn = SQLiteColumn(name: string, typ: string, notNull: bool, defaultValue: Option<string>,
                                       primaryKey: bool)

  datatype SQLiteIndex = SQLiteIndex(name: string, unique: bool, columns: seq<string>)

  // ---------------------------------------------------------------- columns

  function ConvertColumn(column: SQLiteColumn): ColumnData {
    ColumnData(column.name, column.typ, !column.notNull, column.defaultValue, false, false,
               column.primaryKey && Upper(column.typ) == "INTEGER", column.primaryKey)
  }

  // ---------------------------------------------------------------- indexes

  const AUTO_PREFIX := "sqlite_autoindex_"

  /** The names kept of a list of indexes: those the user made, perhaps only the unique ones. */
  function KeptNames(indexes: seq<SQLiteIndex>, onlyUnique: bool): seq<string> {
    if indexes == [] then []
    else
      var k := |indexes| - 1;
      var kept := !(AUTO_PREFIX <= indexes[k].name) && (onlyUnique ==> indexes[k].unique);
      KeptNames(indexes[..k], onlyUnique) + (if kept then [indexes[k].name] else [])
  }

  lemma KeptStep(indexes: seq<SQLiteIndex>, k: nat, onlyUnique: bool)
    requires k < |indexes|
    ensures KeptNames(indexes[..k + 1], onlyUnique) ==
            KeptNames(indexes[..k], onlyUnique) +
            (if !(AUTO_PREFIX <= indexes[k].name) && (onlyUnique ==> indexes[k].unique) then [indexes[k].name] else [])
  {
    assert indexes[..k + 1][..k] == indexes[..k];
  }

  /** Of one index the name is kept unless the database made it, or unique ones are asked for and it is
      not; of a list, those of its parts in order. */
  lemma KeptOne(index: SQLiteIndex, onlyUnique: bool)
    ensures KeptNames([], onlyUnique) == []
    ensures KeptNames([index], onlyUnique) ==
            if "sqlite_autoindex_" <= index.name || (onlyUnique && !index.unique) then [] else [index.name]
  {
    assert [index][..0] == [];
  }

  lemma {:induction false} KeptOfParts(a: seq<SQLiteIndex>, b: seq<SQLiteIndex>, onlyUnique: bool)
    ensures KeptNames(a + b, onlyUnique) == KeptNames(a, onlyUnique) + KeptNames(b, onlyUnique)
  {
    if b == [] {
      assert a + b == a;
    } else {
      var k := |b| - 1;
      assert (a + b)[..|a| + k] == a + b[..k];
      KeptOfParts(a, b[..k], onlyUnique);
    }
  }

  method ProcessIndexes(table: TableSchema, indexes: seq<SQLiteIndex>)
    modifies table
    ensures table.Info() == old(table.Info()) && table.primaryKey == old(table.primaryKey)
    ensures table.autoIncrementFields == old(table.autoIncrementFields)
    ensures table.indexes == old(table.indexes) + KeptNames(indexes, false)
    ensures table.uniqueKeys == old(table.uniqueKeys) + KeptNames(indexes, true)
  {
    for k := 0 to |indexes|
      invariant table.Info() == old(table.Info()) && table.primaryKey == old(table.primaryKey)
      invariant table.autoIncrementFields == old(table.autoIncrementFields)
      invariant table.indexes == old(table.indexes) + KeptNames(indexes[..k], false)
      invariant table.uniqueKeys == old(table.uniqueKeys) + KeptNames(indexes[..k], true)
    {
      var index := indexes[k];
      KeptStep(indexes, k, false);
      KeptStep(indexes, k, true);
      if AUTO_PREFIX <= index.name {
        continue;
      }
      table.indexes := table.indexes + [index.name];
      if index.unique {
        table.uniqueKeys := table.uniqueKeys + [index.name];
      }
    }
    assert indexes[..|indexes|] == indexes;
  }

  // ---------------------------------------------------------------- column flags

  /** Some unique index covers this column alone. */
  predicate SoleUnique(indexes: seq<SQLiteIndex>, n: string) {
    exists i :: 0 <= i < |indexes| && indexes[i].unique && indexes[i].columns == [n]
  }

  predicate Covered(indexes: seq<SQLiteIndex>, n: string) {
    exists i :: 0 <= i < |indexes| && n in indexes[i].columns
  }

  /** The flags the indexes call for: set where an index says so, never cleared. */
  function Flagged(fields: map<string, ColumnData>, indexes: seq<SQLiteIndex>): map<string, ColumnData> {
    map n | n in fields ::
      fields[n].(unique := fields[n].unique || SoleUnique(indexes, n), index := fields[n].index || Covered(indexes, n))
  }

  function FlagOne(fields: map<string, ColumnData>, index: SQLiteIndex): map<string, ColumnData> {
    map n | n in fields ::
      fields[n].(unique := fields[n].unique || (index.unique && index.columns == [n]), index := fields[n].index
                 || n in index.columns)
  }

  lemma FlaggedStep(fields: map<string, ColumnData>, indexes: seq<SQLiteIndex>, k: nat)
    requires k < |indexes|
    ensures Flagged(fields, indexes[..k + 1]) == FlagOne(Flagged(fields, indexes[..k]), indexes[k])
  {
    var all := indexes[..k + 1];
    forall n | n in fields
      ensures SoleUnique(all, n) <==> SoleUnique(indexes[..k], n) || (indexes[k].unique && indexes[k].columns == [n])
      ensures Covered(all, n) <==> Covered(indexes[..k], n) || n in indexes[k].columns
    {
      assert all[k] == indexes[k] && forall i :: 0 <= i < k ==> all[i] == indexes[..k][i];
    }
  }

  /** Index columns seen so far get the index flag. */
  function FlagColumns(fields: map<string, ColumnData>, columns: seq<string>): map<string, ColumnData> {
    map n | n in fields :: fields[n].(index := fields[n].index || n in columns)
  }

  /** Sets the flags of the columns the indexes cover, one index at a time. */
  method UpdateColumnConstraints(table: TableSchema, indexes: seq<SQLiteIndex>)
    modifies table`fields
    ensures table.fields == Flagged(old(table.fields), indexes)
  {
    NoFlags(table.fields);
    for k := 0 to |indexes|
      invariant table.fields == Flagged(old(table.fields), indexes[..k])
    {
      var index := indexes[k];
      ghost var before := table.fields;
      FlaggedStep(old(table.fields), indexes, k);
      if index.unique && |index.columns| == 1 {
        var columnName := index.columns[0];
        if columnName in table.fields {
          table.fields := table.fields[columnName := table.fields[columnName].(unique := true, index := true)];
        }
      }
      ghost var middle := table.fields;
      if |index.columns| >= 1 {
        NoColumns(middle);
        for i := 0 to |index.columns|
          invariant table.fields == FlagColumns(middle, index.columns[..i])
        {
          var columnName := index.columns[i];
          OneColumn(middle, index.columns, i);
          if columnName in table.fields {
            table.fields := table.fields[columnName := table.fields[columnName].(index := true)];
          }
        }
        assert index.columns[..|index.columns|] == index.columns;
      }
      BothFlags(before, middle, index, table.fields);
    }
    assert indexes[..|indexes|] == indexes;
  }

  lemma NoFlags(fields: map<string, ColumnData>)
    ensures Flagged(fields, []) == fields
  {
  }

  lemma NoColumns(fields: map<string, ColumnData>)
    ensures FlagColumns(fields, []) == fields
  {
  }

  lemma OneColumn(fields: map<string, ColumnData>, columns: seq<string>, i: nat)
    requires i < |columns|
    ensures var done, c := FlagColumns(fields, columns[..i]), columns[i];
            FlagColumns(fields, columns[..i + 1]) == if c in fields then done[c := done[c].(index := true)] else done
  {
    assert columns[..i + 1] == columns[..i] + [columns[i]];
  }

  lemma BothFlags(before: map<string, ColumnData>, middle: map<string, ColumnData>, index: SQLiteIndex,
                  after: map<string, ColumnData>)
    requires middle == if index.unique && |index.columns| == 1 && index.columns[0] in before
                       then before[index.columns[0] := before[index.columns[0]].(unique := true, index := true)]
                         else before
    requires after == if |index.columns| >= 1 then FlagColumns(middle, index.columns) else middle
    ensures after == FlagOne(before, index)
  {
    forall n | n in before ensures index.columns == [n] <==> |index.columns| == 1 && index.columns[0] == n {
    }
  }

  /** Doing it again changes nothing more. */
  lemma FlaggedTwice(fields: map<string, ColumnData>, indexes: seq<SQLiteIndex>)
    ensures Flagged(Flagged(fields, indexes), indexes) == Flagged(fields, indexes)
  {
    hide SoleUnique, Covered;
  }

  /** Only the set of indexes matters, not their order or repetition. */
  lemma FlaggedInAnyOrder(fields: map<string, ColumnData>, a: seq<SQLiteIndex>, b: seq<SQLiteIndex>)
    requires forall x :: x in a <==> x in b
    ensures Flagged(fields, a) == Flagged(fields, b)
  {
    forall n | n in fields ensures (SoleUnique(a, n) <==> SoleUnique(b, n)) && (Covered(a, n) <==> Covered(b, n)) {
      SameMembers(a, b, n);
      SameMembers(b, a, n);
    }
  }

  lemma SameMembers(a: seq<SQLiteIndex>, b: seq<SQLiteIndex>, n: string)
    requires forall x :: x in a ==> x in b
    ensures SoleUnique(a, n) ==> SoleUnique(b, n)
    ensures Covered(a, n) ==> Covered(b, n)
  {
    if SoleUnique(a, n) {
      var i :| 0 <= i < |a| && a[i].unique && a[i].columns == [n];
      assert a[i] in b;
      var j :| 0 <= j < |b| && b[j] == a[i];
    }
    if Covered(a, n) {
      var i :| 0 <= i < |a| && n in a[i].columns;
      assert a[i] in b;
      var j :| 0 <= j < |b| && b[j] == a[i];
    }
  }

  // ---------------------------------------------------------------- the whole table

  /** The fields of columns with names of their own. */
  function Converted(columns: seq<SQLiteColumn>): (m: map<string, ColumnData>) {
    if columns == [] then map[]
    else
      var k := |columns| - 1;
      if columns[k].name == "" then Converted(columns[..k])
        else Converted(columns[..k])[columns[k].name := ConvertColumn(columns[k])]
  }

  /** Reads a table back: a field for each column, then the indexes, then the flags. */
  method ParseTable(tableName: string, columns: seq<SQLiteColumn>, indexes: seq<SQLiteIndex>)
    returns (table: TableSchema)
    ensures fresh(table) && table.tableName == tableName
    ensures table.fields == Flagged(Converted(columns), indexes)
    ensures table.indexes == KeptNames(indexes, false) && table.uniqueKeys == KeptNames(indexes, true)
    ensures table.Valid()
  {
    table := new TableSchema(tableName);
    for k := 0 to |columns|
      invariant fresh(table) && table.Valid() && table.tableName == tableName
      invariant table.fields == Converted(columns[..k])
      invariant table.indexes == [] && table.uniqueKeys == []
    {
      assert columns[..k + 1][..k] == columns[..k];
      var columnData := ConvertColumn(columns[k]);
      table.AddField(columnData);
    }
    assert columns[..|columns|] == columns;
    ProcessIndexes(table, indexes);
    UpdateColumnConstraints(table, indexes);
  }

  /** The field of a column, the last of its name: everything the database reports of it, the flags
      of the indexes that cover it, and auto-increment exactly for an INTEGER primary key. */
  lemma ParsedField(columns: seq<SQLiteColumn>, indexes: seq<SQLiteIndex>, i: nat)
    requires i < |columns| && columns[i].name != ""
    requires forall j :: i < j < |columns| ==> columns[j].name != columns[i].name
    ensures var fields, c := Flagged(Converted(columns), indexes), columns[i];
            && c.name in fields
            && var f := fields[c.name];
               && f.name == c.name && f.dataType == c.typ && f.nullable == !c.notNull && f.dflt == c.defaultValue
               && f.primaryKey == c.primaryKey && f.autoIncrement == (c.primaryKey && Upper(c.typ) == "INTEGER")
               && (f.unique <==> exists x <- indexes :: x.unique && x.columns == [c.name])
               && (f.index <==> exists x <- indexes :: c.name in x.columns)
  {
    LastOfName(columns, i);
    hide Converted;
    var n := columns[i].name;
    assert SoleUnique(indexes, n) <==> exists x <- indexes :: x.unique && x.columns == [n];
    assert Covered(indexes, n) <==> exists x <- indexes :: n in x.columns;
  }

  lemma {:induction false} LastOfName(columns: seq<SQLiteColumn>, i: nat)
    requires i < |columns| && columns[i].name != ""
    requires forall j :: i < j < |columns| ==> columns[j].name != columns[i].name
    ensures columns[i].name in Converted(columns) && Converted(columns)[columns[i].name] == ConvertColumn(columns[i])
  {
    if i < |columns| - 1 {
      LastOfName(columns[..|columns| - 1], i);
    }
  }

  // ---------------------------------------------------------------- what the database says

  const ID_INFO := SQLiteColumn("id", "TEXT", false, None, true)

  function ColumnInfo(c: ColDef): SQLiteColumn {
    SQLiteColumn(c.name, c.dataType, c.notNull, if c.literal.Some? then Some("'" + c.literal.value + "'") else None,
                 false)
  }

  /** PRAGMA table_info: the columns in order of declaration, the id first; a default comes back
      with its quotes. */
  function TableInfoRows(t: Table): (rows: seq<SQLiteColumn>)
    requires InOrder(t)
    ensures |rows| == |t.order| + 1 && rows[0] == ID_INFO
    ensures forall i :: 0 <= i < |t.order| ==> rows[i + 1] == ColumnInfo(t.cols[t.order[i]])
  {
    [ID_INFO] + seq(|t.order|, i requires 0 <= i < |t.order| => ColumnInfo(t.cols[t.order[i]]))
  }

  /** PRAGMA index_list and index_info: one automatic unique index for the key and one for each
      UNIQUE column, in any order. */
  ghost predicate IndexRows(t: Table, indexes: seq<SQLiteIndex>) {
    && (forall x <- indexes :: AUTO_PREFIX <= x.name && x.unique && |x.columns| == 1 && HasIndex(t, x.columns[0]))
    && forall n: string :: HasIndex(t, n) ==> exists x :: x in indexes && x.columns == [n]
  }

  ghost predicate HasIndex(t: Table, n: string) {
    n == "id" || exists c <- t.cols :: t.cols[c].unique && t.cols[c].name == n
  }

  /** A table just created from a schema: columns as declared, in some order. */
  ghost predicate Declares(info: TableInfo, t: Table) {
    && InOrder(t) && "id" !in t.cols
    && t.cols.Keys == FoldAll(info.fields.Keys - {"id"})
    && FoldsApart(info.fields.Keys)
    && forall n <- info.fields :: n != "id" ==> DeclaredAs(t.cols, info.fields[n], n)
  }

  /** What reflection makes of a field: the name, the type and the two constraints come back, the
      default with its quotes. */
  function Reflected(f: ColumnData): ColumnData {
    ColumnData(f.name, f.dataType, f.nullable, if f.dflt.Some? then Some("'" + f.dflt.value + "'") else None, f.unique,
               f.unique, false, false)
  }

  const REFLECTED_ID := ColumnData("id", "TEXT", true, None, true, true, false, true)

  lemma {:induction false} ConvertedOnly(columns: seq<SQLiteColumn>, n: string)
    requires n in Converted(columns)
    ensures exists i :: 0 <= i < |columns| && columns[i].name == n
  {
    var k := |columns| - 1;
    if n != columns[k].name {
      ConvertedOnly(columns[..k], n);
      var i :| 0 <= i < k && columns[..k][i].name == n;
      assert columns[i].name == n;
    }
  }

  lemma ColumnFor(info: TableInfo, t: Table, c: string) returns (n: string)
    requires Declares(info, t) && c in t.cols
    ensures n in info.fields && n != "id" && Lower(n) == c && t.cols[c].name == n
            && DeclaredAs(t.cols, info.fields[n], n)
  {
    n :| n in info.fields.Keys - {"id"} && Lower(n) == c;
    assert DeclaredAs(t.cols, info.fields[n], n);
  }

  lemma RowNamesDiffer(info: TableInfo, t: Table)
    requires Declares(info, t)
    ensures forall j, k :: 0 <= j < k < |TableInfoRows(t)| ==> TableInfoRows(t)[j].name != TableInfoRows(t)[k].name
  {
    var rows := TableInfoRows(t);
    forall j, k | 0 <= j < k < |rows| ensures rows[j].name != rows[k].name {
      var n := ColumnFor(info, t, t.order[k - 1]);
      if j > 0 {
        var m := ColumnFor(info, t, t.order[j - 1]);
        assert t.order[j - 1] != t.order[k - 1];
      }
    }
  }

  lemma RowOf(info: TableInfo, t: Table, n: string) returns (i: nat)
    requires Declares(info, t) && n in info.fields && n != "id"
    ensures i < |TableInfoRows(t)| && TableInfoRows(t)[i] == ColumnInfo(t.cols[Lower(n)])
            && TableInfoRows(t)[i].name == n
  {
    hide Lower, FoldsApart;
    assert DeclaredAs(t.cols, info.fields[n], n);
    assert Lower(n) in t.order;
    var j :| 0 <= j < |t.order| && t.order[j] == Lower(n);
    i := j + 1;
  }

  lemma IndexedIsUnique(info: TableInfo, t: Table, n: string)
    requires Declares(info, t) && n in info.fields && n != "id"
    ensures HasIndex(t, n) <==> info.fields[n].unique
  {
    assert DeclaredAs(t.cols, info.fields[n], n);
    if HasIndex(t, n) {
      var c :| c in t.cols && t.cols[c].unique && t.cols[c].name == n;
      var m := ColumnFor(info, t, c);
    }
    if info.fields[n].unique {
      assert t.cols[Lower(n)].unique && t.cols[Lower(n)].name == n;
    }
  }

  lemma FlagsFromIndexes(t: Table, indexes: seq<SQLiteIndex>, n: string)
    requires IndexRows(t, indexes)
    ensures (SoleUnique(indexes, n) <==> HasIndex(t, n)) && (Covered(indexes, n) <==> HasIndex(t, n))
  {
    hide HasIndex;
    if HasIndex(t, n) {
      var x :| x in indexes && x.columns == [n];
      var i :| 0 <= i < |indexes| && indexes[i] == x;
    }
    if Covered(indexes, n) {
      var i :| 0 <= i < |indexes| && n in indexes[i].columns;
      assert indexes[i] in indexes;
      assert indexes[i].columns == [n];
    }
  }

  /** Reading a created table back recovers every column of the schema, whatever the order it was
      declared in. */
  lemma ReflectsCreated(info: TableInfo, t: Table, indexes: seq<SQLiteIndex>)
    requires Declares(info, t) && IndexRows(t, indexes)
    ensures var fields := Flagged(Converted(TableInfoRows(t)), indexes);
            && fields.Keys == info.fields.Keys + {"id"}
            && fields["id"] == REFLECTED_ID
            && forall n <- info.fields :: n != "id" ==> fields[n] == Reflected(info.fields[n])
  {
    hide Declares, IndexRows, SoleUnique, Covered, HasIndex, Converted, ConvertColumn, DeclaredAs, Reflected, InOrder;
    DeclaresInOrder(info, t);
    var converted := Converted(TableInfoRows(t));
    ReflectsId(info, t, indexes);
    forall n | n in info.fields && n != "id"
      ensures n in converted && Flagged(converted, indexes)[n] == Reflected(info.fields[n])
    {
      ReflectsField(info, t, indexes, n);
    }
    forall n | n in converted ensures n in info.fields || n == "id" {
      ReflectsOnly(info, t, n);
    }
  }

  lemma ReflectsId(info: TableInfo, t: Table, indexes: seq<SQLiteIndex>)
    requires Declares(info, t) && IndexRows(t, indexes)
    ensures InOrder(t)
    ensures var converted := Converted(TableInfoRows(t));
            "id" in converted && Flagged(converted, indexes)["id"] == REFLECTED_ID
  {
    hide Declares, IndexRows, SoleUnique, Covered, HasIndex, Converted, ConvertColumn, InOrder;
    DeclaresInOrder(info, t);
    RowNamesDiffer(info, t);
    LastOfName(TableInfoRows(t), 0);
    FlagsFromIndexes(t, indexes, "id");
    KeyHasIndex(t);
    IdConverts();
  }

  lemma ReflectsField(info: TableInfo, t: Table, indexes: seq<SQLiteIndex>, n: string)
    requires Declares(info, t) && IndexRows(t, indexes) && n in info.fields && n != "id"
    ensures InOrder(t)
    ensures var converted := Converted(TableInfoRows(t));
            n in converted && Flagged(converted, indexes)[n] == Reflected(info.fields[n])
  {
    hide Declares, IndexRows, SoleUnique, Covered, HasIndex, Converted, ConvertColumn, InOrder, Lower, ColumnInfo;
    DeclaresInOrder(info, t);
    RowNamesDiffer(info, t);
    var i := RowOf(info, t, n);
    NameOf(info, t, n);
    LastOfName(TableInfoRows(t), i);
    FlagsFromIndexes(t, indexes, n);
    IndexedIsUnique(info, t, n);
    ConvertsTo(info, t, n);
  }

  lemma ReflectsOnly(info: TableInfo, t: Table, n: string)
    requires Declares(info, t) && InOrder(t) && n in Converted(TableInfoRows(t))
    ensures n in info.fields || n == "id"
  {
    hide Declares, Converted, InOrder;
    var rows := TableInfoRows(t);
    ConvertedOnly(rows, n);
    var i :| 0 <= i < |rows| && rows[i].name == n;
    if i > 0 {
      InOrderNames(t, i - 1);
      var m := ColumnFor(info, t, t.order[i - 1]);
    }
  }

  lemma InOrderNames(t: Table, i: nat)
    requires InOrder(t) && i < |t.order|
    ensures t.order[i] in t.cols
  {
  }

  lemma DeclaresInOrder(info: TableInfo, t: Table)
    requires Declares(info, t)
    ensures InOrder(t)
  {
  }

  lemma KeyHasIndex(t: Table)
    ensures HasIndex(t, "id")
  {
  }

  lemma IdConverts()
    ensures ConvertColumn(ID_INFO) == REFLECTED_ID.(unique := false, index := false)
  {
    assert Upper("TEXT") == "TEXT";
  }

  lemma NameOf(info: TableInfo, t: Table, n: string)
    requires Declares(info, t) && n in info.fields && n != "id"
    ensures n != "" && Lower(n) in t.cols
  {
    assert DeclaredAs(t.cols, info.fields[n], n);
  }

  lemma ConvertsTo(info: TableInfo, t: Table, n: string)
    requires Declares(info, t) && n in info.fields && n != "id"
    ensures Lower(n) in t.cols
    ensures ConvertColumn(ColumnInfo(t.cols[Lower(n)])) == Reflected(info.fields[n]).(unique := false, index := false)
  {
    assert DeclaredAs(t.cols, info.fields[n], n);
  }

  // ---------------------------------------------------------------- there and back

  lemma NewIsDeclared(info: TableInfo, driver: Driver, t: Table)
    requires NewTable(info, driver, t) && Declarable(info)
    ensures Declares(info, t)
  {
    hide ColumnMatches, InOrder, DeclaredAs;
    assert FoldsApart(info.fields.Keys);
    forall n | n in info.fields.Keys - {"id"} ensures Lower(n) != "id" {
      ApartFromId(info.fields.Keys + {"id"}, n);
    }
  }

  lemma ApartFromId(names: set<string>, n: string)
    requires FoldsApart(names) && n in names && "id" in names && n != "id"
    ensures Lower(n) != "id"
  {
    LowerId();
  }

  predicate UniqueColumn(info: TableInfo, n: string) {
    n == "id" || (n in info.fields && info.fields[n].unique)
  }

  /** The indexes SQLite makes for a table of this schema, in any order. */
  ghost predicate IndexesOf(info: TableInfo, indexes: seq<SQLiteIndex>) {
    && (forall x <- indexes ::
          AUTO_PREFIX <= x.name && x.unique && |x.columns| == 1 && UniqueColumn(info, x.columns[0]))
    && forall n: string :: UniqueColumn(info, n) ==> exists x :: x in indexes && x.columns == [n]
  }

  lemma IndexesAreRows(info: TableInfo, t: Table, indexes: seq<SQLiteIndex>)
    requires Declares(info, t) && IndexesOf(info, indexes)
    ensures IndexRows(t, indexes)
  {
    hide Declares;
    forall n: string ensures HasIndex(t, n) <==> UniqueColumn(info, n) {
      if n in info.fields && n != "id" {
        IndexedIsUnique(info, t, n);
      } else if n != "id" {
        NoSuchColumn(info, t, n);
      }
    }
    hide HasIndex, UniqueColumn;
  }

  lemma NoSuchColumn(info: TableInfo, t: Table, n: string)
    requires Declares(info, t) && n !in info.fields && n != "id"
    ensures !HasIndex(t, n)
  {
    forall c | c in t.cols ensures t.cols[c].name != n {
      var m := ColumnFor(info, t, c);
    }
  }

  /** CreateTables on a fresh database, then the reflection of the table it made: for whatever
      orders the fields are ranged over and the indexes are listed in, every column comes back
      with its name, type, nullability and uniqueness; only the default gains its quotes. */
  method CreateThenReflect(s: SQLiteStorage, info: TableInfo, indexes: seq<SQLiteIndex>)
    returns (ok: bool, table: TableSchema?)
    requires s.Valid() && s.db != null && s.db.tables == map[]
    requires BuiltByAddField(info) && PlainTable(info)
    requires IndexesOf(info, indexes)
    modifies s`sch, s.db
    ensures ok <==> Accepted(info, false)
    ensures ok ==> table != null && fresh(table) && table.Valid() && table.tableName == info.name
    ensures ok ==> table.fields.Keys == info.fields.Keys + {"id"} && table.fields["id"] == REFLECTED_ID
    ensures ok ==> forall n <- info.fields :: n != "id" ==>
              table.fields[n] == Reflected(info.fields[n])
              && var f, g := table.fields[n], info.fields[n];
                 && f.name == g.name && f.dataType == g.dataType && f.nullable == g.nullable && f.unique == g.unique
                 && f.index == g.unique && !f.primaryKey && (f.dflt == None <==> g.dflt == None)
  {
    hide PlainTable, Accepted, NewTable, Declares, IndexRows, BuiltByAddField, Healthy;
    var schema: Schema := map[info.name := info];
    assert FoldsApart(schema.Keys);
    ghost var made;
    ok, made := s.CreateTables(schema);
    table := null;
    if ok {
      assert info.name in schema && AllCreated(schema, map[], s.db.driver, schema.Keys, s.db.tables);
      var t := s.db.tables[Lower(info.name)];
      assert NewTable(info, s.db.driver, t);
      AcceptedIsDeclarable(info);
      NewIsDeclared(info, s.db.driver, t);
      DeclaresInOrder(info, t);
      IndexesAreRows(info, t, indexes);
      ReflectsCreated(info, t, indexes);
      table := ParseTable(info.name, TableInfoRows(t), indexes);
    }
  }

  lemma AcceptedIsDeclarable(info: TableInfo)
    requires Accepted(info, false)
    ensures Declarable(info)
  {
  }
}
