/** What the map says about an inserted object's way through the adapter and back. */
module SqliteLaws {
  import opened Outcomes
  import opened Text
  import opened Values
  import opened Sql
  import opened Engine
  import opened Ddl
  import opened Databases
  import opened Common
  import opened Scanner
  import opened DriverLaws
  import opened Effects
  import opened Creation
  import opened Sqlite
  import opened SqliteRuns

  // ---------------------------------------------------------------- the row an INSERT leaves

  /** The cell an INSERT leaves in a column: the given value, else the default; a null where none
      is allowed also becomes the default. */
  function FinalCell(f: ColumnData, driver: Driver, stored: map<string, Value>): Cell {
    var given := if f.name in stored then driver.keep(f.dataType, BoundCell(stored[f.name]))
      else DefaultCell(f, driver);
    if given == Null && !f.nullable then DefaultCell(f, driver) else given
  }

  lemma CellMapMisses(info: TableInfo, stored: map<string, Value>, n: string)
    requires FoldsApart(info.fields.Keys) && stored.Keys <= info.fields.Keys
    requires n in info.fields && n !in stored
    ensures Lower(n) !in CellMap(stored)
  {
    if Lower(n) in FoldAll(stored.Keys) {
      var m := NameFor(stored.Keys, Lower(n));
      OnlyName(info, m, n);
    }
  }

  lemma OnlyName(info: TableInfo, m: string, n: string)
    requires FoldsApart(info.fields.Keys) && m in info.fields && n in info.fields && Lower(m) == Lower(n)
    ensures m == n
  {
  }

  lemma FilledCell(info: TableInfo, cols: map<string, ColDef>, driver: Driver, stored: map<string, Value>, n: string)
    requires Mirrors(info, cols, driver) && stored.Keys <= info.fields.Keys
    requires n in info.fields && n != "id"
    ensures Lower(n) in cols
    ensures Fill(cols, KeptCells(cols, driver, stored), true)[Lower(n)] == FinalCell(info.fields[n], driver, stored)
  {
    assert ColumnMatches(cols, info.fields[n], driver);
    if n in stored {
      CellMapAt(stored, n);
    } else {
      CellMapMisses(info, stored, n);
    }
  }

  /** A row whose columns are what an INSERT of stored leaves. */
  ghost predicate Holds(info: TableInfo, driver: Driver, stored: map<string, Value>, row: Row) {
    SeesRow(info, row) && forall n <- info.fields ::
      n != "id" ==> row[Lower(n)] == FinalCell(info.fields[n], driver, stored)
  }

  lemma FilledHolds(info: TableInfo, cols: map<string, ColDef>, driver: Driver, stored: map<string, Value>)
    requires Mirrors(info, cols, driver) && stored.Keys <= info.fields.Keys
    ensures Holds(info, driver, stored, Fill(cols, KeptCells(cols, driver, stored), true))
  {
    hide Mirrors, Fill, FinalCell, KeptCells;
    forall n | n in info.fields && n != "id"
      ensures Lower(n) in cols && Fill(cols, KeptCells(cols, driver, stored), true)[Lower(n)] ==
              FinalCell(info.fields[n], driver, stored)
    {
      FilledCell(info, cols, driver, stored, n);
    }
  }

  /** An Insert that succeeds had an object the table can take. */
  lemma InsertSucceeds(sch: Schema, tables: Tables, driver: Driver, marshal: Marshal, obj: Object, order: seq<string>)
    requires AllInstalled(sch, tables, driver) && RangeOrder(order, obj.fields.Keys)
    requires InsertStep(sch, tables, driver, marshal, obj, order).1 == Ok(true)
    ensures Marshals(marshal, obj.fields) && obj.tableName in sch && ColumnsKnown(sch[obj.tableName], obj.fields)
    ensures InsertStep(sch, tables, driver, marshal, obj, order) == InsertSpec(sch, tables, driver, marshal, obj)
  {
    hide Mirrors, Healthy, BuiltByAddField, InsertSpec, RangeOrder, ColumnsKnown;
    NonIdCovered(obj.fields, order);
    if Marshals(marshal, obj.fields) && obj.tableName in sch {
      assert Installed(sch, tables, driver, obj.tableName);
      if !ColumnsKnown(sch[obj.tableName], obj.fields) {
        UnknownIsNoticed(marshal, sch[obj.tableName], obj.fields, order);
      }
    }
  }

  /** After a successful Insert every column of the row is known: what was given, or the default. */
  lemma InsertLeaves(sch: Schema, tables: Tables, driver: Driver, marshal: Marshal, obj: Object, order: seq<string>)
    requires AllInstalled(sch, tables, driver) && RangeOrder(order, obj.fields.Keys)
    requires InsertStep(sch, tables, driver, marshal, obj, order).1 == Ok(true)
    ensures obj.tableName in sch && Marshals(marshal, obj.fields)
    ensures var after := InsertStep(sch, tables, driver, marshal, obj, order).0;
            var info := sch[obj.tableName]; var stored := InsertStored(marshal, info, obj.fields);
            && Bindable(stored) && Lower(obj.tableName) in after && obj.id in after[Lower(obj.tableName)].rows
            && Holds(info, driver, stored, after[Lower(obj.tableName)].rows[obj.id])
  {
    InsertSucceeds(sch, tables, driver, marshal, obj, order);
    hide Mirrors, Healthy, NotNullHolds, Blockers, Fill, Holds, BuiltByAddField, InsertStored, KeptCells, InsertStep,
         RangeOrder;
    var info := sch[obj.tableName];
    assert Installed(sch, tables, driver, obj.tableName);
    var stored := InsertStored(marshal, info, obj.fields);
    StoredKnown(marshal, info, obj.fields);
    FilledHolds(info, tables[Lower(obj.tableName)].cols, driver, stored);
  }

  lemma StoredKnown(marshal: Marshal, info: TableInfo, fields: map<string, Value>)
    ensures InsertStored(marshal, info, fields).Keys <= info.fields.Keys
  {
  }

  // ---------------------------------------------------------------- when an Insert succeeds

  /** Every field but id has a column, and one that is not json is nothing the driver refuses. */
  ghost predicate AllBind(info: TableInfo, fields: map<string, Value>) {
    forall n <- fields :: Lower(n) != "id" ==>
      n in info.fields && (Lower(info.fields[n].dataType) == "json" || !fields[n].Composite?)
  }

  /** Every column that takes no null is given something else, or has a default. */
  ghost predicate NoneMissing(info: TableInfo, fields: map<string, Value>) {
    forall n <- info.fields :: n != "id" && !info.fields[n].nullable ==>
      || info.fields[n].dflt.Some?
      || (n in fields && (Lower(info.fields[n].dataType) == "json" || (fields[n] != Nil && fields[n] != NilBytes)))
  }

  lemma StoredBinds(marshal: Marshal, info: TableInfo, fields: map<string, Value>)
    requires Marshals(marshal, fields) && ColumnsKnown(info, fields)
    ensures Bindable(InsertStored(marshal, info, fields)) <==> AllBind(info, fields)
  {
    hide Lower;
    AllStored(marshal, info, fields);
    var stored := InsertStored(marshal, info, fields);
    forall n | n in fields && !IsId(n)
      ensures n in stored && n in info.fields
      ensures Bind(stored[n]).Some? <==> Lower(info.fields[n].dataType) == "json" || !fields[n].Composite?
    {
      assert n in stored.Keys;
    }
  }

  lemma FinalNotNull(f: ColumnData, driver: Driver, marshal: Marshal, info: TableInfo, fields: map<string, Value>)
    requires Lawful(driver) && !f.nullable && f.name in info.fields && info.fields[f.name] == f && !IsId(f.name)
    requires Marshals(marshal, fields) && Bindable(InsertStored(marshal, info, fields))
    ensures FinalCell(f, driver, InsertStored(marshal, info, fields)) != Null <==>
            || f.dflt.Some?
            || (f.name in fields
                && (Lower(f.dataType) == "json" || (fields[f.name] != Nil && fields[f.name] != NilBytes)))
  {
    hide Lawful, Lower, IsId;
    var stored := InsertStored(marshal, info, fields);
    if f.name in stored { KeepLaws(driver, f.dataType, BoundCell(stored[f.name])); }
    if f.dflt.Some? { KeepLaws(driver, f.dataType, Text(f.dflt.value)); }
  }

  lemma RowAccepted(info: TableInfo, cols: map<string, ColDef>, driver: Driver, stored: map<string, Value>)
    requires Mirrors(info, cols, driver) && stored.Keys <= info.fields.Keys
    ensures NotNullHolds(cols, Fill(cols, KeptCells(cols, driver, stored), true)) <==>
            forall n <- info.fields ::
              n != "id" && !info.fields[n].nullable ==> FinalCell(info.fields[n], driver, stored) != Null
  {
    hide Mirrors, FinalCell, KeptCells, Fill;
    var row := Fill(cols, KeptCells(cols, driver, stored), true);
    FilledHolds(info, cols, driver, stored);
    forall n | n in info.fields && n != "id"
      ensures Lower(n) in cols && cols[Lower(n)].notNull == !info.fields[n].nullable
    {
      ColumnAt(info, cols, driver, n);
    }
    forall c | c in cols ensures exists n :: n in info.fields && n != "id" && Lower(n) == c {
      var n := ColumnOf(info, cols, driver, c);
    }
  }

  lemma ColumnAt(info: TableInfo, cols: map<string, ColDef>, driver: Driver, n: string)
    requires Mirrors(info, cols, driver) && n in info.fields && n != "id"
    ensures Lower(n) in cols && cols[Lower(n)].notNull == !info.fields[n].nullable
  {
    assert ColumnMatches(cols, info.fields[n], driver);
  }

  /** An Insert succeeds, and reports created, exactly when every value of the object can be encoded,
      its table is in the schema, each field has a column that takes its value, and no column that
      must have a value is left without; otherwise it changes nothing. */
  lemma InsertAccepted(sch: Schema, tables: Tables, driver: Driver, marshal: Marshal, obj: Object, order: seq<string>)
    requires AllInstalled(sch, tables, driver) && RangeOrder(order, obj.fields.Keys) && Lawful(driver)
    ensures var (after, out) := InsertStep(sch, tables, driver, marshal, obj, order);
            && (out == Ok(true) <==>
                && (forall n <- obj.fields :: marshal(obj.fields[n]).Some?) && obj.tableName in sch
                && AllBind(sch[obj.tableName], obj.fields) && NoneMissing(sch[obj.tableName], obj.fields))
            && (out != Ok(true) ==> after == tables && !out.Ok?)
  {
    InsertFacts(sch, tables, driver, marshal, obj, order);
    hide Mirrors, Healthy, BuiltByAddField, InsertSpec, RangeOrder, AllBind, NoneMissing, Lawful;
    NonIdCovered(obj.fields, order);
    if Marshals(marshal, obj.fields) && obj.tableName in sch {
      var info := sch[obj.tableName];
      assert Installed(sch, tables, driver, obj.tableName);
      if !ColumnsKnown(info, obj.fields) {
        UnknownIsNoticed(marshal, info, obj.fields, order);
        UnknownBindsNot(info, obj.fields);
      } else {
        SpecAccepted(sch, tables, driver, marshal, obj);
      }
    }
  }

  lemma UnknownBindsNot(info: TableInfo, fields: map<string, Value>)
    requires !ColumnsKnown(info, fields)
    ensures !AllBind(info, fields)
  {
    hide Lower;
  }

  lemma SpecAccepted(sch: Schema, tables: Tables, driver: Driver, marshal: Marshal, obj: Object)
    requires AllHealthy(tables) && Installed(sch, tables, driver, obj.tableName) && Lawful(driver)
    requires Marshals(marshal, obj.fields) && ColumnsKnown(sch[obj.tableName], obj.fields)
    ensures var out := InsertSpec(sch, tables, driver, marshal, obj).1;
            && (out == Ok(true) <==>
                AllBind(sch[obj.tableName], obj.fields) && NoneMissing(sch[obj.tableName], obj.fields))
            && (out.Ok? ==> out == Ok(true))
  {
    hide Mirrors, Healthy, BuiltByAddField, InsertStored, KeptCells, Fill, NotNullHolds, Lawful, AllBind, NoneMissing,
         Bindable, Blockers, FinalCell, Marshals;
    var info, t := sch[obj.tableName], tables[Lower(obj.tableName)];
    var stored := InsertStored(marshal, info, obj.fields);
    StoredBinds(marshal, info, obj.fields);
    StoredFit(info, t.cols, driver, marshal, obj.fields);
    RowAccepted(info, t.cols, driver, stored);
    if Bindable(stored) {
      NoneMissingMeans(info, t.cols, driver, marshal, obj.fields);
    }
  }

  lemma NoneMissingMeans(info: TableInfo, cols: map<string, ColDef>, driver: Driver, marshal: Marshal,
                         fields: map<string, Value>)
    requires Mirrors(info, cols, driver) && Lawful(driver)
    requires Marshals(marshal, fields) && Bindable(InsertStored(marshal, info, fields))
    ensures NoneMissing(info, fields) <==>
            forall n <- info.fields :: n != "id" && !info.fields[n].nullable ==>
              FinalCell(info.fields[n], driver, InsertStored(marshal, info, fields)) != Null
  {
    hide Mirrors, Lawful, Marshals, Bindable, InsertStored, FinalCell, Lower;
    forall n | n in info.fields && n != "id" && !info.fields[n].nullable
      ensures FinalCell(info.fields[n], driver, InsertStored(marshal, info, fields)) != Null <==>
              || info.fields[n].dflt.Some?
              || (n in fields && (Lower(info.fields[n].dataType) == "json"
                                  || (fields[n] != Nil && fields[n] != NilBytes)))
    {
      NamesItself(info, cols, driver, n);
      FinalNotNull(info.fields[n], driver, marshal, info, fields);
    }
  }

  lemma StoredFit(info: TableInfo, cols: map<string, ColDef>, driver: Driver, marshal: Marshal,
                  fields: map<string, Value>)
    requires Mirrors(info, cols, driver)
    ensures InsertStored(marshal, info, fields).Keys <= info.fields.Keys
    ensures KeptCells(cols, driver, InsertStored(marshal, info, fields)).Keys <= cols.Keys
  {
    hide IsIdent, ColumnMatches, IsId;
    StoredKnown(marshal, info, fields);
    forall c | c in FoldAll(InsertStored(marshal, info, fields).Keys) ensures c in cols {
      var n :| n in InsertStored(marshal, info, fields) && Lower(n) == c;
      assert n in info.fields && !IsId(n);
      if n == "id" { IdNamesId(); }
      assert n in info.fields.Keys - {"id"};
    }
  }

  lemma IdNamesId()
    ensures IsId("id")
  {
    LowerId();
  }

  // ---------------------------------------------------------------- reading a row

  /** The types, in upper case, whose values are no strings. */
  const NO_STRINGS := {"INTEGER", "INT", "REAL", "FLOAT", "BOOLEAN", "BLOB"}

  /** A row read: unreadable, a panic on an id that is no string, or the object with its id and
      columns. */
  lemma ReadRow(driver: Driver, info: TableInfo, k: string, row: Row)
    requires SeesRow(info, row) && "id" in info.fields
    ensures var cells := RowCells(driver, info, k, row); var textId := Upper(info.fields["id"].dataType) !in NO_STRINGS;
            match Read(driver, info, k, row)
            case Panic => Readable(driver, info, cells) && !textId
            case Err(r) => r == Unreadable && !Readable(driver, info, cells)
            case Ok(None) => false
            case Ok(Some(o)) =>
              && Readable(driver, info, cells) && textId
              && o.tableName == info.name && o.id == k && o.fields.Keys == info.fields.Keys
              && o.fields["id"] == Str(k)
              && forall n <- info.fields :: Some(o.fields[n]) == Decode(driver, info.fields[n], cells[n])
  {
    var cells := RowCells(driver, info, k, row);
    assert cells["id"] == Text(k);
    IdByType(driver, info.fields["id"], k);
    assert forall n <- info.fields :: n in cells;
    hide Decode, RowCells, Upper;
  }

  lemma IdByType(driver: Driver, f: ColumnData, s: string)
    ensures Decode(driver, f, Text(s)) == Some(Str(s)) <==> Upper(f.dataType) !in NO_STRINGS
    ensures Decode(driver, f, Text(s)) != Some(Nil)
    ensures Decode(driver, f, Text(s)).Some? && Decode(driver, f, Text(s)).value.Str? ==>
            Decode(driver, f, Text(s)) == Some(Str(s))
  {
    IdReading(driver, f, s);
    FamilyBySpelling(f.dataType);
    hide FamilyOf, Decode;
  }

  /** A lookup panics exactly when the row can be read and the schema gives id a type whose values
      are no strings. */
  lemma LookupPanics(sch: Schema, tables: Tables, driver: Driver, name: string, id: string)
    requires AllInstalled(sch, tables, driver) && name in sch
    ensures "id" in sch[name].fields && Lower(name) in tables && SeesRows(sch[name], tables[Lower(name)].rows)
    ensures id in tables[Lower(name)].rows ==>
              (FoundIn(sch, tables, driver, name, id) == Panic <==>
                && Upper(sch[name].fields["id"].dataType) in NO_STRINGS
                && Readable(driver, sch[name], RowCells(driver, sch[name], id, tables[Lower(name)].rows[id])))
  {
    hide Read, Healthy, BuiltByAddField, ColumnMatches, IsIdent, FamilyOf, Readable, RowCells;
    InstalledSees(sch, tables, driver, name);
    assert Installed(sch, tables, driver, name);
    if id in tables[Lower(name)].rows {
      ReadRow(driver, sch[name], id, tables[Lower(name)].rows[id]);
    }
  }

  /** What FindByID returns for a column, by the spelling of its type. */
  lemma FoundByType(sch: Schema, tables: Tables, driver: Driver, name: string, id: string, o: Object, n: string)
    requires AllInstalled(sch, tables, driver) && name in sch && FoundIn(sch, tables, driver, name, id) == Ok(Some(o))
    requires n in sch[name].fields && n != "id"
    ensures Lower(name) in tables && id in tables[Lower(name)].rows && Lower(n) in tables[Lower(name)].rows[id]
    ensures o.tableName == name && o.id == id && o.fields.Keys == sch[name].fields.Keys && o.fields["id"] == Str(id)
    ensures var f := sch[name].fields[n]; var t := Upper(f.dataType); var v := o.fields[n];
            var cell := driver.fetch(f.dataType, tables[Lower(name)].rows[id][Lower(n)]);
            && (cell == Null ==> v == (if t == "BLOB" then NilBytes else Nil))
            && (t in {"INTEGER", "INT"} && cell != Null ==>
                  v.Int? && Some(v.i) == if cell.Integer? then Some(cell.i) else driver.asInt(cell))
            && (t in {"REAL", "FLOAT"} ==>
                  v.Float? && Some(v.r) == if cell.Real? then Some(cell.r) else driver.asReal(cell))
            && (t == "BOOLEAN" ==>
                  v.Boolean? && Some(v.b) == if cell.Logical? then Some(cell.b) else driver.asBool(cell))
            && (t == "BLOB" && cell != Null ==>
                  v == Bytes(if cell.Blob? then cell.bs else driver.asBytes(cell)))
            && (t !in {"INTEGER", "INT", "REAL", "FLOAT", "BOOLEAN", "BLOB"} && cell != Null ==>
                  v == Str(if cell.Text? then cell.s else driver.asText(cell)))
  {
    hide Read, Healthy, BuiltByAddField, ColumnMatches, IsIdent, Decode, Readable, RowCells;
    InstalledSees(sch, tables, driver, name);
    assert Installed(sch, tables, driver, name);
    var info, row := sch[name], tables[Lower(name)].rows[id];
    ReadRow(driver, info, id, row);
    CellShown(driver, info, id, row, n);
    DecodeByType(driver, info.fields[n], RowCells(driver, info, id, row)[n]);
  }

  lemma CellShown(driver: Driver, info: TableInfo, k: string, row: Row, n: string)
    requires SeesRow(info, row) && n in info.fields && n != "id"
    ensures Lower(n) in row && RowCells(driver, info, k, row)[n] == driver.fetch(info.fields[n].dataType, row[Lower(n)])
  {
  }

  /** A lookup by a column other than id finds nothing exactly when no row's cell is what the column
      keeps of the text, and otherwise the object of such a row; a lookup by id goes by the id. */
  lemma KeyFound(driver: Driver, info: TableInfo, rows: Rows, key: string, value: string, out: Outcome<Option<Object>>)
    requires FindSpec(driver, info, rows, key, value, out) && key in info.fields && "id" in info.fields
    ensures forall k <- rows :: key != "id" ==> Lower(key) in rows[k]
    ensures out == Ok(None) <==>
            if key == "id" then value !in rows
            else forall k <- rows :: rows[k][Lower(key)] == Null
                                       || rows[k][Lower(key)] != driver.keep(info.fields[key].dataType, Text(value))
    ensures out.Ok? && out.value.Some? ==>
              var o := out.value.value;
              && o.id in rows
              && if key == "id" then o.id == value
                 else rows[o.id][Lower(key)] == driver.keep(info.fields[key].dataType, Text(value))
  {
    hide Read, Lower;
    assert SeesRows(info, rows);
    forall k | k in rows ensures Read(driver, info, k, rows[k]) != Ok(None)
    ensures Read(driver, info, k, rows[k]).Ok? ==> Read(driver, info, k, rows[k]).value.value.id == k
    {
      ReadRow(driver, info, k, rows[k]);
    }
  }

  /** A table that calls its id a BLOB: the lookup of any row panics. */
  lemma BlobIdPanics(driver: Driver, k: string)
    ensures var id := ColumnData("id", "BLOB", false, None, false, false, false, false);
            var info := TableInfo("t", map["id" := id], ["id"]);
            SeesRow(info, map[]) && Read(driver, info, k, map[]) == Panic
  {
    var id := ColumnData("id", "BLOB", false, None, false, false, false, false);
    var info := TableInfo("t", map["id" := id], ["id"]);
    assert Upper("BLOB") == "BLOB";
    assert FamilyOf(id.dataType) == BlobLike by { BlobIsBlob(); }
    hide FamilyOf;
    var cells := RowCells(driver, info, k, map[]);
    assert cells["id"] == Text(k);
    assert Decode(driver, id, Text(k)) == Some(Bytes(BytesOf(driver, Text(k))));
    ReadRow(driver, info, k, map[]);
  }

  lemma BlobIsBlob()
    ensures FamilyOf("BLOB") == BlobLike
  {
    assert Upper("BLOB") == "BLOB";
    forall i | 0 <= i < |TEXT_TYPES| ensures TEXT_TYPES[i] != "BLOB" {
    }
    forall i | 0 <= i < |INT_TYPES| ensures INT_TYPES[i] != "BLOB" {
    }
    forall i | 0 <= i < |REAL_TYPES| ensures REAL_TYPES[i] != "BLOB" {
    }
  }

  // ---------------------------------------------------------------- insert, then find

  /** Every column of the row an INSERT leaves can be read back. */
  ghost predicate ReadsBack(info: TableInfo, driver: Driver, stored: map<string, Value>, id: string) {
    forall n <- info.fields ::
      if n == "id" then Decode(driver, info.fields[n], Text(id)).Some?
      else Reading(driver, info.fields[n], FinalCell(info.fields[n], driver, stored)).Some?
  }

  /** The reply to a lookup of a row an INSERT of stored has left: an error exactly when some column
      has no Go value, a panic when all have one but the id is no string, else an object with the
      id and every column decoded. */
  ghost predicate FoundInserted(info: TableInfo, driver: Driver, stored: map<string, Value>, id: string,
                                found: Outcome<Option<Object>>)
    requires "id" in info.fields
  {
    var textId := Upper(info.fields["id"].dataType) !in NO_STRINGS;
    match found
    case Panic => ReadsBack(info, driver, stored, id) && !textId
    case Err(r) => r == Unreadable && !ReadsBack(info, driver, stored, id)
    case Ok(None) => false
    case Ok(Some(o)) =>
      && ReadsBack(info, driver, stored, id) && textId
      && o.tableName == info.name && o.id == id && o.fields.Keys == info.fields.Keys
      && forall n <- info.fields :: Some(o.fields[n]) ==
           if n == "id" then Some(Str(id)) else Reading(driver, info.fields[n],
                                                        FinalCell(info.fields[n], driver, stored))
  }

  lemma HeldIsFound(info: TableInfo, driver: Driver, stored: map<string, Value>, id: string, row: Row)
    requires "id" in info.fields && Holds(info, driver, stored, row)
    ensures FoundInserted(info, driver, stored, id, Read(driver, info, id, row))
  {
    hide FinalCell, Decode, FamilyOf;
    ReadRow(driver, info, id, row);
  }

  /** FindByID after a successful Insert. */
  lemma InsertThenFind(sch: Schema, tables: Tables, driver: Driver, marshal: Marshal, obj: Object, order: seq<string>)
    requires AllInstalled(sch, tables, driver) && RangeOrder(order, obj.fields.Keys)
    requires InsertStep(sch, tables, driver, marshal, obj, order).1 == Ok(true)
    ensures obj.tableName in sch && "id" in sch[obj.tableName].fields
    ensures FoundInserted(sch[obj.tableName], driver, InsertStored(marshal, sch[obj.tableName], obj.fields), obj.id,
                          FoundIn(sch, InsertStep(sch, tables, driver, marshal, obj, order).0, driver, obj.tableName,
                                  obj.id))
  {
    InsertLeaves(sch, tables, driver, marshal, obj, order);
    hide Mirrors, Healthy, InsertStep, FoundInserted, BuiltByAddField, InsertStored, Read, FinalCell, Marshals,
         RangeOrder;
    var info := sch[obj.tableName];
    assert Installed(sch, tables, driver, obj.tableName);
    HasId(info, tables[Lower(obj.tableName)].cols, driver);
    var after := InsertStep(sch, tables, driver, marshal, obj, order).0;
    HeldIsFound(info, driver, InsertStored(marshal, info, obj.fields), obj.id,
                after[Lower(obj.tableName)].rows[obj.id]);
  }

  lemma HasId(info: TableInfo, cols: map<string, ColDef>, driver: Driver)
    requires Mirrors(info, cols, driver)
    ensures "id" in info.fields
  {
  }

  lemma JsonIsText(f: ColumnData)
    requires IsJson(f)
    ensures FamilyOf(f.dataType) == TextLike && !IsDate(f.dataType)
  {
    var d := f.dataType;
    assert |d| == 4;
    assert Lower(d)[0] == 'j' && Lower(d)[1] == 's' && Lower(d)[2] == 'o' && Lower(d)[3] == 'n';
    LetterOf(d[0], 'j');
    LetterOf(d[1], 's');
    LetterOf(d[2], 'o');
    LetterOf(d[3], 'n');
    assert Upper(d) == "JSON" == TEXT_TYPES[3];
    assert |DATE_TYPES[0]| == 8 && |DATE_TYPES[1]| == 9 && DATE_TYPES[2][0] == 'D';
  }

  lemma LetterOf(c: char, l: char)
    requires LowerChar(c) == l && 'a' <= l <= 'z' && l != 'i' && l != 'k'
    ensures UpperChar(c) == (l as int - 32) as char
  {
    if 'A' <= c <= 'Z' {
      assert l == (c as int + 32) as char;
      assert l as int == c as int + 32;
    }
  }

  // ---------------------------------------------------------------- field by field

  lemma HeldNotNull(info: TableInfo, t: Table, driver: Driver, stored: map<string, Value>, id: string, n: string)
    requires Mirrors(info, t.cols, driver) && Healthy(t.cols, t.rows) && id in t.rows
    requires Holds(info, driver, stored, t.rows[id]) && n in info.fields && n != "id"
    ensures NotNull(info.fields[n], FinalCell(info.fields[n], driver, stored))
  {
    hide FinalCell, IsIdent;
    assert ColumnMatches(t.cols, info.fields[n], driver);
    assert NotNullHolds(t.cols, t.rows[id]);
  }

  /** What becomes of one field of an inserted object: one in a column of type json, whatever its
      letters, comes back as its encoding, in the column's spelling; any other as the column keeps
      and shows it, which is as it was given exactly when it suits the column; and one left out, or
      given as nil where the column takes none, as the default, or nil if there is none. */
  ghost predicate FieldComesBack(driver: Driver, f: ColumnData, marshal: Marshal, fields: map<string, Value>,
                                 back: Value)
  {
    if f.name in fields && Lower(f.dataType) == "json" then
      marshal(fields[f.name]).Some? && back == Str(Spelled(driver, f, marshal(fields[f.name]).value))
    else if f.name in fields && (f.nullable || (fields[f.name] != Nil && fields[f.name] != NilBytes)) then
      && Bind(fields[f.name]).Some?
      && Reading(driver, f, driver.keep(f.dataType, Bind(fields[f.name]).value)) == Some(back)
      && (back == fields[f.name] <==> Suits(driver, f, fields[f.name]))
    else if f.dflt.Some? then Reading(driver, f, driver.keep(f.dataType, Text(f.dflt.value))) == Some(back)
    else
      && f.nullable && Upper(f.dataType) !in {"REAL", "FLOAT", "BOOLEAN"}
      && back == if Upper(f.dataType) == "BLOB" then NilBytes else Nil
  }

  /** No null is given where the column takes none, so the default does not step in. */
  predicate KeepsGiven(f: ColumnData, v: Value) {
    f.nullable || (v != Nil && v != NilBytes)
  }

  /** The default takes the place of a field left out, and of a nil where the column takes none. */
  lemma DefaultFieldBack(f: ColumnData, driver: Driver, stored: map<string, Value>)
    requires Lawful(driver) && f.dflt.Some?
    requires f.name in stored ==> Bind(stored[f.name]).Some? && !KeepsGiven(f, stored[f.name])
    ensures FinalCell(f, driver, stored) == driver.keep(f.dataType, Text(f.dflt.value))
  {
    if f.name in stored { KeepLaws(driver, f.dataType, Bind(stored[f.name]).value); }
    hide Lawful;
  }

  /** Without a default such a nil is refused. */
  lemma NilIsRefused(f: ColumnData, driver: Driver, stored: map<string, Value>)
    requires Lawful(driver) && f.dflt == None && f.name in stored && Bind(stored[f.name]).Some?
    requires !KeepsGiven(f, stored[f.name])
    ensures FinalCell(f, driver, stored) == Null && !NotNull(f, FinalCell(f, driver, stored))
  {
    KeepLaws(driver, f.dataType, Bind(stored[f.name]).value);
    hide Lawful;
  }

  lemma GivenCell(f: ColumnData, driver: Driver, stored: map<string, Value>)
    requires Lawful(driver) && f.name in stored && Bind(stored[f.name]).Some? && KeepsGiven(f, stored[f.name])
    ensures FinalCell(f, driver, stored) == driver.keep(f.dataType, Bind(stored[f.name]).value)
  {
    KeepLaws(driver, f.dataType, Bind(stored[f.name]).value);
    hide Lawful;
  }

  /** A JSON column gives back the encoding as the column spells it. */
  lemma JsonFieldBack(f: ColumnData, driver: Driver, stored: map<string, Value>, s: string)
    requires Lawful(driver) && f.name in stored && IsJson(f) && stored[f.name] == Str(s)
    ensures Reading(driver, f, FinalCell(f, driver, stored)) == Some(Str(Spelled(driver, f, s)))
  {
    JsonIsText(f);
    KeepLaws(driver, f.dataType, Text(s));
    FetchLaws(driver, f.dataType, driver.keep(f.dataType, Text(s)));
    hide Lawful, IsJson, FamilyOf, IsDate;
  }

  lemma GivenFieldBack(f: ColumnData, driver: Driver, stored: map<string, Value>)
    requires Lawful(driver) && f.name in stored && Bind(stored[f.name]).Some? && KeepsGiven(f, stored[f.name])
    requires Reading(driver, f, FinalCell(f, driver, stored)).Some? && NotNull(f, FinalCell(f, driver, stored))
    ensures Reading(driver, f, FinalCell(f, driver, stored)) == Some(stored[f.name]) <==>
            Suits(driver, f, stored[f.name])
  {
    var v := stored[f.name];
    KeepLaws(driver, f.dataType, Bind(v).value);
    hide Lawful, Suits, Reading;
    KeptThenRead(driver, f, v);
  }

  /** A nullable column left out, without a default: nil for text and integers, a nil slice for
      blobs, and for every other type a row that cannot be read. */
  lemma OmittedFieldBack(f: ColumnData, driver: Driver, stored: map<string, Value>)
    requires Lawful(driver) && f.name !in stored && f.dflt == None
    requires Reading(driver, f, FinalCell(f, driver, stored)).Some? && NotNull(f, FinalCell(f, driver, stored))
    ensures f.nullable && FamilyOf(f.dataType) in {TextLike, IntLike, BlobLike}
    ensures Reading(driver, f, FinalCell(f, driver, stored)) ==
            Some(if FamilyOf(f.dataType) == BlobLike then NilBytes else Nil)
  {
    FetchLaws(driver, f.dataType, Null);
    hide Lawful, FamilyOf;
  }

  lemma OneFieldBack(info: TableInfo, driver: Driver, marshal: Marshal, fields: map<string, Value>, f: ColumnData,
                     back: Value)
    requires Lawful(driver) && f.name in info.fields && info.fields[f.name] == f && !IsId(f.name)
    requires f.name in fields ==> marshal(fields[f.name]).Some?
    requires var stored := InsertStored(marshal, info, fields);
             && Bindable(stored) && Reading(driver, f, FinalCell(f, driver, stored)) == Some(back)
             && NotNull(f, FinalCell(f, driver, stored))
    ensures FieldComesBack(driver, f, marshal, fields, back)
  {
    hide IsId, Lawful, Reading, FinalCell, Suits, FamilyOf, Spelled;
    var stored := InsertStored(marshal, info, fields);
    FamilyBySpelling(f.dataType);
    if f.name !in fields {
      assert f.name !in stored;
      if f.dflt == None {
        OmittedFieldBack(f, driver, stored);
      } else {
        DefaultFieldBack(f, driver, stored);
      }
    } else if IsJson(f) {
      assert stored[f.name] == Str(marshal(fields[f.name]).value);
      JsonFieldBack(f, driver, stored, marshal(fields[f.name]).value);
    } else {
      assert stored[f.name] == fields[f.name];
      if KeepsGiven(f, fields[f.name]) {
        GivenFieldBack(f, driver, stored);
        GivenCell(f, driver, stored);
      } else if f.dflt == None {
        NilIsRefused(f, driver, stored);
      } else {
        DefaultFieldBack(f, driver, stored);
      }
    }
  }

  /** Insert, then find: JSON fields come back as their encoding, other fields unchanged exactly
      when the value suits the column, and omitted columns as their default or nil. */
  lemma InsertedFieldsBack(sch: Schema, tables: Tables, driver: Driver, marshal: Marshal, obj: Object,
                           order: seq<string>, o: Object)
    requires AllInstalled(sch, tables, driver) && RangeOrder(order, obj.fields.Keys) && Lawful(driver)
    requires InsertStep(sch, tables, driver, marshal, obj, order).1 == Ok(true)
    requires FoundIn(sch, InsertStep(sch, tables, driver, marshal, obj, order).0, driver, obj.tableName, obj.id) ==
             Ok(Some(o))
    ensures obj.tableName in sch && o.id == obj.id && o.fields.Keys == sch[obj.tableName].fields.Keys
    ensures forall n <- sch[obj.tableName].fields :: n != "id" ==>
              FieldComesBack(driver, sch[obj.tableName].fields[n], marshal, obj.fields, o.fields[n])
  {
    InsertThenFind(sch, tables, driver, marshal, obj, order);
    InsertLeaves(sch, tables, driver, marshal, obj, order);
    InsertFacts(sch, tables, driver, marshal, obj, order);
    hide Mirrors, Healthy, InsertStep, BuiltByAddField, InsertStored, Read, FinalCell, Reading, FieldComesBack,
         NotNull, FoundIn, Holds, RangeOrder, Lawful, FamilyOf;
    var info := sch[obj.tableName];
    var stored := InsertStored(marshal, info, obj.fields);
    var after := InsertStep(sch, tables, driver, marshal, obj, order).0;
    assert Installed(sch, after, driver, obj.tableName);
    forall n | n in info.fields && n != "id" ensures FieldComesBack(driver, info.fields[n], marshal, obj.fields,
                                                                    o.fields[n])
    {
      NamesItself(info, after[Lower(obj.tableName)].cols, driver, n);
      HeldNotNull(info, after[Lower(obj.tableName)], driver, stored, obj.id, n);
      OneFieldBack(info, driver, marshal, obj.fields, info.fields[n], o.fields[n]);
    }
  }

  lemma NamesItself(info: TableInfo, cols: map<string, ColDef>, driver: Driver, n: string)
    requires Mirrors(info, cols, driver) && n in info.fields && n != "id"
    ensures info.fields[n].name == n && !IsId(n)
  {
    if IsId(n) { OnlyIdIsId(info, n); }
  }

  lemma ColumnOf(info: TableInfo, cols: map<string, ColDef>, driver: Driver, c: string) returns (n: string)
    requires Mirrors(info, cols, driver) && c in cols
    ensures n in info.fields && n != "id" && Lower(n) == c && info.fields[n].name == n
    ensures cols[c].notNull == !info.fields[n].nullable && cols[c].dataType == info.fields[n].dataType
  {
    hide IsIdent;
    n :| n in info.fields.Keys - {"id"} && Lower(n) == c;
    assert ColumnMatches(cols, info.fields[n], driver);
  }
}
