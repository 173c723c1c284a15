/** storage/tidb: REPLACE INTO, and a finder that takes the columns in map order. */
module TiDb {
  import opened Outcomes
  import opened Text
  import opened Values
  import opened Sql
  import opened Statements
  import opened Engine
  import opened Databases
  import opened Ddl
  import opened Common
  import opened Scanner
  import opened Creation
  import opened Effects
  import opened Sqlite
  import opened SqliteTx
  import opened SqliteLaws

  method Insert(db: Database?, sch: Option<Schema>, marshal: Marshal, obj: Object) returns (out: Outcome<bool>)
    requires db != null ==> AllHealthy(db.tables)
    modifies db
    ensures db != null ==> AllHealthy(db.tables)
    ensures var refusal := Refusal(db != null, sch, marshal, obj);
            refusal.Some? ==> out == refusal.value && (db != null ==> db.tables == old(db.tables))
    ensures Refusal(db != null, sch, marshal, obj) == None && !ColumnsKnown(sch.value[obj.tableName], obj.fields) ==>
              out.Err? && out.reason.UnknownField? && db.tables == old(db.tables)
    ensures Refusal(db != null, sch, marshal, obj) == None && ColumnsKnown(sch.value[obj.tableName], obj.fields)
            && Installed(sch.value, old(db.tables), db.driver, obj.tableName) ==>
              var (after, n) := InsertOutcome(old(db.tables), db.driver, Lower(obj.tableName), ReplaceInto, obj.id,
                                              InsertStored(marshal, sch.value[obj.tableName], obj.fields));
              db.tables == after && out == if n == None then Err(Storage) else Ok(true)
  {
    hide RunText, InsertOutcome, Healthy, InsertStored, Carries, Fault, InsertText, IsIdent, ColumnMatches, FoldsApart,
         Placeholders, Respelled;
    var refusal := Admit(db != null, sch, marshal, obj);
    if refusal.Some? {
      return refusal.value;
    }
    ghost var installed := Installed(sch.value, db.tables, db.driver, obj.tableName);
    var tbl := sch.value[obj.tableName];
    var order := RangeOver(obj.fields.Keys);
    var columns, placeholders, values, err := BuildLists(obj, tbl, marshal, order);
    UnknownIsNoticed(marshal, tbl, obj.fields, order);
    if err != None {
      return Err(err.value);
    }
    var names := NonId(order);
    var query := InsertText(ReplaceInto, tbl.name, columns, placeholders);
    if installed {
      InsertCarries(tbl, db.tables[Lower(tbl.name)], db.driver, marshal, obj.fields, order);
      CarriedLists(names, Stored(marshal, tbl, obj.fields, names), InsertStored(marshal, tbl, obj.fields));
      OwnSpelling(names, Stored(marshal, tbl, obj.fields, names), InsertStored(marshal, tbl, obj.fields));
      InsertTextDoes(db.tables, db.driver, ReplaceInto, Marks, tbl.name, ["id"] + names, obj.id, names,
                     Stored(marshal, tbl, obj.fields, names), InsertStored(marshal, tbl, obj.fields));
    }
    var affected := db.Exec(query, values);
    return if affected == None then Err(Storage) else Ok(true);
  }

  lemma AlwaysMarks()
    ensures forall k {:trigger Placeholder(Marks, k)} :: Placeholder(Marks, k) == "?"
  {
  }

  /** The loop of Insert, with its own error returns. */
  method BuildLists(obj: Object, tbl: TableInfo, marshal: Marshal, order: seq<string>)
    returns (columns: seq<string>, placeholders: seq<string>, values: seq<Value>, err: Option<Reason>)
    requires RangeOrder(order, obj.fields.Keys)
    ensures Covers(obj.fields, NonId(order))
    ensures err == Fault(marshal, tbl, obj.fields, NonId(order))
    ensures err == None ==>
              && columns == ["id"] + NonId(order)
              && placeholders == Placeholders(Marks, 1, |columns|)
              && values == [Str(obj.id)] + Stored(marshal, tbl, obj.fields, NonId(order))
    ensures ByTheGuards(marshal, tbl, obj, NonId(order), values, err)
  {
    hide NonId, Fits, Stored, Fault, Placeholders, Placeholder, IsId, IsJson, RangeOrder, Covers, ByTheGuards;
    NonIdCovered(obj.fields, order);
    NothingStored(marshal, tbl, obj.fields, obj.id);
    AlwaysMarks();
    columns, placeholders, values := ["id"], ["?"], [Str(obj.id)];
    for k := 0 to |order|
      invariant Fits(marshal, tbl, obj.fields, NonId(order[..k]))
      invariant columns == ["id"] + NonId(order[..k])
      invariant placeholders == Placeholders(Marks, 1, |columns|)
      invariant values == [Str(obj.id)] + Stored(marshal, tbl, obj.fields, NonId(order[..k]))
    {
      var name := order[k];
      ghost var names := NonId(order[..k]);
      NonIdStep(order, k);
      if IsId(name) {
        continue;
      }
      NextName(order, k);
      PlaceholdersStep(Marks, |columns|);
      columns := columns + [name];
      placeholders := placeholders + ["?"];
      if name !in tbl.fields {
        err := Some(UnknownField(name));
        FaultAt(marshal, tbl, obj.fields, NonId(order), |names|, UnknownField(name));
        LoopByTheGuards(marshal, tbl, obj, order, values, err);
        return;
      }
      var encoded := Encode(marshal, tbl.fields[name], obj.fields[name]);
      if encoded == None {
        err := Some(CannotMarshal);
        FaultAt(marshal, tbl, obj.fields, NonId(order), |names|, CannotMarshal);
        LoopByTheGuards(marshal, tbl, obj, order, values, err);
        return;
      }
      StoredStep(marshal, tbl, obj.fields, names, name, encoded.value);
      values := values + [encoded.value];
    }
    assert order[..|order|] == order;
    NoneFaulty(marshal, tbl, obj.fields, NonId(order));
    err := None;
    LoopByTheGuards(marshal, tbl, obj, order, values, err);
  }

  // ---------------------------------------------------------------- lookup

  const PLAIN_TEXTS := ["TEXT", "VARCHAR", "CHAR"]

  /** JSON and date-like columns get a plain string variable even when they are nullable. */
  function StrictField(f: ColumnData): ColumnData {
    f.(nullable := f.nullable && (FamilyOf(f.dataType) != TextLike || Upper(f.dataType) in PLAIN_TEXTS))
  }

  function StrictInfo(info: TableInfo): TableInfo {
    info.(fields := map n | n in info.fields :: StrictField(info.fields[n]))
  }

  lemma StrictLooks(info: TableInfo)
    requires BuiltByAddField(info)
    ensures BuiltByAddField(StrictInfo(info)) && StrictInfo(info).fields.Keys == info.fields.Keys
    ensures AllSupported(StrictInfo(info)) <==> AllSupported(info)
  {
    hide FamilyOf;
    forall n | n in info.fields ensures Supported(StrictInfo(info), n) <==> Supported(info, n) {
    }
    if AllSupported(StrictInfo(info)) {
      forall n | n in info.fields ensures Supported(info, n) {
        assert Supported(StrictInfo(info), n);
      }
    }
  }

  lemma StrictTypes(info: TableInfo)
    ensures StrictInfo(info).name == info.name && StrictInfo(info).fields.Keys == info.fields.Keys
    ensures forall n <- info.fields :: StrictInfo(info).fields[n].dataType == info.fields[n].dataType
  {
    hide FamilyOf;
  }

  /** Rows and keys look the same to the strict columns, in any field order. */
  lemma StrictSees(driver: Driver, info: TableInfo, order: seq<string>, k: string, row: Row)
    requires SeesRow(info, row)
    ensures SeesRow(StrictInfo(info), row) && SeesRow(StrictInfo(info.(order := order)), row)
            && SeesRow(info.(order := order), row)
    ensures RowCells(driver, StrictInfo(info), k, row) == RowCells(driver, info, k, row)
    ensures RowCells(driver, StrictInfo(info.(order := order)), k, row) ==
            RowCells(driver, info.(order := order), k, row)
  {
    StrictTypes(info);
    StrictTypes(info.(order := order));
    hide StrictField, Lower;
  }

  lemma StrictHasKey(driver: Driver, info: TableInfo, order: seq<string>, rows: Rows, k: string, key: string,
                     value: string)
    requires k in rows && key in info.fields
    ensures key in StrictInfo(info).fields && key in info.(order := order).fields
    ensures HasKey(driver, StrictInfo(info), rows, k, key, value) <==>
            HasKey(driver, info.(order := order), rows, k, key, value)
  {
    StrictTypes(info);
    hide StrictField, Lower;
  }

  /** What a finder returns does not depend on the field order. */
  lemma OrderDoesNotMatter(driver: Driver, a: TableInfo, b: TableInfo, k: string, row: Row)
    requires a.name == b.name && a.fields == b.fields && SeesRow(a, row)
    ensures SeesRow(b, row) && Read(driver, a, k, row) == Read(driver, b, k, row)
  {
    assert RowCells(driver, a, k, row) == RowCells(driver, b, k, row);
  }

  lemma StrictNothing(info: TableInfo, order: seq<string>, t: Table, driver: Driver, key: string, value: string,
                      a: Answer)
    requires Mirrors(info, t.cols, driver) && Healthy(t.cols, t.rows)
    requires LookupAnswer(driver, info.(order := order), t, key, value, a)
    ensures a.Failed? ==> FindSpec(driver, StrictInfo(info), t.rows, key, value, Err(Storage))
    ensures a.NoRows? ==> FindSpec(driver, StrictInfo(info), t.rows, key, value, Ok(None))
  {
    hide FamilyOf, Healthy, Read, StrictField, IsIdent, ColumnMatches, FoldsApart, Selects;
    var ranged := info.(order := order);
    MirroredRows(info, t, driver);
    if a.NoRows? && key in info.fields {
      forall j | j in t.rows ensures !HasKey(driver, StrictInfo(info), t.rows, j, key, value) {
        SelectedMeansHasKey(ranged, t, driver, key, value, j);
        StrictHasKey(driver, info, order, t.rows, j, key, value);
      }
    }
  }

  /** The engine's answer, for the finder that reads with strict columns in range order. */
  lemma StrictAnswer(info: TableInfo, order: seq<string>, t: Table, driver: Driver, key: string, value: string,
                     a: Answer) returns (k: string)
    requires Mirrors(info, t.cols, driver) && Healthy(t.cols, t.rows) && BuiltByAddField(info.(order := order))
    requires LookupAnswer(driver, info.(order := order), t, key, value, a)
    ensures a.Failed? ==> FindSpec(driver, StrictInfo(info), t.rows, key, value, Err(Storage))
    ensures a.NoRows? ==> FindSpec(driver, StrictInfo(info), t.rows, key, value, Ok(None))
    ensures a.Found? ==>
              var strict := StrictInfo(info.(order := order));
              && k in t.rows && SeesRow(strict, t.rows[k]) && BuiltByAddField(strict)
                 && a.cells == CellsOf(strict, RowCells(driver, strict, k, t.rows[k]))
              && FindSpec(driver, StrictInfo(info), t.rows, key, value, Read(driver, strict, k, t.rows[k]))
  {
    hide FamilyOf, Healthy, Read, StrictField, LookupAnswer, IsIdent, ColumnMatches, FoldsApart, HasKey, Lower;
    var ranged := info.(order := order);
    var strict := StrictInfo(ranged);
    k := AnswerMeans(ranged, t, driver, key, value, a);
    StrictLooks(ranged);
    assert SeesRows(StrictInfo(info), t.rows) by { MirroredRows(info, t, driver); }
    if !a.Found? {
      StrictNothing(info, order, t, driver, key, value, a);
    }
    if a.Found? {
      StrictSees(driver, info, order, k, t.rows[k]);
      OrderDoesNotMatter(driver, strict, StrictInfo(info), k, t.rows[k]);
      StrictHasKey(driver, info, order, t.rows, k, key, value);
    }
  }

  /** FindByKey ranges over the field map itself, so columns come in any order; a null in a JSON
      or date-like column cannot be read, nullable or not. */
  method FindByKey(db: Database?, sch: Option<Schema>, tblName: string, key: string, value: string)
    returns (out: Outcome<Option<Object>>)
    requires db != null ==> AllHealthy(db.tables)
    requires db != null && sch.Some? && tblName in sch.value ==> Asked(sch.value, db.tables, db.driver, tblName)
    requires sch.Some? ==> BuiltSchema(sch.value)
    ensures tblName == "" || key == "" || value == "" ==> out == Err(EmptyArgument)
    ensures tblName != "" && key != "" && value != "" ==>
              if sch == None || tblName !in sch.value then out == Panic
              else if !AllSupported(sch.value[tblName]) then out.Err? && out.reason.UnsupportedType?
              else if db == null then out == Panic
              else if !Installed(sch.value, db.tables, db.driver, tblName) then out == Err(Storage)
              else FindSpec(db.driver, StrictInfo(sch.value[tblName]), db.tables[Lower(tblName)].rows, key, value, out)
  {
    hide FindSpec, Mirrors, Healthy, AllSupported, LookupAnswer, FamilyOf, StrictField, Allocate, Settles;
    if tblName == "" || key == "" || value == "" {
      return Err(EmptyArgument);
    }
    if sch == None || tblName !in sch.value {
      return Panic;
    }
    var tbl := sch.value[tblName];
    var order := RangeOver(tbl.fields.Keys);
    RangeIsBuilt(tbl, order);
    var ranged := tbl.(order := order);
    var strict := StrictInfo(ranged);
    StrictLooks(ranged);
    StrictSupported(tbl, order);
    var columns, fieldTypes, pointers, bad := PrepareRow(strict);
    if bad.Some? {
      return Err(UnsupportedType(bad.value));
    }
    if db == null {
      return Panic;
    }
    ColumnNamesAreOrder(strict);
    SameSettles(tbl, order, db.tables, db.driver);
    var answer := QueryByKey(db, ranged, columns, if key in tbl.fields then tbl.fields[key].name else "", value);
    ghost var k := "";
    if Agrees(db.tables, db.driver, tbl) {
      AnswerIs(db.driver, ranged, db.tables[Lower(tblName)], key, value, answer);
      k := StrictAnswer(tbl, order, db.tables[Lower(tblName)], db.driver, key, value, answer);
    }
    match answer {
      case Failed => return Err(Storage);
      case NoRows => return Ok(None);
      case Found(cells) => out := ScanHere(db.driver, strict, k, db.tables[Lower(tblName)].rows[k], cells, fieldTypes,
                                           pointers);
    }
  }

  lemma AnswerIs(driver: Driver, info: TableInfo, t: Table, key: string, value: string, a: Answer)
    requires BuiltByAddField(info)
    requires if key !in info.fields then a == Failed
             else
               && info.fields[key].name in info.fields
               && Answers(t, driver, KeyLookup(driver, info, info.fields[key].name, value), a)
    ensures LookupAnswer(driver, info, t, key, value, a)
  {
  }

  lemma RangeIsBuilt(info: TableInfo, order: seq<string>)
    requires BuiltByAddField(info) && RangeOrder(order, info.fields.Keys)
    ensures BuiltByAddField(info.(order := order))
  {
    forall n ensures n in order <==> n in info.fields {
      assert n in (set k | k in order) <==> n in info.fields.Keys;
    }
  }

  lemma SameSettles(info: TableInfo, order: seq<string>, tables: Tables, driver: Driver)
    ensures Agrees(tables, driver, info.(order := order)) <==> Agrees(tables, driver, info)
    ensures Settles(tables, driver, info.(order := order)) <==> Settles(tables, driver, info)
  {
    hide IsIdent, ColumnMatches;
  }

  lemma StrictSupported(info: TableInfo, order: seq<string>)
    ensures AllSupported(info.(order := order)) <==> AllSupported(info)
  {
  }

  /** JSON and what is like a date, in upper case. */
  const STRICT_TYPES := {"JSON", "DATETIME", "TIMESTAMP", "DATE", "TIME", "UUID", "CLOB", "XML"}

  /** Compared with the shared finder on the same row: the same answer, unless some nullable JSON
      or date-like column holds a null, and then an error. */
  lemma StrictReads(driver: Driver, info: TableInfo, k: string, row: Row)
    requires SeesRow(info, row) && "id" in info.fields
    requires Read(driver, info, k, row).Ok?
    ensures SeesRow(StrictInfo(info), row)
    ensures Read(driver, StrictInfo(info), k, row) ==
            if exists n <- info.fields ::
                 RowCells(driver, info, k, row)[n] == Null && info.fields[n].nullable
                   && Upper(info.fields[n].dataType) in STRICT_TYPES
            then Err(Unreadable) else Read(driver, info, k, row)
  {
    hide Decode, StrictField;
    var strict := StrictInfo(info);
    var cells := RowCells(driver, info, k, row);
    StrictSees(driver, info, info.order, k, row);
    ReadRow(driver, info, k, row);
    ReadRow(driver, strict, k, row);
    forall n | n in info.fields
      ensures Decode(driver, strict.fields[n], cells[n]) ==
              if cells[n] == Null && info.fields[n].nullable && Upper(info.fields[n].dataType) in STRICT_TYPES then None
                else Decode(driver, info.fields[n], cells[n])
    {
      StrictByType(info.fields[n]);
      StrictDecode(driver, info.fields[n], cells[n]);
    }
    assert cells["id"] == Text(k);
    if Readable(driver, strict, cells) {
      SameObject(driver, info, strict, k, row);
    } else {
      var n :| n in info.fields && Decode(driver, strict.fields[n], cells[n]) == None;
      assert Decode(driver, info.fields[n], cells[n]).Some?;
    }
  }

  lemma StrictByType(f: ColumnData)
    ensures StrictField(f).nullable != f.nullable <==> f.nullable && Upper(f.dataType) in STRICT_TYPES
  {
    FamilyBySpelling(f.dataType);
    assert PLAIN_TEXTS[0] == "TEXT" && PLAIN_TEXTS[1] == "VARCHAR" && PLAIN_TEXTS[2] == "CHAR";
    hide FamilyOf;
  }

  lemma StrictDecode(driver: Driver, f: ColumnData, cell: Cell)
    requires Decode(driver, f, cell).Some?
    ensures Decode(driver, StrictField(f), cell) == if cell == Null && StrictField(f).nullable != f.nullable then None
            else Decode(driver, f, cell)
  {
  }

  lemma SameObject(driver: Driver, a: TableInfo, b: TableInfo, k: string, row: Row)
    requires a.name == b.name && a.fields.Keys == b.fields.Keys && "id" in a.fields && SeesRow(a, row)
             && SeesRow(b, row)
    requires RowCells(driver, a, k, row) == RowCells(driver, b, k, row)
    requires Readable(driver, a, RowCells(driver, a, k, row)) && Readable(driver, b, RowCells(driver, b, k, row))
    requires forall n <- a.fields ::
               Decode(driver, a.fields[n], RowCells(driver, a, k, row)[n]) ==
               Decode(driver, b.fields[n], RowCells(driver, b, k, row)[n])
    ensures Read(driver, a, k, row) == Read(driver, b, k, row)
  {
    hide Decode, RowCells;
    var cells := RowCells(driver, a, k, row);
    assert (map n | n in a.fields :: Decode(driver, a.fields[n], cells[n]).value) ==
      (map n | n in b.fields :: Decode(driver, b.fields[n], cells[n]).value);
  }
}
