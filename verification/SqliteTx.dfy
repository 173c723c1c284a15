/** storage/sqlite: the operations on a transaction, which repeat the shared pipeline by hand.
    A transaction is the database as that transaction sees it. */
module SqliteTx {
  import opened Outcomes
  import opened Text
  import opened Values
  import opened Sql
  import opened Statements
  import opened Engine
  import opened Ddl
  import opened Databases
  import opened Common
  import opened Scanner
  import opened Effects
  import opened Creation
  import opened Sqlite

  // ---------------------------------------------------------------- texts grown by concatenation

  lemma {:induction false} JoinAppend(parts: seq<string>, part: string)
    requires parts != []
    ensures Join(parts + [part], ", ") == Join(parts, ", ") + ", " + part
  {
    if |parts| == 1 {
      assert (parts + [part])[1..] == [part];
    } else {
      JoinAppend(parts[1..], part);
      assert (parts + [part])[1..] == parts[1..] + [part];
      assert parts[0] + ", " + (Join(parts[1..], ", ") + ", " + part) == parts[0] + ", " + Join(parts[1..], ", ")
        + ", " + part;
    }
  }

  /** The hand-written loop of InsertTx builds the lists of PrepareInsertData, already joined. */
  method BuildInsert(obj: Object, tbl: TableInfo, marshal: Marshal, order: seq<string>)
    returns (columns: string, bindingParams: string, values: seq<Value>, err: Option<Reason>)
    requires RangeOrder(order, obj.fields.Keys) && BuiltByAddField(tbl)
    ensures Covers(obj.fields, NonId(order))
    ensures err == Fault(marshal, tbl, obj.fields, NonId(order))
    ensures err == None ==>
              && columns == Join(["id"] + NonId(order), ", ")
              && bindingParams == Join(Placeholders(Marks, 1, |NonId(order)| + 1), ", ")
              && values == [Str(obj.id)] + Stored(marshal, tbl, obj.fields, NonId(order))
    ensures ByTheGuards(marshal, tbl, obj, NonId(order), values, err)
  {
    hide Join, IsId, Placeholder, Placeholders, Fault, NonId, Fits, Stored, ByTheGuards, RangeOrder, Covers, IsJson;
    InRange(order, obj.fields.Keys);
    NothingStored(marshal, tbl, obj.fields, obj.id);
    NonIdCovered(obj.fields, order);
    columns, bindingParams, values := "id", "?", [Str(obj.id)];
    NoNames();
    for k := 0 to |order|
      invariant Fits(marshal, tbl, obj.fields, NonId(order[..k]))
      invariant columns == Join(["id"] + NonId(order[..k]), ", ")
      invariant bindingParams == Join(Placeholders(Marks, 1, |NonId(order[..k])| + 1), ", ")
      invariant values == [Str(obj.id)] + Stored(marshal, tbl, obj.fields, NonId(order[..k]))
    {
      var name := order[k];
      ghost var names := NonId(order[..k]);
      NonIdStep(order, k);
      if IsId(name) {
        continue;
      }
      NextName(order, k);
      GrowTexts(names, name);
      columns := columns + ", " + name;
      bindingParams := bindingParams + ", ?";
      if name !in tbl.fields {
        err := Some(UnknownField(name));
        FaultAt(marshal, tbl, obj.fields, NonId(order), |names|, UnknownField(name));
        LoopByTheGuards(marshal, tbl, obj, order, values, err);
        return;
      }
      var schField := tbl.fields[name];
      var value: Value;
      if IsJson(schField) {
        var jsonData := marshal(obj.fields[name]);
        if jsonData == None {
          err := Some(CannotMarshal);
          FaultAt(marshal, tbl, obj.fields, NonId(order), |names|, CannotMarshal);
          LoopByTheGuards(marshal, tbl, obj, order, values, err);
          return;
        }
        value := Str(jsonData.value);
      } else {
        value := obj.fields[schField.name];
      }
      StoredStep(marshal, tbl, obj.fields, names, name, value);
      values := values + [value];
    }
    assert order[..|order|] == order;
    NoneFaulty(marshal, tbl, obj.fields, NonId(order));
    err := None;
    LoopByTheGuards(marshal, tbl, obj, order, values, err);
  }

  lemma NoNames()
    ensures NonId([]) == [] && Join(["id"] + [], ", ") == "id" && Join(Placeholders(Marks, 1, 1), ", ") == "?"
  {
  }

  lemma GrowTexts(names: seq<string>, name: string)
    ensures Join(["id"] + (names + [name]), ", ") == Join(["id"] + names, ", ") + ", " + name
    ensures Join(Placeholders(Marks, 1, |names| + 2), ", ") == Join(Placeholders(Marks, 1, |names| + 1), ", ") + ", ?"
  {
    hide Join, Placeholders;
    JoinAppend(["id"] + names, name);
    assert ["id"] + (names + [name]) == ["id"] + names + [name];
    PlaceholdersStep(Marks, |names| + 1);
    JoinAppend(Placeholders(Marks, 1, |names| + 1), "?");
    OneMark(Join(Placeholders(Marks, 1, |names| + 1), ", "));
  }

  lemma OneMark(s: string)
    ensures s + ", " + "?" == s + ", ?"
  {
  }

  lemma InsertTxText(table: string, columns: seq<string>, placeholders: seq<string>)
    ensures "INSERT OR REPLACE INTO " + table + " (" + Join(columns, ", ") + ") VALUES (" + Join(placeholders, ", ")
            + ")"
            == InsertText(InsertOrReplace, table, columns, placeholders)
  {
    hide Join;
    Associate("INSERT OR REPLACE INTO ", table, " (", Join(columns, ", "), ") VALUES (", Join(placeholders, ", "), ")");
  }

  lemma Associate(a: string, b: string, c: string, d: string, e: string, f: string, g: string)
    ensures a + b + c + d + e + f + g == a + (b + c + d + e + f + g)
  {
  }

  /** INSERT OR REPLACE on a transaction; order is the order its range over the fields took. */
  method InsertTx(s: SQLiteStorage, tx: Database?, obj: Object) returns (out: Outcome<bool>, ghost order: seq<string>)
    requires s.sch.Some? ==> BuiltSchema(s.sch.value)
    requires tx != null ==> AllHealthy(tx.tables)
    modifies tx
    ensures tx != null ==> AllHealthy(tx.tables)
    ensures RangeOrder(order, obj.fields.Keys) && Covers(obj.fields, NonId(order))
    ensures tx != null && !out.Ok? ==> tx.tables == old(tx.tables)
    ensures tx == null ==> out == Err(NoTransaction)
    ensures tx != null && !Marshals(s.marshal, obj.fields) ==> out == Err(CannotMarshal)
    ensures tx != null && Marshals(s.marshal, obj.fields) && s.sch == None ==> out == Err(NoSchema)
    ensures tx != null && Marshals(s.marshal, obj.fields) && s.sch.Some? && obj.tableName !in s.sch.value ==>
            out == Panic
    ensures tx != null && Marshals(s.marshal, obj.fields) && s.sch.Some? && obj.tableName in s.sch.value
            && !ColumnsKnown(s.sch.value[obj.tableName], obj.fields) ==>
              out == FirstFault(s.marshal, s.sch.value[obj.tableName], obj.fields, order) && tx.tables == old(tx.tables)
    ensures tx != null && s.sch.Some? && Installed(s.sch.value, old(tx.tables), tx.driver, obj.tableName)
            && Marshals(s.marshal, obj.fields) && ColumnsKnown(s.sch.value[obj.tableName], obj.fields) ==>
              (tx.tables, out) == InsertSpec(s.sch.value, old(tx.tables), tx.driver, s.marshal, obj)
  {
    hide RunText, InsertText, ReplaceOutcome, Mirrors, Healthy, BuiltByAddField, InsertStored, Join, RangeOrder;
    order := SomeOrder(obj.fields);
    if tx == null {
      out := Err(NoTransaction);
      return;
    }
    var marshals := AllMarshal(s.marshal, obj.fields);
    if !marshals {
      out := Err(CannotMarshal);
      return;
    }
    if s.sch == None {
      out := Err(NoSchema);
      return;
    }
    if obj.tableName !in s.sch.value {
      out := Panic;
      return;
    }
    var tbl := s.sch.value[obj.tableName];
    var ranged := RangeOver(obj.fields.Keys);
    order := ranged;
    var columns, bindingParams, values, err := BuildInsert(obj, tbl, s.marshal, ranged);
    UnknownIsNoticed(s.marshal, tbl, obj.fields, order);
    if err != None {
      out := Err(err.value);
      return;
    }
    var query := "INSERT OR REPLACE INTO " + tbl.name + " (" + columns + ") VALUES (" + bindingParams + ")";
    InsertTxText(tbl.name, ["id"] + NonId(order), Placeholders(Marks, 1, |NonId(order)| + 1));
    if Installed(s.sch.value, tx.tables, tx.driver, obj.tableName) {
      InsertTextRuns(s.sch.value, tx.tables, tx.driver, s.marshal, obj, order);
    }
    var affected := tx.Exec(query, values);
    out := if affected == None then Err(Storage) else Ok(true);
  }

  lemma MarkClause(name: string, k: nat)
    ensures name + " = " + Placeholder(Marks, k) == name + " = ?"
  {
    assert " = " + "?" == " = ?";
  }

  /** The loop of UpdateTx. */
  method BuildUpdate(obj: Object, order: seq<string>) returns (out: Outcome<(seq<string>, seq<Value>)>)
    requires RangeOrder(order, obj.fields.Keys)
    ensures Covers(obj.fields, NonId(order))
    ensures out == if obj.fields == map[] then Panic
                   else Ok((SetClauses(Bares(NonId(order)), Marks, 1),
                            FieldValues(obj.fields, NonId(order)) + [Str(obj.id)]))
  {
    hide NonId, SetClauses, FieldValues, Bares, Lower, Placeholder;
    NonIdCovered(obj.fields, order);
    NothingSet(obj.fields, Marks);
    if |obj.fields| == 0 {
      return Panic;
    }
    var setClauses: seq<string>, values: seq<Value> := [], [];
    for k := 0 to |order|
      invariant Covers(obj.fields, NonId(order[..k]))
      invariant setClauses == SetClauses(Bares(NonId(order[..k])), Marks, 1)
      invariant values == FieldValues(obj.fields, NonId(order[..k]))
    {
      var name := order[k];
      ghost var names := NonId(order[..k]);
      NonIdStep(order, k);
      if IsId(name) {
        continue;
      }
      NextName(order, k);
      ClausesStep(obj.fields, Marks, names, name);
      MarkClause(name, |names| + 1);
      setClauses := setClauses + [name + " = ?"];
      values := values + [obj.fields[name]];
    }
    assert order[..|order|] == order;
    return Ok((setClauses, values + [Str(obj.id)]));
  }

  /** UPDATE on a transaction. Without a schema it panics, where Update returns an error. */
  method UpdateTx(s: SQLiteStorage, tx: Database?, obj: Object) returns (out: Outcome<bool>, ghost order: seq<string>)
    requires tx != null ==> AllHealthy(tx.tables)
    modifies tx
    ensures tx != null ==> AllHealthy(tx.tables)
    ensures RangeOrder(order, obj.fields.Keys)
    ensures tx != null && !out.Ok? ==> tx.tables == old(tx.tables)
    ensures tx == null ==> out == Err(NoTransaction)
    ensures tx != null && (s.sch == None || obj.tableName !in s.sch.value) ==> out == Panic
    ensures tx != null && s.sch.Some? && Installed(s.sch.value, old(tx.tables), tx.driver, obj.tableName)
            && PlainObject(obj) ==>
              (tx.tables, out) == UpdateSpec(s.sch.value, old(tx.tables), tx.driver, obj, order)
  {
    hide RunText, UpdateText, UpdateInOrder, Mirrors, Healthy, BuiltByAddField, PlainObject, RangeOrder;
    order := SomeOrder(obj.fields);
    if tx == null {
      out := Err(NoTransaction);
      return;
    }
    if s.sch == None || obj.tableName !in s.sch.value {
      out := Panic;
      return;
    }
    var tbl := s.sch.value[obj.tableName];
    var ranged := RangeOver(obj.fields.Keys);
    order := ranged;
    var built := BuildUpdate(obj, ranged);
    if built.Panic? {
      out := Panic;
      return;
    }
    var (setClauses, values) := built.value;
    var query := UpdateText(tbl.name, setClauses, "id = ?");
    if Installed(s.sch.value, tx.tables, tx.driver, obj.tableName) && PlainObject(obj) {
      UpdateObjectRuns(s.sch.value, tx.tables, tx.driver, obj, order);
    }
    var affected := tx.Exec(query, values);
    out := if affected == None then Err(Storage) else Ok(affected.value > 0);
  }

  // ---------------------------------------------------------------- lookup

  predicate Supported(info: TableInfo, n: string)
    requires n in info.fields
  {
    FamilyOf(info.fields[n].dataType) != Unknown
  }

  ghost predicate AllSupported(info: TableInfo) {
    forall n <- info.fields :: Supported(info, n)
  }

  /** The types the copied switch lists. */
  lemma SupportedByType(info: TableInfo, n: string)
    requires n in info.fields
    ensures Supported(info, n) <==>
            Upper(info.fields[n].dataType) in {"TEXT", "VARCHAR", "CHAR", "INTEGER", "INT", "REAL", "FLOAT", "BLOB",
                                               "BOOLEAN", "JSON", "DATETIME", "TIMESTAMP", "DATE", "TIME", "UUID",
                                               "CLOB", "XML"}
  {
    FamilyBySpelling(info.fields[n].dataType);
    hide FamilyOf;
  }

  /** The first loop of FindByKeyTx: columns, types and variables, or the first field whose type
      is not supported. */
  method PrepareRow(tbl: TableInfo) returns (columns: seq<string>, fieldTypes: seq<string>, pointers: seq<Pointer>,
                                             bad: Option<string>)
    requires BuiltByAddField(tbl)
    ensures bad == None <==> AllSupported(tbl)
    ensures bad.Some? ==> bad.value in tbl.fields && !Supported(tbl, bad.value)
    ensures bad == None ==> columns == ColumnNames(tbl) && |fieldTypes| == |pointers| == |tbl.order|
    ensures bad == None ==> forall i :: 0 <= i < |tbl.order| ==>
              fieldTypes[i] == tbl.fields[tbl.order[i]].dataType && pointers[i] == Allocate(tbl.fields[tbl.order[i]])
  {
    hide Allocate, FamilyOf;
    columns, fieldTypes, pointers := [], [], [];
    for k := 0 to |tbl.order|
      invariant columns == ColumnNames(tbl)[..k] && |fieldTypes| == |pointers| == k
      invariant forall i :: 0 <= i < k ==> Supported(tbl, tbl.order[i])
      invariant forall i :: 0 <= i < k ==>
                  fieldTypes[i] == tbl.fields[tbl.order[i]].dataType
                    && pointers[i] == Allocate(tbl.fields[tbl.order[i]])
    {
      var field := tbl.fields[tbl.order[k]];
      columns := columns + [field.name];
      fieldTypes := fieldTypes + [field.dataType];
      if FamilyOf(field.dataType) == Unknown {
        return columns, fieldTypes, pointers, Some(field.name);
      }
      pointers := pointers + [Allocate(field)];
    }
    return columns, fieldTypes, pointers, None;
  }

  /** The second loop of FindByKeyTx; its switch has no default. */
  method FillObject(ghost driver: Driver, tbl: TableInfo, ghost row: map<string, Cell>, fieldTypes: seq<string>,
                    pointers: seq<Pointer>)
    returns (out: Outcome<Object>)
    requires BuiltByAddField(tbl) && AllSupported(tbl) && tbl.fields.Keys <= row.Keys && Readable(driver, tbl, row)
    requires |fieldTypes| == |pointers| == |tbl.order|
    requires forall i :: 0 <= i < |tbl.order| ==> fieldTypes[i] == tbl.fields[tbl.order[i]].dataType
    requires forall i :: 0 <= i < |tbl.order| ==>
               Scan(driver, Allocate(tbl.fields[tbl.order[i]]), row[tbl.order[i]]) == Some(pointers[i])
    ensures out == Rebuilt(driver, tbl, row, tbl.name)
  {
    hide Decode, Scan, Allocate, ReadBack, FamilyOf;
    var filled: map<string, Value> := map[];
    for k := 0 to |tbl.order|
      invariant FilledUpTo(driver, tbl, row, filled, k)
    {
      CellRoundTrip(driver, tbl.fields[tbl.order[k]], row[tbl.order[k]]);
      assert Supported(tbl, tbl.order[k]);
      var field := tbl.fields[tbl.order[k]];
      FillOne(driver, tbl, row, filled, k);
      if FamilyOf(fieldTypes[k]) != Unknown {
        var v := ReadBack(fieldTypes[k], field.nullable, pointers[k]);
        if !v.Ok? {
          return Panic;
        }
        filled := filled[field.name := v.value];
      }
    }
    FilledAll(driver, tbl, row, filled);
    if "id" in filled && filled["id"] != Nil {
      if !filled["id"].Str? {
        return Panic;
      }
      return Ok(Object(tbl.name, filled["id"].s, filled));
    }
    return Ok(Object(tbl.name, "", filled));
  }

  /** SELECT by one column on a transaction. A column whose type the copied switch does not list
      is an error here, where the shared scanner reads it as text. */
  method FindByKeyTx(s: SQLiteStorage, tx: Database?, tblName: string, key: string, value: string)
    returns (out: Outcome<Option<Object>>)
    requires tx != null ==> AllHealthy(tx.tables)
    requires tx != null && s.sch.Some? && tblName in s.sch.value ==> Asked(s.sch.value, tx.tables, tx.driver, tblName)
    ensures tx == null ==> out == Err(NoTransaction)
    ensures tx != null && (tblName == "" || key == "" || value == "") ==> out == Err(EmptyArgument)
    ensures tx != null && tblName != "" && key != "" && value != "" ==>
              if s.sch == None || tblName !in s.sch.value then out == Panic
              else if !AllSupported(s.sch.value[tblName]) then out.Err? && out.reason.UnsupportedType?
              else if !Installed(s.sch.value, tx.tables, tx.driver, tblName) then out == Err(Storage)
              else FindSpec(tx.driver, s.sch.value[tblName], tx.tables[Lower(tblName)].rows, key, value, out)
  {
    hide FindSpec, Mirrors, Healthy, AllSupported, Readable, Answers;
    if tx == null {
      return Err(NoTransaction);
    }
    if tblName == "" || key == "" || value == "" {
      return Err(EmptyArgument);
    }
    if s.sch == None || tblName !in s.sch.value {
      return Panic;
    }
    var tbl := s.sch.value[tblName];
    var columns, fieldTypes, pointers, bad := PrepareRow(tbl);
    if bad.Some? {
      return Err(UnsupportedType(bad.value));
    }
    ColumnNamesAreOrder(tbl);
    var answer := QueryByKey(tx, tbl, columns, if key in tbl.fields then tbl.fields[key].name else "", value);
    out := FinishLookup(tx, tbl, key, value, fieldTypes, pointers, answer);
  }

  method FinishLookup(tx: Database, tbl: TableInfo, ghost key: string, ghost value: string, fieldTypes: seq<string>,
                      pointers: seq<Pointer>, answer: Answer) returns (out: Outcome<Option<Object>>)
    requires AllHealthy(tx.tables) && BuiltByAddField(tbl) && AllSupported(tbl)
    requires |fieldTypes| == |pointers| == |tbl.order|
    requires forall i :: 0 <= i < |tbl.order| ==>
               fieldTypes[i] == tbl.fields[tbl.order[i]].dataType && pointers[i] == Allocate(tbl.fields[tbl.order[i]])
    requires if Agrees(tx.tables, tx.driver, tbl)
             then LookupAnswer(tx.driver, tbl, tx.tables[Lower(tbl.name)], key, value, answer)
             else answer == Failed
    ensures Looked(tx.tables, tx.driver, tbl, key, value, out)
  {
    hide FindSpec, Mirrors, Healthy, AllSupported, Allocate, Scan;
    ghost var k := "";
    if Agrees(tx.tables, tx.driver, tbl) {
      k := AnswerMeans(tbl, tx.tables[Lower(tbl.name)], tx.driver, key, value, answer);
    }
    match answer {
      case Failed => return Err(Storage);
      case NoRows => return Ok(None);
      case Found(cells) =>
        ghost var row := tx.tables[Lower(tbl.name)].rows[k];
        out := ScanHere(tx.driver, tbl, k, row, cells, fieldTypes, pointers);
    }
  }

  method ScanHere(driver: Driver, tbl: TableInfo, ghost k: string, ghost row: Row, cells: seq<Cell>,
                  fieldTypes: seq<string>, pointers: seq<Pointer>)
    returns (out: Outcome<Option<Object>>)
    requires BuiltByAddField(tbl) && AllSupported(tbl) && SeesRow(tbl, row)
    requires cells == CellsOf(tbl, RowCells(driver, tbl, k, row))
    requires |fieldTypes| == |pointers| == |tbl.order|
    requires forall i :: 0 <= i < |tbl.order| ==>
               fieldTypes[i] == tbl.fields[tbl.order[i]].dataType && pointers[i] == Allocate(tbl.fields[tbl.order[i]])
    ensures out == Read(driver, tbl, k, row)
  {
    hide Allocate, Scan, AllSupported;
    ghost var seen := RowCells(driver, tbl, k, row);
    var scanned := ScanCells(driver, pointers, cells);
    ScannedIsReadable(driver, tbl, seen, pointers, scanned);
    if scanned == None {
      return Err(Unreadable);
    }
    var obj := FillObject(driver, tbl, seen, fieldTypes, scanned.value);
    match obj {
      case Ok(o) => return Ok(Some(o));
      case Err(r) => return Err(r);
      case Panic => return Panic;
    }
  }

  method DeleteByIDTx(tx: Database?, tblName: string, id: string) returns (out: Outcome<bool>)
    requires tx != null ==> AllHealthy(tx.tables)
    modifies tx
    ensures tx != null ==> AllHealthy(tx.tables)
    ensures tx == null ==> out == Err(NoTransaction)
    ensures tx != null && !out.Ok? ==> tx.tables == old(tx.tables)
    ensures tx != null && IsIdent(tblName) && Lower(tblName) !in old(tx.tables) ==> out == Err(Storage)
    ensures tx != null && IsIdent(tblName) && Lower(tblName) in old(tx.tables) ==>
              var t := old(tx.tables)[Lower(tblName)];
              && out == Ok(id in t.rows)
              && tx.tables == old(tx.tables)[Lower(tblName) := t.(rows := t.rows - {id})]
  {
    hide RunText, Healthy, IsIdent;
    if tx == null {
      return Err(NoTransaction);
    }
    var query := "DELETE FROM " + tblName + " WHERE id = ?";
    assert query == DeleteText(tblName, "id = ?");
    if IsIdent(tblName) {
      DeleteTextRuns(tx.tables, tx.driver, tblName, id);
    }
    var affected := tx.Exec(query, [Str(id)]);
    return if affected == None then Err(Storage) else Ok(affected.value > 0);
  }

  /** Upsert on a transaction delegates to InsertTx. */
  method UpsertTx(s: SQLiteStorage, tx: Database?, obj: Object) returns (out: Outcome<bool>, ghost order: seq<string>)
    requires s.sch.Some? ==> BuiltSchema(s.sch.value)
    requires tx != null ==> AllHealthy(tx.tables)
    modifies tx
    ensures tx != null ==> AllHealthy(tx.tables)
    ensures RangeOrder(order, obj.fields.Keys) && Covers(obj.fields, NonId(order))
    ensures tx != null && !out.Ok? ==> tx.tables == old(tx.tables)
    ensures tx == null ==> out == Err(NoTransaction)
    ensures tx != null && !Marshals(s.marshal, obj.fields) ==> out == Err(CannotMarshal)
    ensures tx != null && Marshals(s.marshal, obj.fields) && s.sch == None ==> out == Err(NoSchema)
    ensures tx != null && Marshals(s.marshal, obj.fields) && s.sch.Some? && obj.tableName !in s.sch.value ==>
            out == Panic
    ensures tx != null && Marshals(s.marshal, obj.fields) && s.sch.Some? && obj.tableName in s.sch.value
            && !ColumnsKnown(s.sch.value[obj.tableName], obj.fields) ==>
              out == FirstFault(s.marshal, s.sch.value[obj.tableName], obj.fields, order) && tx.tables == old(tx.tables)
    ensures tx != null && s.sch.Some? && Installed(s.sch.value, old(tx.tables), tx.driver, obj.tableName)
            && Marshals(s.marshal, obj.fields) && ColumnsKnown(s.sch.value[obj.tableName], obj.fields) ==>
              (tx.tables, out) == InsertSpec(s.sch.value, old(tx.tables), tx.driver, s.marshal, obj)
  {
    out, order := InsertTx(s, tx, obj);
  }
}
