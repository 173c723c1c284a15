/** storage/oracle: INSERT, and on a unique violation an UPDATE built from a second range. */
module Oracle {
  import opened Outcomes
  import opened Text
  import opened Values
  import opened Sql
  import opened Statements
  import opened Engine
  import opened Ddl
  import opened Databases
  import opened Common
  import opened Creation
  import opened Effects
  import opened Sqlite
  import opened UpsertEffects

  // ---------------------------------------------------------------- upper-case names, 0/1 booleans

  function Uppers(names: seq<string>): (us: seq<string>)
    ensures |us| == |names| && forall i :: 0 <= i < |us| ==> us[i] == Upper(names[i])
  {
    seq(|names|, i requires 0 <= i < |names| => Upper(names[i]))
  }

  lemma UpperIdent(w: string)
    requires IsIdent(w)
    ensures IsIdent(Upper(w)) && Lower(Upper(w)) == Lower(w)
  {
    var u := Upper(w);
    forall i | 0 <= i < |w| ensures w[i] < '\U{0080}' && IsWordChar(u[i]) && UpperChar(u[i]) == u[i] {
      UpperWordChar(w[i]);
    }
    UpperThenLower(w);
    assert Upper(u) == u;
    UpperDigit(w[0]);
  }

  lemma UpperWordChar(c: char)
    requires IsWordChar(c)
    ensures c < '\U{0080}' && IsWordChar(UpperChar(c)) && UpperChar(UpperChar(c)) == UpperChar(c)
  {
    if 'a' <= c <= 'z' {
      var u := (c as int - 32) as char;
      assert UpperChar(c) == u && 'A' <= u <= 'Z';
    }
  }

  lemma UpperDigit(c: char)
    requires IsWordChar(c) && !('0' <= c <= '9')
    ensures !('0' <= UpperChar(c) <= '9')
  {
    if 'a' <= c <= 'z' {
      var u := (c as int - 32) as char;
      assert UpperChar(c) == u && 'A' <= u <= 'Z';
    }
  }

  lemma UppersRespell(names: seq<string>)
    requires forall i :: 0 <= i < |names| ==> IsIdent(names[i])
    ensures Respelled(Uppers(names), names) && Respelled(["ID"] + Uppers(names), ["id"] + names)
  {
    hide IsIdent;
    forall i | 0 <= i < |names| ensures IsIdent(Uppers(names)[i]) && Lower(Uppers(names)[i]) == Lower(names[i]) {
      UpperIdent(names[i]);
    }
    IdIsIdent();
  }

  /** A bool in a boolean column is stored as 0 or 1. */
  function Numbered(f: ColumnData, v: Value): Value {
    if Lower(f.dataType) == "boolean" && v.Boolean? then Int(if v.b then 1 else 0) else v
  }

  function OracleStored(info: TableInfo, stored: map<string, Value>): map<string, Value> {
    map n | n in stored :: if n in info.fields then Numbered(info.fields[n], stored[n]) else stored[n]
  }

  function OracleValues(marshal: Marshal, tbl: TableInfo, fields: map<string, Value>, names: seq<string>)
    : (vs: seq<Value>)
    requires Fits(marshal, tbl, fields, names)
    ensures |vs| == |names|
    ensures forall i :: 0 <= i < |names| ==>
              names[i] in tbl.fields && vs[i] == Numbered(tbl.fields[names[i]], Stored(marshal, tbl, fields, names)[i])
  {
    seq(|names|, i requires 0 <= i < |names| => Numbered(tbl.fields[names[i]], Stored(marshal, tbl, fields, names)[i]))
  }

  lemma OracleStep(marshal: Marshal, tbl: TableInfo, fields: map<string, Value>, names: seq<string>, name: string,
                   v: Value)
    requires Fits(marshal, tbl, fields, names)
    requires name in fields && StoredValue(marshal, tbl, fields[name], name) == Ok(v)
    ensures Fits(marshal, tbl, fields, names + [name])
    ensures name in tbl.fields
    ensures OracleValues(marshal, tbl, fields, names + [name]) ==
            OracleValues(marshal, tbl, fields, names) + [Numbered(tbl.fields[name], v)]
    ensures Uppers(names + [name]) == Uppers(names) + [Upper(name)]
  {
    hide Upper, Numbered;
  }

  lemma NothingYet(marshal: Marshal, tbl: TableInfo, fields: map<string, Value>, id: string)
    ensures NonId([]) == [] && Fits(marshal, tbl, fields, []) && OracleValues(marshal, tbl, fields, []) == []
            && Uppers([]) == []
    ensures ["ID"] + Uppers([]) == ["ID"] && [Str(id)] + OracleValues(marshal, tbl, fields, []) == [Str(id)]
    ensures SetClauses(Bares(Uppers([])), COLON, 1) == [] && Placeholders(COLON, 1, 1) == [Placeholder(COLON, 1)]
  {
  }

  /** The value of one field, as both loops compute it. */
  method OracleValue(marshal: Marshal, tbl: TableInfo, name: string, field: Value) returns (r: Outcome<Value>)
    ensures match StoredValue(marshal, tbl, field, name)
            case Ok(v) => r == Ok(Numbered(tbl.fields[name], v))
            case Err(e) => r == Err(e)
            case Panic => false
  {
    if name !in tbl.fields {
      return Err(UnknownField(name));
    }
    var schField := tbl.fields[name];
    if IsJson(schField) {
      var jsonData := marshal(field);
      if jsonData == None {
        return Err(CannotMarshal);
      }
      return Ok(Str(jsonData.value));
    } else if Lower(schField.dataType) == "boolean" && field.Boolean? {
      return Ok(Int(if field.b then 1 else 0));
    } else {
      return Ok(field);
    }
  }

  // ---------------------------------------------------------------- the two loops

  /** One value for each name: the encoding of the field in a column of type json, 1 or 0 for a boolean
      in a column of type boolean, whatever the letters of the type, and else the field itself. */
  ghost predicate NumberedValuesOf(marshal: Marshal, tbl: TableInfo, fields: map<string, Value>, names: seq<string>,
                                   values: seq<Value>)
  {
    |values| == |names| && forall i :: 0 <= i < |names| ==>
      var n := names[i];
      && n in fields && n in tbl.fields
      && (Lower(tbl.fields[n].dataType) == "json" ==>
            marshal(fields[n]).Some? && values[i] == Str(marshal(fields[n]).value))
      && (Lower(tbl.fields[n].dataType) == "boolean" && fields[n] == Boolean(true) ==> values[i] == Int(1))
      && (Lower(tbl.fields[n].dataType) == "boolean" && fields[n] == Boolean(false) ==> values[i] == Int(0))
      && (Lower(tbl.fields[n].dataType) == "json" || (Lower(tbl.fields[n].dataType) == "boolean" && fields[n].Boolean?)
          || values[i] == fields[n])
  }

  lemma OracleByGuard(marshal: Marshal, tbl: TableInfo, obj: Object, order: seq<string>)
    requires RangeOrder(order, obj.fields.Keys) && Covers(obj.fields, NonId(order))
    ensures OtherNames(obj.fields, NonId(order))
    ensures Fault(marshal, tbl, obj.fields, NonId(order)) == None ==>
              && Fits(marshal, tbl, obj.fields, NonId(order))
              && NumberedValuesOf(marshal, tbl, obj.fields, NonId(order),
                                  OracleValues(marshal, tbl, obj.fields, NonId(order)))
    ensures Fault(marshal, tbl, obj.fields, NonId(order)).Some? ==>
              FirstFaulty(marshal, tbl, obj.fields, NonId(order), Fault(marshal, tbl, obj.fields, NonId(order)).value)
  {
    hide Fault, Fits, OtherNames, FirstFaulty, RangeOrder, NonId, Covers, Lower, StoredValue;
    OthersListed(obj.fields, order);
    StoredByGuard(marshal, tbl, obj.fields, NonId(order));
    if Fault(marshal, tbl, obj.fields, NonId(order)).Some? {
      FaultByGuard(marshal, tbl, obj.fields, NonId(order));
    }
  }

  method BuildInsert(obj: Object, tbl: TableInfo, marshal: Marshal, order: seq<string>)
    returns (columns: seq<string>, placeholders: seq<string>, values: seq<Value>, err: Option<Reason>)
    requires RangeOrder(order, obj.fields.Keys)
    ensures Covers(obj.fields, NonId(order))
    ensures err == Fault(marshal, tbl, obj.fields, NonId(order))
    ensures err == None ==>
              && columns == ["ID"] + Uppers(NonId(order))
              && placeholders == Placeholders(COLON, 1, |columns|)
              && values == [Str(obj.id)] + OracleValues(marshal, tbl, obj.fields, NonId(order))
    ensures OtherNames(obj.fields, NonId(order))
    ensures err == None ==> |values| > 0 && NumberedValuesOf(marshal, tbl, obj.fields, NonId(order), values[1..])
    ensures err.Some? ==> FirstFaulty(marshal, tbl, obj.fields, NonId(order), err.value)
  {
    hide Upper, Lower, IsJson, Numbered, StoredValue, NonId, Fits, Fault, OracleValues, Uppers, SetClauses, Bares,
         Placeholders, Placeholder, RangeOrder, OtherNames, NumberedValuesOf, FirstFaulty;
    InRange(order, obj.fields.Keys);
    NonIdCovered(obj.fields, order);
    OracleByGuard(marshal, tbl, obj, order);
    NothingYet(marshal, tbl, obj.fields, obj.id);
    columns, placeholders, values := ["ID"], [Placeholder(COLON, 1)], [Str(obj.id)];
    var paramIndex := 2;
    for k := 0 to |order|
      invariant Fits(marshal, tbl, obj.fields, NonId(order[..k]))
      invariant columns == ["ID"] + Uppers(NonId(order[..k])) && paramIndex == |columns| + 1
      invariant placeholders == Placeholders(COLON, 1, |columns|)
      invariant values == [Str(obj.id)] + OracleValues(marshal, tbl, obj.fields, NonId(order[..k]))
    {
      var name := order[k];
      ghost var names := NonId(order[..k]);
      NonIdStep(order, k);
      if IsId(name) {
        continue;
      }
      NextName(order, k);
      PlaceholdersStep(COLON, |columns|);
      columns := columns + [Upper(name)];
      placeholders := placeholders + [Placeholder(COLON, paramIndex)];
      var value := OracleValue(marshal, tbl, name, obj.fields[name]);
      if value.Err? {
        err := Some(value.reason);
        FaultAt(marshal, tbl, obj.fields, NonId(order), |names|, value.reason);
        return;
      }
      OracleStep(marshal, tbl, obj.fields, names, name, StoredValue(marshal, tbl, obj.fields[name], name).value);
      values := values + [value.value];
      paramIndex := paramIndex + 1;
    }
    assert order[..|order|] == order;
    NoneFaulty(marshal, tbl, obj.fields, NonId(order));
    err := None;
  }

  /** The loop of the retry, over a range of its own. */
  method BuildUpdate(obj: Object, tbl: TableInfo, marshal: Marshal, order: seq<string>)
    returns (clauses: seq<string>, values: seq<Value>, err: Option<Reason>)
    requires RangeOrder(order, obj.fields.Keys)
    ensures Covers(obj.fields, NonId(order))
    ensures err == Fault(marshal, tbl, obj.fields, NonId(order))
    ensures err == None ==>
              && clauses == SetClauses(Bares(Uppers(NonId(order))), COLON, 1)
              && values == OracleValues(marshal, tbl, obj.fields, NonId(order)) + [Str(obj.id)]
    ensures OtherNames(obj.fields, NonId(order))
    ensures err == None ==>
              |values| > 0 && NumberedValuesOf(marshal, tbl, obj.fields, NonId(order), values[..|values| - 1])
    ensures err.Some? ==> FirstFaulty(marshal, tbl, obj.fields, NonId(order), err.value)
  {
    hide Upper, Lower, IsJson, Numbered, StoredValue, NonId, Fits, Fault, OracleValues, Uppers, SetClauses, Bares,
         Placeholders, Placeholder, OtherNames, NumberedValuesOf, FirstFaulty;
    NonIdCovered(obj.fields, order);
    OracleByGuard(marshal, tbl, obj, order);
    NothingYet(marshal, tbl, obj.fields, obj.id);
    clauses, values := [], [];
    var paramIndex := 1;
    for k := 0 to |order|
      invariant Fits(marshal, tbl, obj.fields, NonId(order[..k]))
      invariant clauses == SetClauses(Bares(Uppers(NonId(order[..k]))), COLON, 1) && paramIndex == |clauses| + 1
      invariant values == OracleValues(marshal, tbl, obj.fields, NonId(order[..k]))
    {
      var name := order[k];
      ghost var names := NonId(order[..k]);
      NonIdStep(order, k);
      if IsId(name) {
        continue;
      }
      NextName(order, k);
      UpperClause(names, name);
      clauses := clauses + [Upper(name) + " = " + Placeholder(COLON, paramIndex)];
      var value := OracleValue(marshal, tbl, name, obj.fields[name]);
      if value.Err? {
        err := Some(value.reason);
        FaultAt(marshal, tbl, obj.fields, NonId(order), |names|, value.reason);
        return;
      }
      OracleStep(marshal, tbl, obj.fields, names, name, StoredValue(marshal, tbl, obj.fields[name], name).value);
      values := values + [value.value];
      paramIndex := paramIndex + 1;
    }
    assert order[..|order|] == order;
    NoneFaulty(marshal, tbl, obj.fields, NonId(order));
    values := values + [Str(obj.id)];
    err := None;
  }

  lemma UpperClause(names: seq<string>, name: string)
    ensures SetClauses(Bares(Uppers(names + [name])), COLON, 1) ==
            SetClauses(Bares(Uppers(names)), COLON, 1) + [Upper(name) + " = " + Placeholder(COLON, |names| + 1)]
  {
    hide Upper, Placeholder;
  }

  // ---------------------------------------------------------------- the effect

  ghost predicate FitsTable(marshal: Marshal, info: TableInfo, fields: map<string, Value>) {
    Marshals(marshal, fields) && ColumnsKnown(info, fields)
  }

  /** What the two texts of Insert carry, whatever the order. */
  lemma OracleCarries(info: TableInfo, t: Table, driver: Driver, marshal: Marshal, fields: map<string, Value>,
                      order: seq<string>)
    requires Mirrors(info, t.cols, driver) && RangeOrder(order, fields.Keys) && FitsTable(marshal, info, fields)
    ensures Fits(marshal, info, fields, NonId(order))
    ensures Carries(NonId(order), OracleValues(marshal, info, fields, NonId(order)),
                    OracleStored(info, InsertStored(marshal, info, fields)))
    ensures Respelled(Uppers(NonId(order)), NonId(order))
            && Respelled(["ID"] + Uppers(NonId(order)), ["id"] + NonId(order))
  {
    hide IsIdent, Numbered, FoldsApart, ColumnMatches, IsId, StoredValue, Respelled;
    var names, stored := NonId(order), InsertStored(marshal, info, fields);
    InsertCarries(info, t, driver, marshal, fields, order);
    assert OracleStored(info, stored).Keys == stored.Keys;
    CarriedNames(names, Stored(marshal, info, fields, names), stored);
    UppersRespell(names);
  }

  /** Insert as a whole: the insert, and the retry when a unique constraint is violated. */
  ghost function RetryOutcome(tables: Tables, driver: Driver, table: string, id: string, stored: map<string, Value>)
    : (Tables, Outcome<bool>)
    requires AllHealthy(tables) && table in tables
  {
    if !Bindable(stored) then (tables, Err(Storage))
    else
      var t := tables[table];
      var given := KeptCells(t.cols, driver, stored);
      match RetryEffect(t, id, given)
      case None => (tables, Err(Storage))
      case Some(rows) =>
        if stored == map[] && InsertRow(t.cols, t.rows, id, given).Refused? then (tables, Err(Storage))
        else (tables[table := t.(rows := rows)], Ok(true))
  }

  /** The first statement, and why it failed. */
  lemma FirstTry(tables: Tables, driver: Driver, query: string, stmt: Statement, table: string, id: string,
                 names: seq<string>, values: seq<Value>, stored: map<string, Value>)
    requires AllHealthy(tables) && table in tables && Carries(names, values, stored)
    requires stmt == Statement.Insert(table, InsertInto, Columns(Bares(["id"] + names)), Params(1, |names| + 1), [])
    requires Parse(query) == Some(stmt)
    ensures ViolatesUnique(tables, driver, query, [Str(id)] + values) <==>
            Bindable(stored) && InsertRow(tables[table].cols, tables[table].rows, id,
                                          KeptCells(tables[table].cols, driver, stored)) == Refused(true)
  {
    hide Parse, Carries, GivenBy, CellMap, Bindable, Healthy, Execute, InsertRow, Kept;
    InsertCells(names, values, stored, id);
    if Bindable(stored) {
      ExecuteInsert(tables[table], driver, table, InsertInto, Columns(Bares(["id"] + names)), Params(1, |names| + 1),
                    BindAll([Str(id)] + values).value, id, CellMap(stored));
    }
  }

  lemma FirstText(tables: Tables, driver: Driver, table: string, id: string, names: seq<string>, values: seq<Value>,
                  stored: map<string, Value>)
    requires AllHealthy(tables) && IsIdent(table) && Lower(table) in tables && Carries(names, values, stored)
    requires Respelled(["ID"] + Uppers(names), ["id"] + names)
    ensures var query := InsertText(InsertInto, Upper(table), ["ID"] + Uppers(names),
                                    Placeholders(COLON, 1, |names| + 1));
            var t := tables[Lower(table)];
            && RunText(tables, driver, query, [Str(id)] + values) ==
               InsertOutcome(tables, driver, Lower(table), InsertInto, id, stored)
            && (ViolatesUnique(tables, driver, query, [Str(id)] + values) <==>
                Bindable(stored) && InsertRow(t.cols, t.rows, id, KeptCells(t.cols, driver, stored)) == Refused(true))
  {
    hide RunText, InsertText, Carries, Healthy, CellMap, Bindable, InsertRow, Parse, IsIdent, Respelled,
         ViolatesUnique, Lower;
    UpperIdent(table);
    GoodBare(Upper(table));
    var printed := ["ID"] + Uppers(names);
    RespelledColumns(printed, ["id"] + names);
    InsertParses(InsertInto, Bare(Upper(table)), Bares(printed), COLON);
    InsertTextDoes(tables, driver, InsertInto, COLON, Upper(table), printed, id, names, values, stored);
    FirstTry(tables, driver, InsertText(InsertInto, Upper(table), printed, Placeholders(COLON, 1, |names| + 1)),
             Statement.Insert(Lower(table), InsertInto, Columns(Bares(["id"] + names)), Params(1, |names| + 1), []),
             Lower(table), id, names, values, stored);
  }

  lemma RetryText(tables: Tables, driver: Driver, table: string, id: string, names: seq<string>, values: seq<Value>,
                  stored: map<string, Value>)
    requires AllHealthy(tables) && IsIdent(table) && Lower(table) in tables && Carries(names, values, stored)
    requires Respelled(Uppers(names), names)
    ensures RunText(tables, driver, UpdateText(Upper(table), SetClauses(Bares(Uppers(names)), COLON, 1),
                                               "ID = " + Placeholder(COLON, |names| + 1)),
                    values + [Str(id)])
            == if stored == map[] then (tables, None) else UpdateOutcome(tables, driver, Lower(table), id, stored)
  {
    hide RunText, UpdateText, Spells, Healthy, UpdateOutcome, UpdateInOrder, IsIdent, Respelled, Lower, FoldsApart,
         Lists;
    CarriedLists(names, values, stored);
    UpperIdent(table);
    IdIsIdent();
    CarriedSome(names, values, stored);
    assert Condition("ID", Placeholder(COLON, |names| + 1)) == "ID = " + Placeholder(COLON, |names| + 1) by {
      assert "ID" + " = " == "ID = ";
    }
    CarriedNames(names, values, stored);
    UpdateTextDoes(tables, driver, COLON, Upper(table), "ID", Uppers(names), id, names, values, stored);
    InOrderIsOutcome(tables, driver, Lower(table), id, stored, names);
  }

  /** How the two outcomes combine. */
  lemma RetryIs(tables: Tables, driver: Driver, table: string, id: string, stored: map<string, Value>)
    requires AllHealthy(tables) && table in tables
    ensures var t := tables[table]; var (after, n) := InsertOutcome(tables, driver, table, InsertInto, id, stored);
            && (n.Some? ==> RetryOutcome(tables, driver, table, id, stored) == (after, Ok(true)))
            && (n == None ==>
                  var unique := Bindable(stored) && InsertRow(t.cols, t.rows, id, KeptCells(t.cols, driver, stored)) ==
                    Refused(true);
                  var (later, m) := UpdateOutcome(tables, driver, table, id, stored);
                  RetryOutcome(tables, driver, table, id, stored) ==
                    if unique && stored != map[] && m.Some? then (later, Ok(true)) else (tables, Err(Storage)))
  {
    hide Bindable, CellMap, Kept, Healthy, InsertRow, UpdateRow;
    HealthyIsShaped(tables[table].cols, tables[table].rows);
  }

  /** INSERT, then UPDATE if that violates a unique constraint; each ranges over the fields anew,
      so the two statements may list them in different orders. */
  method Insert(db: Database?, sch: Option<Schema>, marshal: Marshal, obj: Object) returns (out: Outcome<bool>)
    requires db != null ==> AllHealthy(db.tables)
    modifies db
    ensures db != null ==> AllHealthy(db.tables)
    ensures var refusal := Refusal(db != null, sch, marshal, obj);
            refusal.Some? ==> out == refusal.value && (db != null ==> db.tables == old(db.tables))
    ensures Refusal(db != null, sch, marshal, obj) == None && !ColumnsKnown(sch.value[obj.tableName], obj.fields) ==>
              out.Err? && out.reason.UnknownField? && db.tables == old(db.tables)
    ensures Refusal(db != null, sch, marshal, obj) == None && ColumnsKnown(sch.value[obj.tableName], obj.fields)
            && Installed(sch.value, old(db.tables), db.driver, obj.tableName) ==>
              (db.tables, out) == RetryOutcome(old(db.tables), db.driver, Lower(obj.tableName), obj.id,
                                               OracleStored(sch.value[obj.tableName],
                                                            InsertStored(marshal, sch.value[obj.tableName],
                                                                         obj.fields)))
  {
    hide RunText, InsertText, UpdateText, Healthy, Carries, InsertOutcome, UpdateOutcome, RetryOutcome, InsertRow,
         KeptCells, Bindable, InsertStored, OracleStored, IsIdent, ColumnMatches, FoldsApart, Respelled,
         ViolatesUnique, Fault, Upper, Lower, OtherNames, NumberedValuesOf, FirstFaulty, RangeOrder, NonId, Covers;
    var refusal := Admit(db != null, sch, marshal, obj);
    if refusal.Some? {
      return refusal.value;
    }
    ghost var installed := Installed(sch.value, db.tables, db.driver, obj.tableName);
    var tbl := sch.value[obj.tableName];
    ghost var stored := OracleStored(tbl, InsertStored(marshal, tbl, obj.fields));
    var order := RangeOver(obj.fields.Keys);
    var columns, placeholders, values, err := BuildInsert(obj, tbl, marshal, order);
    UnknownIsNoticed(marshal, tbl, obj.fields, order);
    if err != None {
      return Err(err.value);
    }
    if installed {
      OracleCarries(tbl, db.tables[Lower(tbl.name)], db.driver, marshal, obj.fields, order);
      FirstText(db.tables, db.driver, tbl.name, obj.id, NonId(order),
                OracleValues(marshal, tbl, obj.fields, NonId(order)), stored);
      RetryIs(db.tables, db.driver, Lower(tbl.name), obj.id, stored);
    }
    var insertQuery := InsertText(InsertInto, Upper(tbl.name), columns, placeholders);
    var affected, unique := db.ExecTold(insertQuery, values);
    if affected.Some? {
      return Ok(true);
    }
    if !unique {
      return Err(Storage);
    }
    var again := RangeOver(obj.fields.Keys);
    var clauses, updateValues, err' := BuildUpdate(obj, tbl, marshal, again);
    UnknownIsNoticed(marshal, tbl, obj.fields, again);
    if err' != None {
      assert false; // the second range meets no field the first did not
    }
    if installed {
      OracleCarries(tbl, db.tables[Lower(tbl.name)], db.driver, marshal, obj.fields, again);
      RetryText(db.tables, db.driver, tbl.name, obj.id, NonId(again),
                OracleValues(marshal, tbl, obj.fields, NonId(again)), stored);
    }
    var updateQuery := UpdateText(Upper(tbl.name), clauses, "ID = " + Placeholder(COLON, |clauses| + 1));
    affected := db.Exec(updateQuery, updateValues);
    return if affected == None then Err(Storage) else Ok(true);
  }
}
