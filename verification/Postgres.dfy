/** storage/postgres: the upsert that reuses its placeholders, and the numbered UPDATE. */
module Postgres {
  import opened Outcomes
  import opened Text
  import opened Values
  import opened Sql
  import opened Statements
  import opened Engine
  import Ddl
  import opened Databases
  import opened Common
  import opened Creation
  import opened Effects
  import opened Sqlite
  import opened UpsertTexts
  import opened UpsertEffects

  /** The clauses of ON CONFLICT: each column after the id with its own placeholder. */
  method BuildUpdateClause(columns: seq<string>, placeholders: seq<string>) returns (clauses: seq<string>)
    requires 0 < |columns| <= |placeholders|
    ensures |clauses| == |columns| - 1
    ensures forall i :: 0 <= i < |clauses| ==> clauses[i] == columns[i + 1] + " = " + placeholders[i + 1]
  {
    clauses := [];
    for i := 1 to |columns|
      invariant |clauses| == i - 1
      invariant forall j :: 0 <= j < |clauses| ==> clauses[j] == columns[j + 1] + " = " + placeholders[j + 1]
    {
      clauses := clauses + [columns[i] + " = " + placeholders[i]];
    }
  }

  /** They set each column to the parameter its own value was inserted under. */
  lemma ClausesReuse(columns: seq<string>, clauses: seq<string>)
    requires |columns| > 0 && |clauses| == |columns| - 1
    requires var placeholders := Placeholders(DOLLAR, 1, |columns|);
             forall i :: 0 <= i < |clauses| ==> clauses[i] == columns[i + 1] + " = " + placeholders[i + 1]
    ensures clauses == SetClauses(Bares(columns[1..]), DOLLAR, 2)
  {
  }

  method Insert(db: Database?, sch: Option<Schema>, marshal: Marshal, obj: Object) returns (out: Outcome<bool>)
    requires db != null ==> AllHealthy(db.tables)
    modifies db
    ensures db != null ==> AllHealthy(db.tables)
    ensures var refusal := Refusal(db != null, sch, marshal, obj);
            refusal.Some? ==> out == refusal.value && (db != null ==> db.tables == old(db.tables))
    ensures Refusal(db != null, sch, marshal, obj) == None && !ColumnsKnown(sch.value[obj.tableName], obj.fields) ==>
              out.Err? && out.reason.UnknownField? && db.tables == old(db.tables)
    ensures Refusal(db != null, sch, marshal, obj) == None && ColumnsKnown(sch.value[obj.tableName], obj.fields)
            && Installed(sch.value, old(db.tables), db.driver, obj.tableName) ==>
              var (after, n) := ConflictOutcome(old(db.tables), db.driver, Lower(obj.tableName), obj.id,
                                                InsertStored(marshal, sch.value[obj.tableName], obj.fields));
              db.tables == after && out == if n == None then Err(Storage) else Ok(true)
  {
    hide RunText, ConflictText, ConflictOutcome, Healthy, InsertStored, Carries, Fault, InsertText, IsIdent,
         ByTheGuards, ColumnMatches, FoldsApart, Placeholders;
    var refusal := Admit(db != null, sch, marshal, obj);
    if refusal.Some? {
      return refusal.value;
    }
    ghost var installed := Installed(sch.value, db.tables, db.driver, obj.tableName);
    var tbl := sch.value[obj.tableName];
    var order := RangeOver(obj.fields.Keys);
    var columns, placeholders, values, err := PrepareInsertData(obj, tbl, DOLLAR, marshal, order);
    UnknownIsNoticed(marshal, tbl, obj.fields, order);
    if err != None {
      return Err(err.value);
    }
    var clauses := BuildUpdateClause(columns, placeholders);
    ClausesReuse(columns, clauses);
    assert columns[1..] == NonId(order);
    var query := ConflictText(tbl.name, columns, placeholders, clauses);
    if installed {
      InsertCarries(tbl, db.tables[Lower(tbl.name)], db.driver, marshal, obj.fields, order);
      ConflictTextRuns(db.tables, db.driver, tbl.name, obj.id, NonId(order),
                       Stored(marshal, tbl, obj.fields, NonId(order)), InsertStored(marshal, tbl, obj.fields));
    }
    var affected := db.Exec(query, values);
    return if affected == None then Err(Storage) else Ok(true);
  }

  /** The numbered UPDATE, with the id under the number after the last clause. */
  method Update(db: Database?, sch: Option<Schema>, obj: Object) returns (out: Outcome<bool>, ghost order: seq<string>)
    requires db != null ==> AllHealthy(db.tables)
    modifies db
    ensures db != null ==> AllHealthy(db.tables)
    ensures db == null ==> out == Err(NotConnected)
    ensures db != null && sch == None ==> out == Err(NoSchema)
    ensures db != null && sch.Some? && obj.tableName !in sch.value ==> out == Panic
    ensures RangeOrder(order, obj.fields.Keys)
    ensures db != null && !out.Ok? ==> db.tables == old(db.tables)
    ensures db != null && sch.Some? && Installed(sch.value, old(db.tables), db.driver, obj.tableName)
            && PlainObject(obj) ==>
              (db.tables, out) == UpdateSpec(sch.value, old(db.tables), db.driver, obj, order)
  {
    hide RunText, UpdateText, UpdateInOrder, Healthy, Spells, ColumnMatches, FoldsApart, PlainObject, Respelled,
         RangeOrder, OtherNames;
    order := SomeOrder(obj.fields);
    if db == null {
      out := Err(NotConnected);
      return;
    }
    if sch == None {
      out := Err(NoSchema);
      return;
    }
    if obj.tableName !in sch.value {
      out := Panic;
      return;
    }
    var tbl := sch.value[obj.tableName];
    var ranged := RangeOver(obj.fields.Keys);
    order := ranged;
    var prepared := PrepareUpdateData(obj, DOLLAR, ranged);
    if prepared.Panic? {
      out := Panic;
      return;
    }
    var (setClauses, values) := prepared.value;
    var query := UpdateText(tbl.name, setClauses, "id = " + Placeholder(DOLLAR, |setClauses| + 1));
    if Installed(sch.value, db.tables, db.driver, obj.tableName) && PlainObject(obj) {
      NumberedUpdateRuns(sch.value, db.tables, db.driver, obj, order);
    }
    var affected := db.Exec(query, values);
    out := if affected == None then Err(Storage) else Ok(affected.value > 0);
  }

  lemma NumberedUpdateRuns(sch: Schema, tables: Tables, driver: Driver, obj: Object, order: seq<string>)
    requires AllHealthy(tables) && Installed(sch, tables, driver, obj.tableName)
    requires PlainObject(obj) && RangeOrder(order, obj.fields.Keys) && Covers(obj.fields, NonId(order))
    ensures Covers(UpdateStored(obj.fields), NonId(order))
    ensures var names := NonId(order); var stored := UpdateStored(obj.fields);
            RunText(tables, driver,
                    UpdateText(sch[obj.tableName].name, SetClauses(Bares(names), DOLLAR, 1),
                               "id = " + Placeholder(DOLLAR, |names| + 1)),
                    FieldValues(obj.fields, names) + [Str(obj.id)])
            == if stored == map[] then (tables, None)
               else UpdateInOrder(tables, driver, Lower(obj.tableName), obj.id, stored, names)
  {
    hide RunText, UpdateText, UpdateInOrder, Healthy, Spells, ColumnMatches, FoldsApart, PlainObject, Respelled;
    UpdateCarries(obj, order);
    var names := NonId(order);
    OwnSpelling(names, FieldValues(obj.fields, names), UpdateStored(obj.fields));
    KeyCondition(Placeholder(DOLLAR, |names| + 1));
    UpdateTextDoes(tables, driver, DOLLAR, sch[obj.tableName].name, "id", names, obj.id, names,
                   FieldValues(obj.fields, names), UpdateStored(obj.fields));
  }

  lemma KeyCondition(p: string)
    ensures "id = " + p == Condition("id", p) && IsIdent("id") && Lower("id") == "id"
  {
    Ddl.IdIsIdent();
    assert "id" + " = " == "id = ";
  }
}
