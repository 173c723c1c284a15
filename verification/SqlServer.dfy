/** storage/sqlserver: MERGE, its source row built from positional parameters. */
module SqlServer {
  import opened Outcomes
  import opened Text
  import opened Values
  import opened Sql
  import opened Statements
  import opened Engine
  import opened Databases
  import opened Common
  import opened Creation
  import opened Effects
  import opened Sqlite
  import opened UpsertTexts
  import opened MergeTexts
  import opened UpsertEffects

  function Bracket(name: string): string {
    "[" + name + "]"
  }

  function Clause(name: string): string {
    "[" + name + "] = source.[" + name + "]"
  }

  /** [id] and then each name in brackets. */
  function BracketedColumns(names: seq<string>): seq<string> {
    NameTexts(Brackets(["id"] + names))
  }

  /** The loop over the fields: bracketed columns, update clauses and values. */
  method BuildLists(obj: Object, tbl: TableInfo, marshal: Marshal, order: seq<string>)
    returns (columns: seq<string>, updateClauses: seq<string>, values: seq<Value>, err: Option<Reason>)
    requires RangeOrder(order, obj.fields.Keys)
    ensures Covers(obj.fields, NonId(order))
    ensures err == Fault(marshal, tbl, obj.fields, NonId(order))
    ensures err == None ==>
              && columns == BracketedColumns(NonId(order))
              && updateClauses == MergeSets(NonId(order))
              && values == [Str(obj.id)] + Stored(marshal, tbl, obj.fields, NonId(order))
    ensures ByTheGuards(marshal, tbl, obj, NonId(order), values, err)
  {
    hide IsId, IsJson, NonId, Fits, Stored, Fault, BracketedColumns, MergeSets, Bracket, Clause, RangeOrder, Covers,
         ByTheGuards;
    InRange(order, obj.fields.Keys);
    NonIdCovered(obj.fields, order);
    NothingStored(marshal, tbl, obj.fields, obj.id);
    columns, updateClauses, values := ["[id]"], [], [Str(obj.id)];
    FirstBracket();
    for k := 0 to |order|
      invariant Fits(marshal, tbl, obj.fields, NonId(order[..k]))
      invariant columns == BracketedColumns(NonId(order[..k]))
      invariant updateClauses == MergeSets(NonId(order[..k]))
      invariant values == [Str(obj.id)] + Stored(marshal, tbl, obj.fields, NonId(order[..k]))
    {
      var name := order[k];
      ghost var names := NonId(order[..k]);
      NonIdStep(order, k);
      if IsId(name) {
        continue;
      }
      NextName(order, k);
      OneMoreBracket(names, name);
      columns := columns + [Bracket(name)];
      updateClauses := updateClauses + [Clause(name)];
      if name !in tbl.fields {
        err := Some(UnknownField(name));
        FaultAt(marshal, tbl, obj.fields, NonId(order), |names|, UnknownField(name));
        LoopByTheGuards(marshal, tbl, obj, order, values, err);
        return;
      }
      var encoded := Encode(marshal, tbl.fields[name], obj.fields[name]);
      if encoded == None {
        err := Some(CannotMarshal);
        FaultAt(marshal, tbl, obj.fields, NonId(order), |names|, CannotMarshal);
        LoopByTheGuards(marshal, tbl, obj, order, values, err);
        return;
      }
      StoredStep(marshal, tbl, obj.fields, names, name, encoded.value);
      values := values + [encoded.value];
    }
    assert order[..|order|] == order;
    NoneFaulty(marshal, tbl, obj.fields, NonId(order));
    err := None;
    LoopByTheGuards(marshal, tbl, obj, order, values, err);
  }

  lemma FirstBracket()
    ensures ["[id]"] == BracketedColumns([]) && MergeSets([]) == []
  {
    assert NameText(Bracketed("id")) == "[id]";
  }

  lemma OneMoreBracket(names: seq<string>, name: string)
    ensures BracketedColumns(names + [name]) == BracketedColumns(names) + [Bracket(name)]
    ensures MergeSets(names + [name]) == MergeSets(names) + [Clause(name)]
  {
    ClauseText(name);
    hide Clause, MemberText;
  }

  lemma ClauseText(name: string)
    ensures NameText(Bracketed(name)) + " = " + MemberText(name) == Clause(name)
  {
    assert "source." + ("[" + name + "]") == "source.[" + name + "]";
  }

  /** The source row: ? AS [id] , then one aliased parameter for each further column. */
  method PrintSource(columns: seq<string>, ghost names: seq<string>) returns (source: string)
    requires columns == BracketedColumns(names)
    ensures source == SourceText(names)
  {
    hide SourceText, NameText, Alias;
    source := "? AS [id] ";
    NoColumns();
    for i := 1 to |columns|
      invariant source == SourceText(names[..i - 1])
    {
      SourceStep(names, i - 1);
      source := source + Alias(columns[i]);
    }
    assert names[..|names|] == names;
  }

  function Alias(column: string): string {
    ", ? AS " + column
  }

  lemma NoColumns()
    ensures SourceText([]) == "? AS [id] "
  {
  }

  lemma SourceStep(names: seq<string>, k: nat)
    requires k < |names|
    ensures SourceText(names[..k + 1]) == SourceText(names[..k]) + Alias(NameText(Bracketed(names[k])))
  {
    hide NameText;
    assert names[..k + 1][..k] == names[..k];
  }

  method SourceColumns(columns: seq<string>, ghost names: seq<string>) returns (sourceCols: seq<string>)
    requires columns == BracketedColumns(names)
    ensures sourceCols == MemberTexts(["id"] + names)
  {
    sourceCols := [];
    for i := 0 to |columns|
      invariant sourceCols == MemberTexts(["id"] + names)[..i]
    {
      sourceCols := sourceCols + ["source." + columns[i]];
    }
  }

  method Insert(db: Database?, sch: Option<Schema>, marshal: Marshal, obj: Object) returns (out: Outcome<bool>)
    requires db != null ==> AllHealthy(db.tables)
    modifies db
    ensures db != null ==> AllHealthy(db.tables)
    ensures var refusal := Refusal(db != null, sch, marshal, obj);
            refusal.Some? ==> out == refusal.value && (db != null ==> db.tables == old(db.tables))
    ensures Refusal(db != null, sch, marshal, obj) == None && !ColumnsKnown(sch.value[obj.tableName], obj.fields) ==>
              out.Err? && out.reason.UnknownField? && db.tables == old(db.tables)
    ensures Refusal(db != null, sch, marshal, obj) == None && ColumnsKnown(sch.value[obj.tableName], obj.fields)
            && Installed(sch.value, old(db.tables), db.driver, obj.tableName) ==>
              var (after, n) := MergeOutcome(old(db.tables), db.driver, Lower(obj.tableName), obj.id,
                                             InsertStored(marshal, sch.value[obj.tableName], obj.fields));
              db.tables == after && out == if n == None then Err(Storage) else Ok(true)
  {
    hide RunText, MergeText, MergeOutcome, Healthy, InsertStored, Carries, Fault, IsIdent, ColumnMatches, FoldsApart,
         ByTheGuards,
         SourceText, Join;
    var refusal := Admit(db != null, sch, marshal, obj);
    if refusal.Some? {
      return refusal.value;
    }
    ghost var installed := Installed(sch.value, db.tables, db.driver, obj.tableName);
    var tbl := sch.value[obj.tableName];
    var order := RangeOver(obj.fields.Keys);
    var columns, updateClauses, values, err := BuildLists(obj, tbl, marshal, order);
    UnknownIsNoticed(marshal, tbl, obj.fields, order);
    if err != None {
      return Err(err.value);
    }
    var source := PrintSource(columns, NonId(order));
    var sourceCols := SourceColumns(columns, NonId(order));
    var query := MergeText(tbl.name, source, Join(updateClauses, ", "), Join(columns, ", "), Join(sourceCols, ", "));
    if installed {
      InsertCarries(tbl, db.tables[Lower(tbl.name)], db.driver, marshal, obj.fields, order);
      MergeTextRuns(db.tables, db.driver, tbl.name, obj.id, NonId(order),
                    Stored(marshal, tbl, obj.fields, NonId(order)), InsertStored(marshal, tbl, obj.fields));
    }
    var affected := db.Exec(query, values);
    return if affected == None then Err(Storage) else Ok(true);
  }
}
