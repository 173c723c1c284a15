/** Objects that are read and then written again. */
module WriteBack {
  import opened Outcomes
  import opened Text
  import opened Values
  import opened Sql
  import opened Engine
  import opened Ddl
  import opened Databases
  import opened Common
  import opened Scanner
  import opened DriverLaws
  import opened Effects
  import opened Creation
  import opened Sqlite
  import opened SqliteRuns
  import opened SqliteLaws

  // ---------------------------------------------------------------- cells as kept

  /** Every stored cell is as its column keeps it. */
  ghost predicate Settled(t: Table, driver: Driver) {
    forall k <- t.rows :: SettledRow(t.cols, driver, t.rows[k])
  }

  ghost predicate SettledRow(cols: map<string, ColDef>, driver: Driver, row: Row) {
    forall c <- cols :: c in row ==> driver.keep(cols[c].dataType, row[c]) == row[c]
  }

  ghost predicate AllSettled(sch: Schema, tables: Tables, driver: Driver) {
    forall n <- sch :: Lower(n) in tables ==> Settled(tables[Lower(n)], driver)
  }

  lemma KeptIsSettled(cols: map<string, ColDef>, driver: Driver, given: map<string, Cell>)
    requires Lawful(driver)
    ensures SettledRow(cols, driver, Kept(cols, driver, given))
  {
    forall c | c in cols && c in given
      ensures driver.keep(cols[c].dataType, driver.keep(cols[c].dataType, given[c])) ==
              driver.keep(cols[c].dataType, given[c])
    {
      KeepLaws(driver, cols[c].dataType, given[c]);
    }
    hide Lawful;
  }

  lemma DefaultIsSettled(info: TableInfo, cols: map<string, ColDef>, driver: Driver, c: string)
    requires Lawful(driver) && Mirrors(info, cols, driver) && c in cols
    ensures driver.keep(cols[c].dataType, cols[c].dflt) == cols[c].dflt
  {
    var n := ColumnOf(info, cols, driver, c);
    var f := info.fields[n];
    assert ColumnMatches(cols, f, driver);
    KeepLaws(driver, f.dataType, Null);
    if f.dflt.Some? { KeepLaws(driver, f.dataType, Text(f.dflt.value)); }
    hide Lawful, Mirrors;
  }

  lemma FillIsSettled(info: TableInfo, cols: map<string, ColDef>, driver: Driver, given: map<string, Cell>,
                      orReplace: bool)
    requires Lawful(driver) && Mirrors(info, cols, driver)
    ensures SettledRow(cols, driver, Fill(cols, Kept(cols, driver, given), orReplace))
  {
    KeptIsSettled(cols, driver, given);
    forall c | c in cols ensures driver.keep(cols[c].dataType, cols[c].dflt) == cols[c].dflt {
      DefaultIsSettled(info, cols, driver, c);
    }
    hide Lawful, Mirrors;
  }

  lemma ReplaceSettles(info: TableInfo, tables: Tables, driver: Driver, table: string, id: string,
                       stored: map<string, Value>)
    requires Lawful(driver) && AllHealthy(tables) && table in tables && Mirrors(info, tables[table].cols, driver)
    requires Settled(tables[table], driver)
    ensures var after := ReplaceOutcome(tables, driver, table, id, stored).0;
            after == tables || (table in after && after == tables[table := after[table]]
                                && Settled(after[table], driver))
  {
    hide Lawful, Mirrors, Healthy, Fill, ReplaceRow, Kept, CellMap, SettledRow, Bindable;
    var t := tables[table];
    HealthyIsShaped(t.cols, t.rows);
    FillIsSettled(info, t.cols, driver, CellMap(stored), true);
    RowSettles(t, driver, id, Kept(t.cols, driver, CellMap(stored)));
  }

  lemma RowSettles(t: Table, driver: Driver, id: string, given: map<string, Cell>)
    requires Settled(t, driver) && WellShaped(t.cols, t.rows)
    requires SettledRow(t.cols, driver, Fill(t.cols, given, true))
    ensures var e := ReplaceRow(t.cols, t.rows, id, given, true); e.Done? ==> Settled(t.(rows := e.rows), driver)
  {
    hide NotNullHolds, Blockers, Fill, SettledRow;
  }

  lemma SetSettles(tables: Tables, driver: Driver, table: string, id: string, given: map<string, Cell>)
    requires Lawful(driver) && AllHealthy(tables) && table in tables && Settled(tables[table], driver)
    ensures var after := RowSet(tables, driver, table, id, given).0;
            after == tables || (table in after && after == tables[table := after[table]]
                                && Settled(after[table], driver))
  {
    hide Lawful, Healthy, UpdateRow, Kept, SettledRow;
    var t := tables[table];
    HealthyIsShaped(t.cols, t.rows);
    KeptIsSettled(t.cols, driver, given);
    UpdateSettles(t, driver, id, Kept(t.cols, driver, given));
    assert tables[table := t.(rows := t.rows)] == tables;
  }

  lemma UpdateSettles(t: Table, driver: Driver, id: string, given: map<string, Cell>)
    requires Settled(t, driver) && WellShaped(t.cols, t.rows) && SettledRow(t.cols, driver, given)
    ensures var e := UpdateRow(t.cols, t.rows, id, given);
            && (e.Done? ==> Settled(t.(rows := e.rows), driver))
            && (e.Done? && id !in t.rows ==> e.rows == t.rows)
  {
    if id in t.rows {
      assert SettledRow(t.cols, driver, t.rows[id] + given);
    }
    hide NotNullHolds, Blockers, SettledRow;
  }

  lemma StillSettled(sch: Schema, tables: Tables, driver: Driver, table: string, after: Tables)
    requires AllSettled(sch, tables, driver)
    requires after == tables || (table in after && after == tables[table := after[table]]
                                 && Settled(after[table], driver))
    ensures AllSettled(sch, after, driver)
  {
    hide Settled;
  }

  /** Every call leaves cells as their columns keep them. */
  lemma StepKeepsSettled(sch: Schema, tables: Tables, driver: Driver, marshal: Marshal, call: Call)
    requires Lawful(driver) && AllInstalled(sch, tables, driver) && Possible(call) && AllSettled(sch, tables, driver)
    ensures AllSettled(sch, Step(sch, tables, driver, marshal, call).0, driver)
  {
    hide Lawful, Mirrors, Healthy, BuiltByAddField, ReplaceOutcome, RowSet, Settled, RangeOrder, Marshals,
         ColumnsKnown, InsertStored, LastCells, Bindable, FirstFault, PlainObject, IsIdent;
    var name := TableOf(call.cmd);
    var after := Step(sch, tables, driver, marshal, call).0;
    if name in sch { assert Installed(sch, tables, driver, name); }
    match call.cmd {
      case InsertCmd(obj) => InsertKeepsSettled(sch, tables, driver, marshal, obj, call.order);
      case UpsertCmd(obj) => InsertKeepsSettled(sch, tables, driver, marshal, obj, call.order);
      case UpdateCmd(obj) =>
        if name in sch {
          RangeStored(call.order, obj.fields);
          SetSettles(tables, driver, Lower(name), obj.id, LastCells(UpdateStored(obj.fields), NonId(call.order)));
          StillSettled(sch, tables, driver, Lower(name), after);
        }
      case DeleteCmd(_, id) =>
        if Lower(name) in tables { DeleteKeepsSettled(sch, tables, driver, Lower(name), id); }
      case FindCmd(_, _) =>
    }
  }

  lemma InsertKeepsSettled(sch: Schema, tables: Tables, driver: Driver, marshal: Marshal, obj: Object,
                           order: seq<string>)
    requires Lawful(driver) && AllInstalled(sch, tables, driver) && RangeOrder(order, obj.fields.Keys)
             && AllSettled(sch, tables, driver)
    ensures AllSettled(sch, InsertStep(sch, tables, driver, marshal, obj, order).0, driver)
  {
    hide Lawful, Mirrors, Healthy, BuiltByAddField, ReplaceOutcome, Settled, RangeOrder, InsertStored, FirstFault;
    if Marshals(marshal, obj.fields) && obj.tableName in sch && ColumnsKnown(sch[obj.tableName], obj.fields) {
      assert Installed(sch, tables, driver, obj.tableName);
      var stored := InsertStored(marshal, sch[obj.tableName], obj.fields);
      ReplaceSettles(sch[obj.tableName], tables, driver, Lower(obj.tableName), obj.id, stored);
      StillSettled(sch, tables, driver, Lower(obj.tableName),
                   ReplaceOutcome(tables, driver, Lower(obj.tableName), obj.id, stored).0);
    }
  }

  lemma DeleteKeepsSettled(sch: Schema, tables: Tables, driver: Driver, table: string, id: string)
    requires AllSettled(sch, tables, driver) && table in tables
    ensures AllSettled(sch, tables[table := tables[table].(rows := tables[table].rows - {id})], driver)
  {
    hide SettledRow;
  }

  /** And so does every run. */
  lemma {:induction false} RunKeepsSettled(sch: Schema, tables: Tables, driver: Driver, marshal: Marshal,
                                           calls: seq<Call>)
    requires Lawful(driver) && AllInstalled(sch, tables, driver) && AllSettled(sch, tables, driver)
    requires forall i :: 0 <= i < |calls| ==> Possible(calls[i])
    ensures AllSettled(sch, Run(sch, tables, driver, marshal, calls).0, driver)
  {
    hide Lawful, AllInstalled, AllSettled, Possible, Step;
    if calls != [] {
      var k := |calls| - 1;
      RunKeepsSettled(sch, tables, driver, marshal, calls[..k]);
      StepKeepsSettled(sch, Run(sch, tables, driver, marshal, calls[..k]).0, driver, marshal, calls[k]);
    }
  }

  // ---------------------------------------------------------------- read, then write back

  /** fields are the readings of the row. */
  ghost predicate Decoded(driver: Driver, info: TableInfo, row: Row, fields: map<string, Value>) {
    && SeesRow(info, row) && fields.Keys == info.fields.Keys
    && forall n <- info.fields :: n != "id" ==> Some(fields[n]) == Reading(driver, info.fields[n], row[Lower(n)])
  }

  /** Every cell of the row survives being read and written back. */
  ghost predicate RowAtHome(driver: Driver, info: TableInfo, row: Row)
    requires SeesRow(info, row)
  {
    forall n <- info.fields :: n != "id" ==> AtHome(driver, info.fields[n], row[Lower(n)])
  }

  lemma NonIdFields(info: TableInfo, fields: map<string, Value>)
    requires FoldsApart(info.fields.Keys) && "id" in info.fields && fields.Keys == info.fields.Keys
    ensures UpdateStored(fields).Keys == info.fields.Keys - {"id"} && FoldsApart(UpdateStored(fields).Keys)
  {
    hide FoldsApart, IsId;
    forall n | n in info.fields ensures IsId(n) <==> n == "id" {
      if IsId(n) { OnlyIdIsId(info, n); }
      if n == "id" { IdIsId(); }
    }
    assert UpdateStored(fields).Keys == info.fields.Keys - {"id"};
    FewerFoldApart(info.fields.Keys, info.fields.Keys - {"id"});
  }

  lemma IdIsId()
    ensures IsId("id")
  {
    LowerId();
  }

  /** One column of an object that was read, as an UPDATE would keep it. */
  lemma WrittenCell(info: TableInfo, cols: map<string, ColDef>, driver: Driver, row: Row, fields: map<string, Value>,
                    n: string)
    requires Lawful(driver) && Mirrors(info, cols, driver) && Decoded(driver, info, row, fields)
             && SettledRow(cols, driver, row)
    requires n in info.fields && n != "id" && row.Keys == cols.Keys
    ensures n in UpdateStored(fields) && UpdateStored(fields)[n] == fields[n] && Lower(n) in cols
    ensures Bind(fields[n]).Some? && (Bind(fields[n]) == Some(Null) <==> row[Lower(n)] == Null)
    ensures Lower(n) in KeptCells(cols, driver, UpdateStored(fields))
    ensures KeptCells(cols, driver, UpdateStored(fields))[Lower(n)] ==
            driver.keep(info.fields[n].dataType, BoundCell(fields[n]))
    ensures driver.keep(info.fields[n].dataType, BoundCell(fields[n])) == row[Lower(n)] <==>
            AtHome(driver, info.fields[n], row[Lower(n)])
  {
    NonIdFields(info, fields);
    assert ColumnMatches(cols, info.fields[n], driver);
    ReadThenKept(driver, info.fields[n], row[Lower(n)]);
    hide Lawful, FoldsApart, IsIdent, AtHome, Reading, IsId, BoundCell;
    CellMapAt(UpdateStored(fields), n);
  }

  lemma BoundIsBind(v: Value)
    requires Bind(v).Some?
    ensures Bind(v) == Some(BoundCell(v))
  {
  }

  lemma WrittenKeys(info: TableInfo, cols: map<string, ColDef>, driver: Driver, row: Row, fields: map<string, Value>)
    requires Mirrors(info, cols, driver) && Decoded(driver, info, row, fields)
    ensures SeesRow(info, row) && fields.Keys == info.fields.Keys && "id" in fields
    ensures UpdateStored(fields).Keys == info.fields.Keys - {"id"} && FoldsApart(UpdateStored(fields).Keys)
    ensures KeptCells(cols, driver, UpdateStored(fields)).Keys == cols.Keys
  {
    hide Reading, IsId, IsIdent, ColumnMatches, FoldsApart;
    NonIdFields(info, fields);
  }

  /** The fields of an object that was read, as an UPDATE keeps them, are the row they were read
      from exactly when every cell of it is at home. */
  lemma WriteBackCells(info: TableInfo, cols: map<string, ColDef>, driver: Driver, row: Row, fields: map<string, Value>)
    requires Lawful(driver) && Mirrors(info, cols, driver) && row.Keys == cols.Keys
    requires Decoded(driver, info, row, fields) && SettledRow(cols, driver, row)
    ensures Bindable(UpdateStored(fields)) && KeptCells(cols, driver, UpdateStored(fields)).Keys == cols.Keys
    ensures forall c <- cols :: KeptCells(cols, driver, UpdateStored(fields))[c] == Null ==> row[c] == Null
    ensures KeptCells(cols, driver, UpdateStored(fields)) == row <==> RowAtHome(driver, info, row)
  {
    hide Lawful, Decoded, Bind, ColumnMatches, BoundCell, IsId, FoldsApart, AtHome, SettledRow, KeptCells, IsIdent,
         Mirrors, UpdateStored, Lower, Reading;
    var stored := UpdateStored(fields);
    WrittenKeys(info, cols, driver, row, fields);
    forall n | n in info.fields && n != "id"
      ensures n in stored && stored[n] == fields[n] && Bind(fields[n]).Some? && Lower(n) in cols
      ensures KeptCells(cols, driver, stored)[Lower(n)] == row[Lower(n)] <==>
              AtHome(driver, info.fields[n], row[Lower(n)])
      ensures KeptCells(cols, driver, stored)[Lower(n)] == Null ==> row[Lower(n)] == Null
    {
      WrittenCell(info, cols, driver, row, fields, n);
      KeepLaws(driver, info.fields[n].dataType, BoundCell(fields[n]));
      BoundIsBind(fields[n]);
    }
    forall c | c in cols
      ensures KeptCells(cols, driver, stored)[c] == Null ==> row[c] == Null
      ensures RowAtHome(driver, info, row) ==> KeptCells(cols, driver, stored)[c] == row[c]
    {
      var n := ColumnOf(info, cols, driver, c);
    }
  }

  lemma SameRowStays(cols: map<string, ColDef>, rows: Rows, id: string)
    requires Healthy(cols, rows) && id in rows
    ensures UpdateRow(cols, rows, id, rows[id]) == Done(rows, 1)
    ensures Blockers(cols, rows, id, rows[id]) == {id}
  {
    var row := rows[id];
    assert row + row == row;
    assert Blockers(cols, rows, id, row) == {id} by {
      forall k | k in rows && k != id ensures !Clash(cols, rows[k], row) {
      }
    }
    assert rows[id := row] == rows;
  }

  /** The row under id was read, and o is the object; its cells are as the columns keep them. */
  ghost predicate WasRead(sch: Schema, tables: Tables, driver: Driver, name: string, id: string, o: Object) {
    && Lawful(driver) && AllInstalled(sch, tables, driver) && AllSettled(sch, tables, driver) && name in sch
    && Lower(name) in tables && id in tables[Lower(name)].rows && SeesRow(sch[name], tables[Lower(name)].rows[id])
    && Read(driver, sch[name], id, tables[Lower(name)].rows[id]) == Ok(Some(o))
  }

  lemma ReadFacts(sch: Schema, tables: Tables, driver: Driver, name: string, id: string, o: Object)
    requires WasRead(sch, tables, driver, name, id, o)
    ensures o.tableName == name && o.id == id && o.fields.Keys == sch[name].fields.Keys && "id" in o.fields
    ensures var t := tables[Lower(name)];
            && Healthy(t.cols, t.rows) && t.rows[id].Keys == t.cols.Keys && SettledRow(t.cols, driver, t.rows[id])
            && Mirrors(sch[name], t.cols, driver) && Decoded(driver, sch[name], t.rows[id], o.fields)
    ensures UpdateStored(o.fields).Keys == sch[name].fields.Keys - {"id"} && FoldsApart(UpdateStored(o.fields).Keys)
    ensures PlainObject(o)
  {
    hide Bind, ColumnMatches, BuiltByAddField, IsIdent, FoldsApart, Decode, Read, Lawful, SettledRow;
    var info, t := sch[name], tables[Lower(name)];
    assert Installed(sch, tables, driver, name);
    ReadRow(driver, info, id, t.rows[id]);
    RowOfTable(t, id);
    assert Settled(t, driver);
    assert "id" in info.fields;
    NonIdFields(info, o.fields);
    forall n | n in o.fields && !IsId(n) ensures IsIdent(n) {
      assert n in info.fields;
    }
  }

  lemma RowOfTable(t: Table, id: string)
    requires Healthy(t.cols, t.rows) && id in t.rows
    ensures t.rows[id].Keys == t.cols.Keys
  {
    assert NotNullHolds(t.cols, t.rows[id]);
  }

  /** What an UPDATE with an object that was read does, in any range order. */
  lemma WriteBackSets(sch: Schema, tables: Tables, driver: Driver, name: string, id: string, o: Object,
                      order: seq<string>)
    requires WasRead(sch, tables, driver, name, id, o) && RangeOrder(order, o.fields.Keys)
    ensures o.tableName == name && o.id == id && Bindable(UpdateStored(o.fields))
    ensures var (after, n) := RowSet(tables, driver, Lower(name), id, CellMap(UpdateStored(o.fields)));
            UpdateSpec(sch, tables, driver, o, order) ==
              if sch[name].fields.Keys == {"id"} then (tables, Err(Storage))
              else (after, if n == None then Err(Storage) else Ok(n.value > 0))
  {
    hide Mirrors, BuiltByAddField, FoldsApart, Read, SeesRow, PlainObject, CellMap, Decoded, Healthy, Lawful,
         RangeOrder, RowSet, KeptCells, LastCells, RowAtHome, Lists, SettledRow, Installed;
    ReadFacts(sch, tables, driver, name, id, o);
    var t := tables[Lower(name)];
    WriteBackCells(sch[name], t.cols, driver, t.rows[id], o.fields);
    RangeStored(order, o.fields);
    InOrderIsOutcome(tables, driver, Lower(name), id, UpdateStored(o.fields), NonId(order));
    assert UpdateStored(o.fields) == map[] <==> UpdateStored(o.fields).Keys == {};
    assert "id" in sch[name].fields;
  }

  /** Writing an object back as it was read changes nothing exactly when every cell of the row is
      at home: JSON and null columns always are. */
  lemma WriteBackIsIdentity(sch: Schema, tables: Tables, driver: Driver, marshal: Marshal, name: string, id: string,
                            o: Object, order: seq<string>)
    requires WasRead(sch, tables, driver, name, id, o) && RangeOrder(order, o.fields.Keys)
    ensures Possible(Call(UpdateCmd(o), order))
    ensures sch[name].fields.Keys == {"id"} ==>
              Step(sch, tables, driver, marshal, Call(UpdateCmd(o), order)) == (tables, Flag(Err(Storage)))
    ensures sch[name].fields.Keys != {"id"} ==>
              (Step(sch, tables, driver, marshal, Call(UpdateCmd(o), order)) == (tables, Flag(Ok(true))) <==>
               RowAtHome(driver, sch[name], tables[Lower(name)].rows[id]))
  {
    hide Mirrors, BuiltByAddField, FoldsApart, Read, SeesRow, PlainObject, CellMap, Decoded, Lawful, RangeOrder,
         UpdateSpec, RowAtHome, SettledRow, Bindable, Installed, AllSettled, RowSet, Healthy, Kept, UpdateStored;
    ReadFacts(sch, tables, driver, name, id, o);
    WriteBackSets(sch, tables, driver, name, id, o, order);
    var t, stored := tables[Lower(name)], UpdateStored(o.fields);
    WriteBackCells(sch[name], t.cols, driver, t.rows[id], o.fields);
    SameRowOrNot(tables, driver, Lower(name), id, CellMap(stored));
  }

  lemma SameRowOrNot(tables: Tables, driver: Driver, table: string, id: string, given: map<string, Cell>)
    requires AllHealthy(tables) && table in tables && id in tables[table].rows
    requires Kept(tables[table].cols, driver, given).Keys == tables[table].rows[id].Keys
    ensures RowSet(tables, driver, table, id, given) == (tables, Some(1)) <==>
            Kept(tables[table].cols, driver, given) == tables[table].rows[id]
    ensures RowSet(tables, driver, table, id, given).1 in {None, Some(1)}
  {
    var t := tables[table];
    var kept := Kept(t.cols, driver, given);
    HealthyIsShaped(t.cols, t.rows);
    SameRowStays(t.cols, t.rows, id);
    assert tables[table := t.(rows := t.rows)] == tables;
    hide Healthy, Kept, NotNullHolds, Blockers;
    assert t.rows[id] + kept == kept;
    if kept != t.rows[id] && UpdateRow(t.cols, t.rows, id, kept).Done? {
      assert t.rows[id := kept][id] != t.rows[id];
      assert tables[table := t.(rows := t.rows[id := kept])][table].rows != tables[table].rows;
    }
  }

  /** Any run that only reads the row and writes back what was read leaves the tables alone. */
  lemma {:induction false} WriteBackAnyTimes(sch: Schema, tables: Tables, driver: Driver, marshal: Marshal,
                                             name: string, id: string, o: Object, calls: seq<Call>)
    requires WasRead(sch, tables, driver, name, id, o) && id != "" && name != "" && sch[name].fields.Keys != {"id"}
    requires RowAtHome(driver, sch[name], tables[Lower(name)].rows[id])
    requires forall i :: 0 <= i < |calls| ==> Possible(calls[i]) && calls[i].cmd in {FindCmd(name, id), UpdateCmd(o)}
    ensures var (after, replies) := Run(sch, tables, driver, marshal, calls);
            && after == tables
            && forall i :: 0 <= i < |calls| ==>
                 replies[i] == if calls[i].cmd.FindCmd? then Fetched(Ok(Some(o))) else Flag(Ok(true))
  {
    hide Read, PlainObject, UpdateSpec, AllInstalled, RowAtHome, Lawful, AllSettled, RangeOrder;
    if calls != [] {
      var k := |calls| - 1;
      var call := calls[k];
      WriteBackAnyTimes(sch, tables, driver, marshal, name, id, o, calls[..k]);
      if call.cmd.UpdateCmd? {
        WriteBackIsIdentity(sch, tables, driver, marshal, name, id, o, call.order);
        assert call == Call(UpdateCmd(o), call.order);
      } else {
        FindReads(sch, tables, driver, marshal, name, id, o, call);
      }
      hide Step, WasRead, Possible;
      assert forall i :: 0 <= i < k ==> calls[..k][i] == calls[i];
    }
  }

  lemma FindReads(sch: Schema, tables: Tables, driver: Driver, marshal: Marshal, name: string, id: string, o: Object,
                  call: Call)
    requires WasRead(sch, tables, driver, name, id, o) && id != "" && name != "" && call.cmd == FindCmd(name, id)
    ensures AllInstalled(sch, tables, driver) && Possible(call)
    ensures Step(sch, tables, driver, marshal, call) == (tables, Fetched(Ok(Some(o))))
  {
    hide Read, AllInstalled, Lawful;
  }

  /** Changing one field of an object that was read from a row at home: the write is refused, or it
      changes exactly that column of exactly that row. */
  lemma ChangeOneField(sch: Schema, tables: Tables, driver: Driver, name: string, id: string, o: Object, n: string,
                       v: Value, order: seq<string>)
    requires WasRead(sch, tables, driver, name, id, o) && n in sch[name].fields && n != "id"
    requires RowAtHome(driver, sch[name], tables[Lower(name)].rows[id])
    requires RangeOrder(order, o.fields[n := v].Keys)
    ensures var t := tables[Lower(name)];
            var (after, out) := UpdateSpec(sch, tables, driver, Object(name, id, o.fields[n := v]), order);
            if out.Ok? then
              && out == Ok(true) && Bind(v).Some? && Lower(n) in t.rows[id]
              && after == tables[Lower(name) := t.(rows := t.rows[id := t.rows[id][Lower(n) :=
                                                   driver.keep(sch[name].fields[n].dataType, BoundCell(v))]])]
            else out == Err(Storage) && after == tables
  {
    hide Bind, Mirrors, BuiltByAddField, Read, CellMap, FoldsApart, SeesRow, Decoded, Bindable, Healthy, Lawful,
         RangeOrder, RowAtHome, SettledRow, LastCells, Lists, BoundCell, KeptCells, Installed, AllSettled, PlainObject,
         IsId, Lower;
    ReadFacts(sch, tables, driver, name, id, o);
    var t, stored := tables[Lower(name)], UpdateStored(o.fields);
    WriteBackCells(sch[name], t.cols, driver, t.rows[id], o.fields);
    ColumnHere(sch[name], t.cols, driver, n);
    assert n in stored;
    assert UpdateStored(o.fields[n := v]) == stored[n := v];
    RangeStored(order, o.fields[n := v]);
    assert stored[n := v].Keys == stored.Keys;
    InOrderIsOutcome(tables, driver, Lower(name), id, stored[n := v], NonId(order));
    OneCellChanged(t.cols, driver, stored, n, v);
    hide UpdateStored, UpdateInOrder;
    OneCellUpdate(tables, driver, Lower(name), id, stored[n := v], Lower(n), v, n);
  }

  lemma ColumnHere(info: TableInfo, cols: map<string, ColDef>, driver: Driver, n: string)
    requires Mirrors(info, cols, driver) && n in info.fields && n != "id"
    ensures Lower(n) in cols && cols[Lower(n)].dataType == info.fields[n].dataType && info.fields[n].name == n
            && !IsId(n)
  {
    assert ColumnMatches(cols, info.fields[n], driver);
    NamesItself(info, cols, driver, n);
  }

  lemma OneCellUpdate(tables: Tables, driver: Driver, table: string, id: string, stored: map<string, Value>, c: string,
                      v: Value, n: string)
    requires AllHealthy(tables) && table in tables && id in tables[table].rows && c in tables[table].rows[id]
             && c in tables[table].cols
    requires n in stored && stored[n] == v
    requires KeptCells(tables[table].cols, driver, stored) ==
             tables[table].rows[id][c := driver.keep(tables[table].cols[c].dataType, BoundCell(v))]
    ensures var t := tables[table]; var (after, affected) := UpdateOutcome(tables, driver, table, id, stored);
            if affected == None then after == tables
            else
              && affected == Some(1) && Bind(v).Some?
              && after == tables[table := t.(rows :=
                                             t.rows[id := t.rows[id][c := driver.keep(t.cols[c].dataType,
                                                     BoundCell(v))]])]
  {
    hide Bind, CellMap, BoundCell, Kept;
    var t := tables[table];
    var row := t.rows[id][c := driver.keep(t.cols[c].dataType, BoundCell(v))];
    assert t.rows[id] + row == row;
  }

  lemma OneCellChanged(cols: map<string, ColDef>, driver: Driver, stored: map<string, Value>, n: string, v: Value)
    requires FoldsApart(stored.Keys) && n in stored && Lower(n) in cols
    ensures Lower(n) in KeptCells(cols, driver, stored)
    ensures KeptCells(cols, driver, stored[n := v]) ==
            KeptCells(cols, driver, stored)[Lower(n) := driver.keep(cols[Lower(n)].dataType, BoundCell(v))]
  {
    hide Lower, BoundCell;
    var stored' := stored[n := v];
    assert stored'.Keys == stored.Keys;
    CellMapAt(stored, n);
    forall c | c in FoldAll(stored.Keys)
      ensures CellMap(stored')[c] == CellMap(stored)[Lower(n) := BoundCell(v)][c]
    {
      var m := NameFor(stored.Keys, c);
      CellMapAt(stored, m);
      CellMapAt(stored', m);
    }
  }

  // ---------------------------------------------------------------- insert what was read

  /** What json.Marshal makes of the values a JSON column is read as: a string gains its quotes, and
      nil is the text null. */
  ghost predicate QuotesStrings(marshal: Marshal) {
    && (forall s: string {:trigger marshal(Str(s))} ::
          marshal(Str(s)).Some? ==> |marshal(Str(s)).value| > |s| && marshal(Str(s)).value[0] == '"')
    && (marshal(Nil).Some? ==> marshal(Nil).value == "null")
  }

  /** There is such an encoding. */
  lemma SomeMarshalQuotes() returns (marshal: Marshal)
    ensures QuotesStrings(marshal)
  {
    marshal := (v: Value) => if v.Str? then Some("\"" + v.s + "\"") else Some("null");
  }

  /** No column but id is of type JSON. */
  ghost predicate NoJson(info: TableInfo) {
    forall n <- info.fields :: n != "id" ==> Lower(info.fields[n].dataType) != "json"
  }

  lemma JsonReading(driver: Driver, f: ColumnData, cell: Cell)
    requires Lawful(driver) && IsJson(f) && Reading(driver, f, cell).Some?
    ensures Reading(driver, f, cell).value == if cell == Null then Nil else Str(TextOf(driver, cell))
  {
    hide Lawful, IsJson, FamilyOf, IsDate, Upper;
    JsonIsText(f);
    FetchLaws(driver, f.dataType, cell);
  }

  /** A JSON column that was read and is encoded again holds the new encoding, which is another cell. */
  lemma EncodedAgain(driver: Driver, f: ColumnData, marshal: Marshal, cell: Cell, v: Value)
    requires Lawful(driver) && QuotesStrings(marshal) && IsJson(f)
    requires Reading(driver, f, cell) == Some(v) && marshal(v).Some?
    ensures driver.keep(f.dataType, Text(marshal(v).value)) == Text(marshal(v).value)
    ensures Text(marshal(v).value) != cell
  {
    hide Lawful, IsJson, IsDate, Upper, Reading, FamilyOf;
    JsonIsText(f);
    JsonReading(driver, f, cell);
    if v.Str? {
      assert marshal(Str(v.s)).Some?;
    }
    TextLaws(driver, f.dataType, marshal(v).value, cell);
  }

  /** What an Insert stores for a field. */
  lemma StoredField(marshal: Marshal, info: TableInfo, fields: map<string, Value>, n: string)
    ensures n in InsertStored(marshal, info, fields) <==>
              n in fields && !IsId(n) && n in info.fields && (IsJson(info.fields[n]) ==> marshal(fields[n]).Some?)
    ensures n in InsertStored(marshal, info, fields) ==>
              InsertStored(marshal, info, fields)[n] ==
                if IsJson(info.fields[n]) then Str(marshal(fields[n]).value) else fields[n]
  {
    hide IsJson, IsId;
  }

  /** One column of an object that was read, as an INSERT leaves it. */
  lemma ReinsertedCell(info: TableInfo, cols: map<string, ColDef>, driver: Driver, marshal: Marshal, row: Row,
                       fields: map<string, Value>, n: string)
    requires Lawful(driver) && QuotesStrings(marshal) && Marshals(marshal, fields)
    requires Mirrors(info, cols, driver) && Decoded(driver, info, row, fields) && SettledRow(cols, driver, row)
    requires n in info.fields && n != "id" && row.Keys == cols.Keys && NotNull(info.fields[n], row[Lower(n)])
    ensures n in fields && marshal(fields[n]).Some?
    ensures var cell := FinalCell(info.fields[n], driver, InsertStored(marshal, info, fields));
            && (cell == Null ==> row[Lower(n)] == Null)
            && (cell == row[Lower(n)] <==> !IsJson(info.fields[n]) && AtHome(driver, info.fields[n], row[Lower(n)]))
            && (IsJson(info.fields[n]) ==> cell == Text(marshal(fields[n]).value))
  {
    hide IsId, Lawful, IsJson, AtHome, Reading, FoldsApart, IsIdent, FamilyOf, InsertStored, Mirrors, SettledRow,
         UpdateStored, KeptCells, Bind, BoundCell, QuotesStrings, Lower;
    var f, stored := info.fields[n], InsertStored(marshal, info, fields);
    ColumnHere(info, cols, driver, n);
    WrittenCell(info, cols, driver, row, fields, n);
    KeepLaws(driver, f.dataType, BoundCell(fields[n]));
    BoundIsBind(fields[n]);
    WrittenKeys(info, cols, driver, row, fields);
    StoredField(marshal, info, fields, n);
    if IsJson(f) {
      EncodedAgain(driver, f, marshal, row[Lower(n)], fields[n]);
      TextBinds(marshal(fields[n]).value);
    }
  }

  lemma TextBinds(s: string)
    ensures BoundCell(Str(s)) == Text(s)
  {
  }

  lemma CellNotNull(info: TableInfo, t: Table, driver: Driver, id: string, n: string)
    requires Mirrors(info, t.cols, driver) && Healthy(t.cols, t.rows) && id in t.rows && n in info.fields && n != "id"
    ensures Lower(n) in t.rows[id] && NotNull(info.fields[n], t.rows[id][Lower(n)])
  {
    hide IsIdent;
    assert ColumnMatches(t.cols, info.fields[n], driver);
    assert NotNullHolds(t.cols, t.rows[id]);
  }

  /** The row the INSERT leaves is acceptable, and the old one exactly when no column is JSON and
      every cell is at home. */
  lemma ReinsertedRow(info: TableInfo, t: Table, driver: Driver, marshal: Marshal, id: string,
                      fields: map<string, Value>)
    requires Lawful(driver) && QuotesStrings(marshal) && Marshals(marshal, fields)
    requires Mirrors(info, t.cols, driver) && Healthy(t.cols, t.rows) && id in t.rows && t.rows[id].Keys == t.cols.Keys
    requires Decoded(driver, info, t.rows[id], fields) && SettledRow(t.cols, driver, t.rows[id])
    ensures var row := Fill(t.cols, KeptCells(t.cols, driver, InsertStored(marshal, info, fields)), true);
            && NotNullHolds(t.cols, row)
            && (row == t.rows[id] <==> NoJson(info) && RowAtHome(driver, info, t.rows[id]))
            && forall n <- info.fields :: n != "id" && IsJson(info.fields[n]) ==>
                 n in fields && marshal(fields[n]).Some? && Lower(n) in row
                   && row[Lower(n)] == Text(marshal(fields[n]).value)
  {
    hide Lawful, QuotesStrings, Mirrors, FinalCell, Decoded, IsId, Bind, KeptCells, InsertStored, Fill, Lower,
         Healthy, AtHome, SettledRow, Reading, Marshals;
    var stored := InsertStored(marshal, info, fields);
    var row := Fill(t.cols, KeptCells(t.cols, driver, stored), true);
    StoredKnown(marshal, info, fields);
    FilledHolds(info, t.cols, driver, stored);
    forall n | n in info.fields && n != "id"
      ensures n in fields && marshal(fields[n]).Some? && Lower(n) in t.cols
      ensures row[Lower(n)] == Null ==> t.rows[id][Lower(n)] == Null
      ensures row[Lower(n)] == t.rows[id][Lower(n)] <==>
              !IsJson(info.fields[n]) && AtHome(driver, info.fields[n], t.rows[id][Lower(n)])
      ensures IsJson(info.fields[n]) ==> row[Lower(n)] == Text(marshal(fields[n]).value)
    {
      CellNotNull(info, t, driver, id, n);
      ColumnHere(info, t.cols, driver, n);
      ReinsertedCell(info, t.cols, driver, marshal, t.rows[id], fields, n);
    }
    forall c | c in t.cols
      ensures t.cols[c].notNull ==> row[c] != Null
      ensures NoJson(info) && RowAtHome(driver, info, t.rows[id]) ==> row[c] == t.rows[id][c]
    {
      var n := ColumnOf(info, t.cols, driver, c);
      CellNotNull(info, t, driver, id, n);
    }
  }

  lemma ReplaceSameOrNot(cols: map<string, ColDef>, rows: Rows, id: string, given: map<string, Cell>)
    requires Healthy(cols, rows) && id in rows && given.Keys <= cols.Keys && NotNullHolds(cols, Fill(cols, given, true))
    ensures WellShaped(cols, rows)
    ensures var e := ReplaceRow(cols, rows, id, given, true);
            && e.Done? && e.affected == 1 && id in e.rows && e.rows[id] == Fill(cols, given, true)
            && (e.rows == rows <==> Fill(cols, given, true) == rows[id])
  {
    hide Fill, Healthy, NotNullHolds;
    HealthyIsShaped(cols, rows);
    if Fill(cols, given, true) == rows[id] {
      SameRowStays(cols, rows, id);
      assert (rows - {id})[id := rows[id]] == rows;
    }
  }

  lemma ReinsertedIsBindable(info: TableInfo, cols: map<string, ColDef>, driver: Driver, marshal: Marshal, row: Row,
                             fields: map<string, Value>)
    requires Lawful(driver) && Mirrors(info, cols, driver) && Decoded(driver, info, row, fields)
             && SettledRow(cols, driver, row)
    requires row.Keys == cols.Keys
    ensures Bindable(InsertStored(marshal, info, fields)) && ColumnsKnown(info, fields)
    ensures KeptCells(cols, driver, InsertStored(marshal, info, fields)).Keys <= cols.Keys
  {
    hide Lawful, Decoded, IsJson, IsId, Reading, AtHome, FoldsApart, IsIdent, Mirrors, InsertStored, SettledRow, Lower,
         UpdateStored, KeptCells;
    var stored := InsertStored(marshal, info, fields);
    WrittenKeys(info, cols, driver, row, fields);
    IdIsId();
    forall n | n in stored ensures Bind(stored[n]).Some? && n in info.fields.Keys - {"id"} && Lower(n) in cols {
      StoredField(marshal, info, fields, n);
      ColumnHere(info, cols, driver, n);
      if !IsJson(info.fields[n]) {
        WrittenCell(info, cols, driver, row, fields, n);
      }
    }
    forall c | c in FoldAll(stored.Keys) ensures c in cols {
      var n :| n in stored && Lower(n) == c;
    }
  }

  /** Insert of an object that was read succeeds and encodes its JSON columns a second time, so the
      tables stay as they were exactly when no column but id is JSON and every cell is at home. */
  lemma InsertWhatWasRead(sch: Schema, tables: Tables, driver: Driver, marshal: Marshal, name: string, id: string,
                          o: Object, order: seq<string>)
    requires WasRead(sch, tables, driver, name, id, o) && Marshals(marshal, o.fields) && QuotesStrings(marshal)
    requires RangeOrder(order, o.fields.Keys)
    ensures var (after, out) := InsertStep(sch, tables, driver, marshal, o, order); var info := sch[name];
            && out == Ok(true) && Lower(name) in after && id in after[Lower(name)].rows
            && (after == tables <==> NoJson(info) && RowAtHome(driver, info, tables[Lower(name)].rows[id]))
            && forall n <- info.fields :: n != "id" && Lower(info.fields[n].dataType) == "json" ==>
                 && n in o.fields && marshal(o.fields[n]).Some? && Lower(n) in after[Lower(name)].rows[id]
                 && after[Lower(name)].rows[id][Lower(n)] == Text(marshal(o.fields[n]).value)
  {
    hide Mirrors, Healthy, Fill, KeptCells, InsertStored, BuiltByAddField, Read, Decoded, Bindable, FoldsApart,
         SeesRow, NotNullHolds, ReplaceRow, Lawful, RangeOrder, RowAtHome, NoJson, QuotesStrings, Marshals,
         ColumnsKnown, AllSettled, SettledRow, PlainObject, Lower;
    var info, t := sch[name], tables[Lower(name)];
    assert Installed(sch, tables, driver, name);
    ReadFacts(sch, tables, driver, name, id, o);
    var given := KeptCells(t.cols, driver, InsertStored(marshal, info, o.fields));
    ReinsertedIsBindable(info, t.cols, driver, marshal, t.rows[id], o.fields);
    ReinsertedRow(info, t, driver, marshal, id, o.fields);
    ReplaceSameOrNot(t.cols, t.rows, id, given);
    SameTables(tables, Lower(name), ReplaceRow(t.cols, t.rows, id, given, true).rows);
  }

  lemma SameTables(tables: Tables, table: string, rows: Rows)
    requires table in tables
    ensures tables[table := tables[table].(rows := rows)] == tables <==> rows == tables[table].rows
  {
    var t := tables[table];
    if rows == t.rows { assert t.(rows := rows) == t; }
    if tables[table := t.(rows := rows)] == tables {
      assert tables[table := t.(rows := rows)][table] == t;
    }
  }
}
