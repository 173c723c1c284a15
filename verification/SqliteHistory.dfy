/** What whole runs of the SQLite adapter keep: unique columns, row counts, untouched columns. */
module SqliteHistory {
  import opened Outcomes
  import opened Text
  import opened Values
  import opened Sql
  import opened Statements
  import opened Engine
  import opened Ddl
  import opened Databases
  import opened Common
  import opened Scanner
  import opened Effects
  import opened Creation
  import opened Sqlite
  import opened SqliteRuns
  import opened DriverLaws
  import opened SqliteLaws

  // ---------------------------------------------------------------- unique columns

  /** Two rows share a value in a column the schema calls unique. */
  ghost predicate SharesUnique(info: TableInfo, a: Row, b: Row) {
    exists n <- info.fields ::
      n != "id" && info.fields[n].unique && Lower(n) in a && Lower(n) in b && a[Lower(n)] != Null
        && a[Lower(n)] == b[Lower(n)]
  }

  lemma ClashIsSharing(info: TableInfo, cols: map<string, ColDef>, driver: Driver, a: Row, b: Row)
    requires Mirrors(info, cols, driver) && a.Keys == cols.Keys && b.Keys == cols.Keys
    ensures Clash(cols, a, b) <==> SharesUnique(info, a, b)
  {
    hide IsIdent;
    if Clash(cols, a, b) {
      var c :| c in cols && cols[c].unique && a[c] != Null && a[c] == b[c];
      var n := ColumnOf(info, cols, driver, c);
      assert ColumnMatches(cols, info.fields[n], driver);
    }
    if SharesUnique(info, a, b) {
      var n :| n in info.fields && n != "id" && info.fields[n].unique && Lower(n) in a && Lower(n) in b
               && a[Lower(n)] != Null && a[Lower(n)] == b[Lower(n)];
      assert ColumnMatches(cols, info.fields[n], driver);
    }
  }

  /** The rows an INSERT OR REPLACE of row under id takes away. */
  ghost function Evicted(info: TableInfo, rows: Rows, id: string, row: Row): set<string> {
    set k | k in rows && (k == id || SharesUnique(info, rows[k], row))
  }

  /** A successful Insert takes away exactly the rows with the same id or a shared unique value,
      adds its own, and leaves the others alone. */
  lemma InsertEvicts(sch: Schema, tables: Tables, driver: Driver, marshal: Marshal, obj: Object, order: seq<string>)
    requires AllInstalled(sch, tables, driver) && RangeOrder(order, obj.fields.Keys)
    requires InsertStep(sch, tables, driver, marshal, obj, order).1 == Ok(true)
    ensures obj.tableName in sch
    ensures var after := InsertStep(sch, tables, driver, marshal, obj, order).0; var name := Lower(obj.tableName);
            && name in tables && name in after && obj.id in after[name].rows
            && InsertedOver(sch[obj.tableName], tables[name].rows, obj.id, after[name].rows)
  {
    InsertSucceeds(sch, tables, driver, marshal, obj, order);
    hide Mirrors, Healthy, NotNullHolds, BuiltByAddField, InsertStored, KeptCells, Fill, ReplaceRow, Bindable,
         InsertStep, RangeOrder;
    assert Installed(sch, tables, driver, obj.tableName);
    var t := tables[Lower(obj.tableName)];
    ReplacedOver(sch[obj.tableName], t, driver, obj.id,
                 KeptCells(t.cols, driver, InsertStored(marshal, sch[obj.tableName], obj.fields)));
  }

  ghost predicate InsertedOver(info: TableInfo, rows: Rows, id: string, after: Rows)
    requires id in after
  {
    var gone := Evicted(info, rows, id, after[id]);
    && after.Keys == rows.Keys - gone + {id}
    && (forall k <- after :: k != id ==> after[k] == rows[k])
    && |after| == |rows| + 1 - |gone|
  }

  lemma ReplacedOver(info: TableInfo, t: Table, driver: Driver, id: string, given: map<string, Cell>)
    requires Mirrors(info, t.cols, driver) && Healthy(t.cols, t.rows)
    ensures WellShaped(t.cols, t.rows)
    ensures var e := ReplaceRow(t.cols, t.rows, id, given, true);
            e.Done? ==> id in e.rows && InsertedOver(info, t.rows, id, e.rows)
  {
    hide Mirrors, Fill, NotNullHolds, Clash, SharesUnique, Evicted, Blockers;
    HealthyIsShaped(t.cols, t.rows);
    ReplaceKeepsHealthy(t.cols, t.rows, id, given, true);
    hide Healthy;
    EvictedAreBlockers(info, t, driver, id, Fill(t.cols, given, true));
  }

  lemma EvictedAreBlockers(info: TableInfo, t: Table, driver: Driver, id: string, row: Row)
    requires Mirrors(info, t.cols, driver) && WellShaped(t.cols, t.rows) && row.Keys == t.cols.Keys
    ensures Evicted(info, t.rows, id, row) == Blockers(t.cols, t.rows, id, row)
  {
    hide Mirrors, Clash, SharesUnique;
    forall k | k in t.rows ensures Clash(t.cols, t.rows[k], row) <==> SharesUnique(info, t.rows[k], row) {
      ClashIsSharing(info, t.cols, driver, t.rows[k], row);
    }
  }

  ghost predicate UniqueValues(info: TableInfo, rows: Rows) {
    forall j, k :: j in rows && k in rows && j != k ==> !SharesUnique(info, rows[j], rows[k])
  }

  /** Whatever is run, no two rows of a table ever share a value in a unique column. */
  lemma RunKeepsUnique(sch: Schema, tables: Tables, driver: Driver, marshal: Marshal, calls: seq<Call>, name: string)
    requires AllInstalled(sch, tables, driver) && name in sch
    requires forall i :: 0 <= i < |calls| ==> Possible(calls[i])
    ensures var after := Run(sch, tables, driver, marshal, calls).0;
            Lower(name) in after && UniqueValues(sch[name], after[Lower(name)].rows)
  {
    hide Mirrors, BuiltByAddField, SharesUnique, Possible, Run;
    var after := Run(sch, tables, driver, marshal, calls).0;
    assert Installed(sch, after, driver, name);
    var t := after[Lower(name)];
    forall j, k | j in t.rows && k in t.rows && j != k ensures !SharesUnique(sch[name], t.rows[j], t.rows[k]) {
      assert !Clash(t.cols, t.rows[j], t.rows[k]);
      ClashIsSharing(sch[name], t.cols, driver, t.rows[j], t.rows[k]);
    }
  }

  // ---------------------------------------------------------------- row counts

  /** How an Insert changes the number of rows of its table. */
  ghost function InsertGrowth(sch: Schema, tables: Tables, driver: Driver, marshal: Marshal, obj: Object,
                              order: seq<string>): int
    requires AllInstalled(sch, tables, driver) && RangeOrder(order, obj.fields.Keys)
  {
    var (after, out) := InsertStep(sch, tables, driver, marshal, obj, order);
    var name := Lower(obj.tableName);
    if out == Ok(true) && obj.tableName in sch && name in tables && name in after && obj.id in after[name].rows then
      1 - |Evicted(sch[obj.tableName], tables[name].rows, obj.id, after[name].rows[obj.id])|
    else 0
  }

  /** How a call changes the number of rows of its table, by its reply and the rows it met. */
  ghost function Growth(sch: Schema, tables: Tables, driver: Driver, marshal: Marshal, call: Call): int
    requires AllInstalled(sch, tables, driver) && Possible(call)
  {
    match call.cmd
    case InsertCmd(obj) => InsertGrowth(sch, tables, driver, marshal, obj, call.order)
    case UpsertCmd(obj) => InsertGrowth(sch, tables, driver, marshal, obj, call.order)
    case DeleteCmd(_, _) => if Step(sch, tables, driver, marshal, call).1 == Flag(Ok(true)) then -1 else 0
    case _ => 0
  }

  lemma OverGrows(info: TableInfo, rows: Rows, id: string, after: Rows)
    requires id in after && InsertedOver(info, rows, id, after)
    ensures |after| == |rows| + (1 - |Evicted(info, rows, id, after[id])|)
  {
    hide Evicted;
  }

  lemma InsertGrows(sch: Schema, tables: Tables, driver: Driver, marshal: Marshal, obj: Object, order: seq<string>)
    requires AllInstalled(sch, tables, driver) && RangeOrder(order, obj.fields.Keys)
    ensures var after := InsertStep(sch, tables, driver, marshal, obj, order).0; var name := Lower(obj.tableName);
            name in tables ==>
              name in after && |after[name].rows| == |tables[name].rows| + InsertGrowth(sch, tables, driver, marshal,
                      obj, order)
  {
    hide AllInstalled, InsertStep, Evicted, RangeOrder, Lower, InsertedOver;
    InsertFacts(sch, tables, driver, marshal, obj, order);
    InsertIsTrue(sch, tables, driver, marshal, obj, order);
    var (after, out) := InsertStep(sch, tables, driver, marshal, obj, order);
    if out == Ok(true) {
      InsertEvicts(sch, tables, driver, marshal, obj, order);
      OverGrows(sch[obj.tableName], tables[Lower(obj.tableName)].rows, obj.id, after[Lower(obj.tableName)].rows);
    }
  }

  lemma InsertIsTrue(sch: Schema, tables: Tables, driver: Driver, marshal: Marshal, obj: Object, order: seq<string>)
    requires AllInstalled(sch, tables, driver) && RangeOrder(order, obj.fields.Keys)
    ensures var out := InsertStep(sch, tables, driver, marshal, obj, order).1; out.Ok? ==> out == Ok(true)
  {
    hide AllInstalled, ReplaceOutcome, Installed, Marshals, ColumnsKnown, RangeOrder;
  }

  lemma StepGrowth(sch: Schema, tables: Tables, driver: Driver, marshal: Marshal, call: Call)
    requires AllInstalled(sch, tables, driver) && Possible(call) && Lower(TableOf(call.cmd)) in tables
    ensures var after := Step(sch, tables, driver, marshal, call).0; var name := Lower(TableOf(call.cmd));
            && name in after
            && |after[name].rows| == |tables[name].rows| + Growth(sch, tables, driver, marshal, call)
  {
    hide AllInstalled, InsertStep, InsertGrowth, RangeOrder, UpdateSpec, PlainObject, IsIdent, FoundIn, InsertSpec,
         Lower;
    match call.cmd {
      case InsertCmd(obj) => InsertGrows(sch, tables, driver, marshal, obj, call.order);
      case UpsertCmd(obj) => InsertGrows(sch, tables, driver, marshal, obj, call.order);
      case UpdateCmd(obj) =>
        if obj.tableName in sch { UpdateKeepsCount(sch, tables, driver, obj, call.order); }
      case DeleteCmd(_, id) =>
        RemoveOne(tables[Lower(TableOf(call.cmd))].rows, id);
      case FindCmd(_, _) =>
    }
  }

  lemma UpdateKeepsCount(sch: Schema, tables: Tables, driver: Driver, obj: Object, order: seq<string>)
    requires AllInstalled(sch, tables, driver) && RangeOrder(order, obj.fields.Keys) && obj.tableName in sch
    ensures Lower(obj.tableName) in tables
    ensures var after := UpdateSpec(sch, tables, driver, obj, order).0; var name := Lower(obj.tableName);
            name in after && |after[name].rows| == |tables[name].rows|
  {
    hide Mirrors, Healthy, BuiltByAddField, RangeOrder, LastCells, Bindable, RowSet, UpdateStored;
    assert Installed(sch, tables, driver, obj.tableName);
    RangeStored(order, obj.fields);
    SetKeepsCount(tables, driver, Lower(obj.tableName), obj.id, LastCells(UpdateStored(obj.fields), NonId(order)));
  }

  lemma SetKeepsCount(tables: Tables, driver: Driver, table: string, id: string, given: map<string, Cell>)
    requires AllHealthy(tables) && table in tables
    ensures var after := RowSet(tables, driver, table, id, given).0;
            table in after && |after[table].rows| == |tables[table].rows|
  {
    hide Kept, NotNullHolds, Blockers;
    var t := tables[table];
    if id in t.rows {
      StoreOne(t.rows, id, t.rows[id] + Kept(t.cols, driver, given));
    }
  }

  lemma StoreOne(rows: Rows, id: string, row: Row)
    requires id in rows
    ensures |rows[id := row]| == |rows|
  {
    assert rows[id := row].Keys == rows.Keys;
    assert |rows[id := row].Keys| == |rows.Keys|;
  }

  lemma RemoveOne(rows: Rows, id: string)
    ensures |rows - {id}| == |rows| - (if id in rows then 1 else 0)
  {
    assert (rows - {id}).Keys == rows.Keys - {id};
    assert |(rows - {id}).Keys| == |rows.Keys - {id}|;
  }

  /** Growth summed over the calls of a run that name the table. */
  ghost function Balance(sch: Schema, tables: Tables, driver: Driver, marshal: Marshal, calls: seq<Call>, table: string)
    : int
    requires AllInstalled(sch, tables, driver)
    requires forall i :: 0 <= i < |calls| ==> Possible(calls[i])
  {
    if calls == [] then 0
    else
      var k := |calls| - 1;
      var before := Run(sch, tables, driver, marshal, calls[..k]).0;
      Balance(sch, tables, driver, marshal, calls[..k], table) +
      if Lower(TableOf(calls[k].cmd)) == table then Growth(sch, before, driver, marshal, calls[k]) else 0
  }

  /** Over any run a table has the rows it started with, plus the ones inserted, minus the ones
      evicted or deleted. */
  lemma {:induction false} RunBalances(sch: Schema, tables: Tables, driver: Driver, marshal: Marshal, calls: seq<Call>,
                                       table: string)
    requires AllInstalled(sch, tables, driver) && table in tables
    requires forall i :: 0 <= i < |calls| ==> Possible(calls[i])
    ensures var after := Run(sch, tables, driver, marshal, calls).0;
            table in after && |after[table].rows| == |tables[table].rows| + Balance(sch, tables, driver, marshal,
                    calls, table)
  {
    hide AllInstalled, Possible, Step, Growth;
    if calls != [] {
      var k := |calls| - 1;
      RunBalances(sch, tables, driver, marshal, calls[..k], table);
      var before := Run(sch, tables, driver, marshal, calls[..k]).0;
      StepFacts(sch, before, driver, marshal, calls[k]);
      if Lower(TableOf(calls[k].cmd)) == table {
        StepGrowth(sch, before, driver, marshal, calls[k]);
      }
    }
  }

  // ---------------------------------------------------------------- update

  /** Update answers true exactly when the row is there, and then changes the columns it names and
      no others; of two spellings of a column the later in range order counts. */
  lemma UpdateTouches(sch: Schema, tables: Tables, driver: Driver, obj: Object, order: seq<string>)
    requires AllInstalled(sch, tables, driver) && RangeOrder(order, obj.fields.Keys) && obj.tableName in sch
    ensures Lower(obj.tableName) in tables
    ensures var (after, out) := UpdateSpec(sch, tables, driver, obj, order); var name := Lower(obj.tableName);
            || (out == Ok(true) && Touched(tables, driver, name, obj.id, UpdateStored(obj.fields), NonId(order), after))
            || (out == Ok(false) && after == tables && obj.id !in tables[name].rows)
            || (!out.Ok? && after == tables)
  {
    hide Mirrors, Healthy, BuiltByAddField, RowSet, Touched, UpdateStored, RangeOrder, Bindable, LastCells;
    assert Installed(sch, tables, driver, obj.tableName);
    RangeStored(order, obj.fields);
    OutcomeTouches(tables, driver, Lower(obj.tableName), obj.id, UpdateStored(obj.fields), NonId(order));
  }

  lemma OutcomeTouches(tables: Tables, driver: Driver, name: string, id: string, stored: map<string, Value>,
                       names: seq<string>)
    requires AllHealthy(tables) && name in tables && Covers(stored, names)
    ensures var (after, n) := RowSet(tables, driver, name, id, LastCells(stored, names));
            match n
            case None => after == tables
            case Some(k) =>
              if k > 0 then Touched(tables, driver, name, id, stored, names, after)
              else after == tables && id !in tables[name].rows
  {
    hide Healthy, LastCells, NotNullHolds, Blockers, ColumnsSet, Kept;
    var t := tables[name];
    HealthyIsShaped(t.cols, t.rows);
    assert tables[name := t.(rows := t.rows)] == tables;
    if id in t.rows {
      SetColumns(t.cols, driver, t.rows[id], stored, names);
    }
  }

  ghost predicate Touched(tables: Tables, driver: Driver, name: string, id: string, stored: map<string, Value>,
                          names: seq<string>, after: Tables)
  {
    && name in tables && name in after && after == tables[name := after[name]]
    && after[name] == tables[name].(rows := after[name].rows)
    && var rows := tables[name].rows; var now := after[name].rows;
       && id in rows && id in now && now == rows[id := now[id]]
       && ColumnsSet(tables[name].cols, driver, rows[id], stored, names, now[id])
  }

  /** names[i] is the last name to spell this column. */
  predicate LastSpelling(names: seq<string>, i: nat, c: string) {
    i < |names| && Lower(names[i]) == c && forall j :: i < j < |names| ==> Lower(names[j]) != c
  }

  ghost predicate ColumnsSet(cols: map<string, ColDef>, driver: Driver, row: Row, stored: map<string, Value>,
                             names: seq<string>, after: Row)
  {
    forall c <- row :: c in after &&
      if exists i :: 0 <= i < |names| && Lower(names[i]) == c then
        c in cols && exists i: nat {:trigger LastSpelling(names, i, c)} ::
          LastSpelling(names, i, c) && names[i] in stored
                       && after[c] == driver.keep(cols[c].dataType, BoundCell(stored[names[i]]))
      else after[c] == row[c]
  }

  lemma {:induction false} LastOf(stored: map<string, Value>, names: seq<string>, c: string) returns (i: nat)
    requires Covers(stored, names) && c in LastCells(stored, names)
    ensures LastSpelling(names, i, c) && LastCells(stored, names)[c] == BoundCell(stored[names[i]])
  {
    hide Lower, BoundCell;
    var k := |names| - 1;
    if Lower(names[k]) == c {
      i := k;
    } else {
      i := LastOf(stored, names[..k], c);
    }
  }

  lemma SetColumns(cols: map<string, ColDef>, driver: Driver, row: Row, stored: map<string, Value>, names: seq<string>)
    requires Covers(stored, names) && row.Keys == cols.Keys
    ensures ColumnsSet(cols, driver, row, stored, names, row + Kept(cols, driver, LastCells(stored, names)))
  {
    hide Lower, BoundCell, LastCells;
    LastKeys(stored, names);
    forall c | c in row && exists i :: 0 <= i < |names| && Lower(names[i]) == c
      ensures c in LastCells(stored, names)
      ensures exists i: nat {:trigger LastSpelling(names, i, c)} :: LastSpelling(names, i, c) && names[i] in stored
                && Kept(cols, driver, LastCells(stored, names))[c] ==
                   driver.keep(cols[c].dataType, BoundCell(stored[names[i]]))
    {
      var i :| 0 <= i < |names| && Lower(names[i]) == c;
      assert names[i] in (set n | n in names);
      var l := LastOf(stored, names, c);
    }
    forall c | c in LastCells(stored, names) ensures exists i :: 0 <= i < |names| && Lower(names[i]) == c {
      var l := LastOf(stored, names, c);
    }
  }
}
