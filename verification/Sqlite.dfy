/** storage/sqlite: the adapter, over the database it prints statements for. */
module Sqlite {
  import opened Outcomes
  import opened Text
  import opened Values
  import opened Sql
  import opened Statements
  import opened Engine
  import opened Ddl
  import opened Databases
  import opened Common
  import opened Scanner
  import opened Effects
  import opened Creation

  /** Every value has a JSON encoding, which is what json.Marshal of the object needs. */
  ghost predicate Marshals(marshal: Marshal, fields: map<string, Value>) {
    forall n <- fields :: marshal(fields[n]).Some?
  }

  ghost predicate ColumnsKnown(info: TableInfo, fields: map<string, Value>) {
    forall n <- fields :: !IsId(n) ==> n in info.fields
  }

  /** The schema and the database agree on this table. */
  ghost predicate Installed(sch: Schema, tables: Tables, driver: Driver, name: string) {
    && name in sch && sch[name].name == name && BuiltByAddField(sch[name])
    && Lower(name) in tables && Mirrors(sch[name], tables[Lower(name)].cols, driver)
  }

  /** What the lookups are specified for: a table the database holds as declared, or that it lacks, or
      a column of which it lacks. */
  ghost predicate Asked(sch: Schema, tables: Tables, driver: Driver, name: string) {
    name in sch && sch[name].name == name && BuiltByAddField(sch[name]) && Settles(tables, driver, sch[name])
  }

  // ---------------------------------------------------------------- rows and objects

  /** A row as the driver hands it over; ids are kept as text. */
  function RowCells(driver: Driver, info: TableInfo, k: string, row: Row): (cells: map<string, Cell>)
    requires SeesRow(info, row)
    ensures cells.Keys == info.fields.Keys
  {
    map n | n in info.fields :: if n == "id" then Text(k) else driver.fetch(info.fields[n].dataType, row[Lower(n)])
  }

  /** The row has a cell for every column of the schema but id. */
  predicate SeesRow(info: TableInfo, row: Row) {
    forall n <- info.fields :: n != "id" ==> Lower(n) in row
  }

  ghost predicate SeesRows(info: TableInfo, rows: Rows) {
    forall k <- rows :: SeesRow(info, rows[k])
  }

  /** What a finder returns for a row: an error if a cell does not fit its variable. */
  ghost function Read(driver: Driver, info: TableInfo, k: string, row: Row): Outcome<Option<Object>>
    requires SeesRow(info, row)
  {
    var cells := RowCells(driver, info, k, row);
    if !Readable(driver, info, cells) then Err(Unreadable)
    else
      match Rebuilt(driver, info, cells, info.name)
      case Ok(o) => Ok(Some(o))
      case Err(r) => Err(r)
      case Panic => Panic
  }

  /** What a column is compared with when it is looked up by a string: the string as the column
      would keep it. */
  function KeyCell(driver: Driver, info: TableInfo, key: string, value: string): Cell
    requires key in info.fields
  {
    if key == "id" then Text(value) else driver.keep(info.fields[key].dataType, Text(value))
  }

  predicate HasKey(driver: Driver, info: TableInfo, rows: Rows, k: string, key: string, value: string)
    requires k in rows && key in info.fields
  {
    if key == "id" then k == value
    else
      var cell := KeyCell(driver, info, key, value);
      cell != Null && Lower(key) in rows[k] && rows[k][Lower(key)] == cell
  }

  lemma MirroredRows(info: TableInfo, t: Table, driver: Driver)
    requires Mirrors(info, t.cols, driver) && Healthy(t.cols, t.rows)
    ensures SeesRows(info, t.rows)
  {
  }

  lemma OnlyIdIsId(info: TableInfo, n: string)
    requires FoldsApart(info.fields.Keys) && "id" in info.fields && n in info.fields && IsId(n)
    ensures n == "id"
  {
    LowerId();
  }

  // ---------------------------------------------------------------- what Insert and Update do

  /** What every Insert answers before it looks at the fields: not connected, not encodable, no
      schema, or a table the schema does not have, which panics. */
  ghost function Refusal(connected: bool, sch: Option<Schema>, marshal: Marshal, obj: Object): Option<Outcome<bool>> {
    if !connected then Some(Err(NotConnected))
    else if !Marshals(marshal, obj.fields) then Some(Err(CannotMarshal))
    else if sch == None then Some(Err(NoSchema))
    else if obj.tableName !in sch.value then Some(Panic)
    else None
  }

  /** Each answer by its own check, in this order. */
  lemma RefusalMeans(connected: bool, sch: Option<Schema>, marshal: Marshal, obj: Object)
    ensures var r := Refusal(connected, sch, marshal, obj);
            var encodable := forall n <- obj.fields :: marshal(obj.fields[n]).Some?;
            && (r == Some(Err(NotConnected)) <==> !connected)
            && (r == Some(Err(CannotMarshal)) <==> connected && !encodable)
            && (r == Some(Err(NoSchema)) <==> connected && encodable && sch == None)
            && (r == Some(Panic) <==> connected && encodable && sch.Some? && obj.tableName !in sch.value)
            && (r == None <==> connected && encodable && sch.Some? && obj.tableName in sch.value)
  {
  }

  method Admit(connected: bool, sch: Option<Schema>, marshal: Marshal, obj: Object)
    returns (refusal: Option<Outcome<bool>>)
    ensures refusal == Refusal(connected, sch, marshal, obj)
  {
    if !connected {
      return Some(Err(NotConnected));
    }
    var marshals := AllMarshal(marshal, obj.fields);
    if !marshals {
      return Some(Err(CannotMarshal));
    }
    if sch == None {
      return Some(Err(NoSchema));
    }
    if obj.tableName !in sch.value {
      return Some(Panic);
    }
    return None;
  }

  /** The reply to an INSERT of an object all of whose fields have columns. */
  ghost function InsertSpec(sch: Schema, tables: Tables, driver: Driver, marshal: Marshal, obj: Object)
    : (Tables, Outcome<bool>)
    requires AllHealthy(tables) && Installed(sch, tables, driver, obj.tableName)
    requires Marshals(marshal, obj.fields) && ColumnsKnown(sch[obj.tableName], obj.fields)
  {
    var stored := InsertStored(marshal, sch[obj.tableName], obj.fields);
    var (after, n) := ReplaceOutcome(tables, driver, Lower(obj.tableName), obj.id, stored);
    (after, if n == None then Err(Storage) else Ok(true))
  }

  /** What an UPDATE does that lists the fields in this order. */
  ghost function UpdateSpec(sch: Schema, tables: Tables, driver: Driver, obj: Object, order: seq<string>)
    : (Tables, Outcome<bool>)
    requires AllHealthy(tables) && obj.tableName in sch && Lower(obj.tableName) in tables
    requires RangeOrder(order, obj.fields.Keys)
  {
    var stored := UpdateStored(obj.fields);
    RangeStored(order, obj.fields);
    if obj.fields == map[] then (tables, Panic)
    else if stored == map[] then (tables, Err(Storage))
    else
      var (after, n) := UpdateInOrder(tables, driver, Lower(obj.tableName), obj.id, stored, NonId(order));
      (after, if n == None then Err(Storage) else Ok(n.value > 0))
  }

  lemma RangeStored(order: seq<string>, fields: map<string, Value>)
    requires RangeOrder(order, fields.Keys)
    ensures Lists(NonId(order), UpdateStored(fields)) && Covers(UpdateStored(fields), NonId(order))
    ensures NonId(order) == [] <==> UpdateStored(fields) == map[]
  {
    hide IsId;
    RangeLists(order, fields, UpdateStored(fields));
    forall i | 0 <= i < |NonId(order)| ensures NonId(order)[i] in UpdateStored(fields) {
      assert NonId(order)[i] in (set n | n in NonId(order));
    }
    if UpdateStored(fields) != map[] {
      var n :| n in UpdateStored(fields);
      assert n in (set k | k in NonId(order));
    }
    if NonId(order) != [] {
      assert NonId(order)[0] in UpdateStored(fields);
    }
  }

  /** An object whose field names can stand in a statement. */
  ghost predicate PlainObject(obj: Object) {
    forall n <- obj.fields :: !IsId(n) ==> IsIdent(n)
  }

  lemma InsertCarries(info: TableInfo, t: Table, driver: Driver, marshal: Marshal, fields: map<string, Value>,
                      order: seq<string>)
    requires Mirrors(info, t.cols, driver) && RangeOrder(order, fields.Keys)
    requires Marshals(marshal, fields) && ColumnsKnown(info, fields)
    ensures forall n <- fields :: !IsId(n) ==> StoredValue(marshal, info, fields[n], n).Ok?
    ensures Fits(marshal, info, fields, NonId(order))
    ensures Carries(NonId(order), Stored(marshal, info, fields, NonId(order)), InsertStored(marshal, info, fields))
  {
    hide IsId, Lower, IsIdent, ColumnMatches, Encode;
    NonIdMembers(order);
    NonIdCovered(fields, order);
    AllStored(marshal, info, fields);
    RangeLists(order, fields, InsertStored(marshal, info, fields));
    forall i | 0 <= i < |NonId(order)|
      ensures !IsId(NonId(order)[i]) && NonId(order)[i] in fields
    {
      assert NonId(order)[i] in NonId(order);
    }
    FewerFoldApart(info.fields.Keys, InsertStored(marshal, info, fields).Keys);
    StoredIdents(info, t, driver, marshal, fields);
  }

  lemma AllStored(marshal: Marshal, info: TableInfo, fields: map<string, Value>)
    requires Marshals(marshal, fields) && ColumnsKnown(info, fields)
    ensures forall n <- fields :: !IsId(n) ==> StoredValue(marshal, info, fields[n], n).Ok?
    ensures InsertStored(marshal, info, fields).Keys == (set n | n in fields && !IsId(n))
    ensures InsertStored(marshal, info, fields).Keys <= info.fields.Keys
  {
    hide IsId, IsJson;
  }

  lemma FewerFoldApart(names: set<string>, fewer: set<string>)
    requires FoldsApart(names) && fewer <= names
    ensures FoldsApart(fewer)
  {
  }

  lemma StoredIdents(info: TableInfo, t: Table, driver: Driver, marshal: Marshal, fields: map<string, Value>)
    requires Mirrors(info, t.cols, driver)
    ensures forall n <- InsertStored(marshal, info, fields) :: !IsId(n) && IsIdent(n)
  {
    hide IsId, Lower, IsIdent, ColumnMatches, Encode;
  }

  /** The text and values Insert builds, whatever the range order, perform the INSERT of InsertSpec. */
  lemma InsertTextRuns(sch: Schema, tables: Tables, driver: Driver, marshal: Marshal, obj: Object, order: seq<string>)
    requires AllHealthy(tables) && Installed(sch, tables, driver, obj.tableName)
    requires Marshals(marshal, obj.fields) && ColumnsKnown(sch[obj.tableName], obj.fields)
    requires RangeOrder(order, obj.fields.Keys)
    ensures var info := sch[obj.tableName]; var names := NonId(order);
            && Fits(marshal, info, obj.fields, names)
            && RunText(tables, driver,
                       InsertText(InsertOrReplace, info.name, ["id"] + names, Placeholders(Marks, 1, |names| + 1)),
                       [Str(obj.id)] + Stored(marshal, info, obj.fields, names))
               == ReplaceOutcome(tables, driver, Lower(obj.tableName), obj.id, InsertStored(marshal, info, obj.fields))
  {
    hide RunText, InsertText, ReplaceOutcome, Carries;
    var info := sch[obj.tableName];
    InsertCarries(info, tables[Lower(info.name)], driver, marshal, obj.fields, order);
    hide FoldsApart, ColumnMatches, Healthy, BuiltByAddField, IsIdent;
    ReplaceTextRuns(tables, driver, info.name, obj.id, NonId(order),
                    Stored(marshal, info, obj.fields, NonId(order)), InsertStored(marshal, info, obj.fields));
  }

  lemma UpdateObjectRuns(sch: Schema, tables: Tables, driver: Driver, obj: Object, order: seq<string>)
    requires AllHealthy(tables) && Installed(sch, tables, driver, obj.tableName)
    requires PlainObject(obj) && RangeOrder(order, obj.fields.Keys) && Covers(obj.fields, NonId(order))
    ensures Covers(UpdateStored(obj.fields), NonId(order))
    ensures var stored := UpdateStored(obj.fields);
            RunText(tables, driver, UpdateText(sch[obj.tableName].name, SetClauses(Bares(NonId(order)), Marks, 1),
                                               "id = ?"),
                    FieldValues(obj.fields, NonId(order)) + [Str(obj.id)])
            == if stored == map[] then (tables, None)
               else UpdateInOrder(tables, driver, Lower(obj.tableName), obj.id, stored, NonId(order))
  {
    hide RunText, UpdateText, UpdateInOrder, Spells, ColumnMatches, Healthy, BuiltByAddField, IsIdent;
    UpdateCarries(obj, order);
    UpdateTextRuns(tables, driver, obj.tableName, obj.id, NonId(order),
                   FieldValues(obj.fields, NonId(order)), UpdateStored(obj.fields));
  }

  lemma UpdateCarries(obj: Object, order: seq<string>)
    requires PlainObject(obj) && RangeOrder(order, obj.fields.Keys) && Covers(obj.fields, NonId(order))
    ensures Spells(NonId(order), FieldValues(obj.fields, NonId(order)), UpdateStored(obj.fields))
    ensures Covers(UpdateStored(obj.fields), NonId(order))
    ensures NonId(order) == [] <==> UpdateStored(obj.fields) == map[]
  {
    hide IsId, IsIdent, Lists;
    RangeStored(order, obj.fields);
  }

  /** A field without a column is noticed, whichever comes first. */
  lemma UnknownIsNoticed(marshal: Marshal, info: TableInfo, fields: map<string, Value>, order: seq<string>)
    requires RangeOrder(order, fields.Keys) && Marshals(marshal, fields) && Covers(fields, NonId(order))
    ensures Fault(marshal, info, fields, NonId(order)) == None <==> ColumnsKnown(info, fields)
    ensures var r := Fault(marshal, info, fields, NonId(order));
            r.Some? ==> r.value.UnknownField? && var n := r.value.field; n in fields && !IsId(n) && n !in info.fields
  {
    NonIdMembers(order);
    assert forall n :: n in order <==> n in (set k | k in order);
    FaultIsUnknown(marshal, info, fields, NonId(order));
    if Fits(marshal, info, fields, NonId(order)) {
      forall n | n in fields && !IsId(n) ensures n in info.fields {
        assert n in NonId(order);
        var i :| 0 <= i < |NonId(order)| && NonId(order)[i] == n;
      }
    }
    if ColumnsKnown(info, fields) {
      forall i | 0 <= i < |NonId(order)|
        ensures StoredValue(marshal, info, fields[NonId(order)[i]], NonId(order)[i]).Ok?
      {
        assert NonId(order)[i] in NonId(order);
      }
    }
  }

  /** The error for the first field, in range order, that has no column or no encoding. */
  function FirstFault(marshal: Marshal, info: TableInfo, fields: map<string, Value>, order: seq<string>): Outcome<bool>
    requires Covers(fields, NonId(order))
  {
    match Fault(marshal, info, fields, NonId(order))
    case Some(r) => Err(r)
    case None => Ok(true)
  }

  /** A range order there is, whether or not the range is reached. */
  ghost method SomeOrder(fields: map<string, Value>) returns (order: seq<string>)
    ensures RangeOrder(order, fields.Keys) && Covers(fields, NonId(order))
  {
    order := AnyOrder(fields.Keys);
    NonIdCovered(fields, order);
  }

  lemma {:induction false} FaultIsUnknown(marshal: Marshal, info: TableInfo, fields: map<string, Value>,
                                          names: seq<string>)
    requires Covers(fields, names) && Marshals(marshal, fields)
    ensures var r := Fault(marshal, info, fields, names);
            r.Some? ==> r.value.UnknownField? && r.value.field in names && r.value.field !in info.fields
  {
    if names != [] {
      FaultIsUnknown(marshal, info, fields, names[1..]);
    }
  }

  // ---------------------------------------------------------------- what the finders do

  /** The columns a finder asks for are the schema's names, in field order. */
  lemma ColumnNamesAreOrder(info: TableInfo)
    requires BuiltByAddField(info)
    ensures ColumnNames(info) == info.order
  {
  }

  lemma ColumnsKnownToTable(info: TableInfo, t: Table, driver: Driver)
    requires Mirrors(info, t.cols, driver)
    ensures forall n <- info.fields :: Known(t, Lower(n))
  {
    LowerId();
    forall n | n in info.fields ensures Known(t, Lower(n)) {
      if n != "id" { assert Lower(n) in FoldAll(info.fields.Keys - {"id"}); }
    }
  }

  /** What a finder looks for. */
  function KeyLookup(driver: Driver, info: TableInfo, key: string, value: string): Lookup
    requires key in info.fields
  {
    Lookup(Lower(info.name), Folds(info.order), Lower(key), KeyCell(driver, info, key, value))
  }

  lemma KeyKept(info: TableInfo, t: Table, driver: Driver, key: string, value: string)
    requires Mirrors(info, t.cols, driver) && key in info.fields
    ensures AsKept(t, driver, Lower(key), Text(value)) == KeyCell(driver, info, key, value)
  {
    hide IsIdent;
    LowerId();
    if Lower(key) == "id" { OnlyIdIsId(info, key); }
    if key != "id" { assert ColumnMatches(t.cols, info.fields[key], driver); }
  }

  lemma FinderPlan(tables: Tables, info: TableInfo, driver: Driver, key: string, value: string)
    requires Lower(info.name) in tables && Mirrors(info, tables[Lower(info.name)].cols, driver) && BuiltByAddField(info)
    requires key in info.fields
    ensures PlanSelect(tables, driver, Columns(Bares(info.order)), Lower(info.name), Equate(Col(Lower(key)), Param(1)),
                       [Text(value)])
            == Some(KeyLookup(driver, info, key, value))
  {
    ColumnsKnownToTable(info, tables[Lower(info.name)], driver);
    KeyKept(info, tables[Lower(info.name)], driver, key, value);
    assert Targets(Columns(Bares(info.order))) == Folds(info.order);
    forall c | c in Folds(info.order) ensures Known(tables[Lower(info.name)], c) {
      var i :| 0 <= i < |info.order| && Folds(info.order)[i] == c;
      assert info.order[i] in info.fields;
    }
  }

  /** A SELECT can be written for the schema's table: it has fields, and its names are identifiers. */
  ghost predicate Askable(info: TableInfo) {
    IsIdent(info.name) && info.fields != map[] && forall n <- info.fields :: IsIdent(n)
  }

  /** The database holds the table as the schema declares it. */
  ghost predicate Agrees(tables: Tables, driver: Driver, info: TableInfo) {
    Lower(info.name) in tables && Mirrors(info, tables[Lower(info.name)].cols, driver)
  }

  /** The database does not hold the table, or not with every column of the schema, as when columns
      have been added to the schema since the table was created. */
  ghost predicate Lacks(tables: Tables, info: TableInfo) {
    Lower(info.name) in tables ==> exists n <- info.fields :: !Known(tables[Lower(info.name)], Lower(n))
  }

  /** The tables a lookup is specified for. */
  ghost predicate Settles(tables: Tables, driver: Driver, info: TableInfo) {
    Agrees(tables, driver, info) || (Askable(info) && Lacks(tables, info))
  }

  lemma AgreesIsAskable(tables: Tables, driver: Driver, info: TableInfo)
    requires Agrees(tables, driver, info)
    ensures Askable(info) && !Lacks(tables, info)
  {
    hide IsIdent, ColumnMatches;
    ColumnsKnownToTable(info, tables[Lower(info.name)], driver);
  }

  lemma FinderNames(info: TableInfo)
    requires BuiltByAddField(info) && Askable(info)
    ensures NameTexts(Bares(info.order)) == info.order && GoodNames(Bares(info.order)) && info.order != []
  {
    var n :| n in info.fields;
    assert n in info.order;
  }

  lemma LackingPlan(tables: Tables, info: TableInfo, driver: Driver, key: string, value: string)
    requires BuiltByAddField(info) && Askable(info) && Lacks(tables, info) && key in info.fields
    ensures Plan(tables, driver, SelectText(info.order, info.name, Condition(key, "?")), [Str(value)]) == None
  {
    FinderNames(info);
    GoodBare(info.name);
    GoodBare(key);
    hide Parse, SelectText, IsIdent, GoodName, GoodNames, Lower, Known, Lacks;
    SelectParses(Bares(info.order), Bare(info.name), Bare(key), Marks);
    assert Targets(Columns(Bares(info.order))) == Folds(info.order);
    if Lower(info.name) in tables {
      LackedIsListed(tables, info);
    }
  }

  lemma LackedIsListed(tables: Tables, info: TableInfo)
    requires BuiltByAddField(info) && Lacks(tables, info) && Lower(info.name) in tables
    ensures exists c :: c in Folds(info.order) && !Known(tables[Lower(info.name)], c)
  {
    hide Lower, Known;
    var n :| n in info.fields && !Known(tables[Lower(info.name)], Lower(n));
    var i :| 0 <= i < |info.order| && info.order[i] == n;
    assert Folds(info.order)[i] in Folds(info.order);
  }

  lemma SelectPlans(tables: Tables, info: TableInfo, driver: Driver, key: string, value: string)
    requires Lower(info.name) in tables && Mirrors(info, tables[Lower(info.name)].cols, driver) && BuiltByAddField(info)
    requires key in info.fields
    ensures Plan(tables, driver, SelectText(info.order, info.name, Condition(key, "?")), [Str(value)])
            == Some(KeyLookup(driver, info, key, value))
  {
    FinderNames(info);
    SelectParses(Bares(info.order), Bare(info.name), Bare(key), Marks);
    BindOne(Str(value));
    FinderPlan(tables, info, driver, key, value);
  }

  lemma UnknownKeyFails(tables: Tables, info: TableInfo, driver: Driver, value: string)
    requires BuiltByAddField(info) && Askable(info)
    ensures Plan(tables, driver, SelectText(info.order, info.name, Condition("", "?")), [Str(value)]) == None
  {
    FinderNames(info);
    KeylessSelectDoesNotParse(Bares(info.order), Bare(info.name), Marks);
  }

  /** The row the engine found, as the schema's cells. */
  lemma FoundRow(info: TableInfo, t: Table, driver: Driver, key: string, value: string, k: string, cells: seq<Cell>)
    requires Mirrors(info, t.cols, driver) && Healthy(t.cols, t.rows) && BuiltByAddField(info)
    requires key in info.fields && k in t.rows
    requires Shows(t, driver, k, KeyLookup(driver, info, key, value), cells)
    ensures SeesRow(info, t.rows[k])
    ensures HasKey(driver, info, t.rows, k, key, value)
    ensures cells == CellsOf(info, RowCells(driver, info, k, t.rows[k]))
  {
    MirroredRows(info, t, driver);
    LowerId();
    forall n | n in info.fields && Lower(n) == "id" ensures n == "id" {
      OnlyIdIsId(info, n);
    }
    forall i | 0 <= i < |cells| ensures cells[i] == RowCells(driver, info, k, t.rows[k])[info.order[i]] {
      assert Shown(t, driver, k, Folds(info.order)[i]) == Some(cells[i]);
      ShownCell(info, t, driver, k, info.order[i]);
    }
  }

  lemma ShownCell(info: TableInfo, t: Table, driver: Driver, k: string, n: string)
    requires Mirrors(info, t.cols, driver) && k in t.rows && SeesRow(info, t.rows[k]) && n in info.fields
    ensures Shown(t, driver, k, Lower(n)) == Some(RowCells(driver, info, k, t.rows[k])[n])
  {
    hide IsIdent;
    LowerId();
    if Lower(n) == "id" { OnlyIdIsId(info, n); }
    if n != "id" { assert ColumnMatches(t.cols, info.fields[n], driver); }
  }

  lemma SelectedMeansHasKey(info: TableInfo, t: Table, driver: Driver, key: string, value: string, k: string)
    requires Mirrors(info, t.cols, driver) && Healthy(t.cols, t.rows) && key in info.fields && k in t.rows
    ensures Selects(t.rows, k, KeyLookup(driver, info, key, value)) <==> HasKey(driver, info, t.rows, k, key, value)
  {
    LowerId();
    if Lower(key) == "id" { OnlyIdIsId(info, key); }
  }

  /** What a lookup by key may return: nothing when no row has the key, else one that has. */
  ghost predicate FindReply(driver: Driver, info: TableInfo, rows: Rows, key: string, value: string,
                            out: Outcome<Option<Object>>)
    requires key in info.fields && SeesRows(info, rows)
  {
    if forall k <- rows :: !HasKey(driver, info, rows, k, key, value) then out == Ok(None)
    else exists k :: k in rows && HasKey(driver, info, rows, k, key, value) && out == Read(driver, info, k, rows[k])
  }

  /** The lookup as a whole; a key outside the schema is an error. */
  ghost predicate FindSpec(driver: Driver, info: TableInfo, rows: Rows, key: string, value: string,
                           out: Outcome<Option<Object>>)
  {
    SeesRows(info, rows) && if key in info.fields then FindReply(driver, info, rows, key, value, out)
      else out == Err(Storage)
  }

  /** Scanning the row the engine found and rebuilding the object. */
  method ScanFound(driver: Driver, scanner: FieldScanner, tbl: TableInfo, ghost k: string, ghost row: Row,
                   cells: seq<Cell>)
    returns (out: Outcome<Option<Object>>)
    requires BuiltByAddField(tbl) && scanner.Blank(tbl) && SeesRow(tbl, row)
    requires cells == CellsOf(tbl, RowCells(driver, tbl, k, row))
    modifies scanner
    ensures out == Read(driver, tbl, k, row)
  {
    ghost var seen := RowCells(driver, tbl, k, row);
    var ok := scanner.ScanRow(driver, tbl, seen, cells);
    if !ok {
      return Err(Unreadable);
    }
    var obj := scanner.ScanToObject(driver, tbl, seen, tbl.name);
    match obj {
      case Ok(o) => return Ok(Some(o));
      case Err(r) => return Err(r);
      case Panic => return Panic;
    }
  }

  /** The engine's answer to the lookup, or its refusal when there is no key column. */
  ghost predicate LookupAnswer(driver: Driver, info: TableInfo, t: Table, key: string, value: string, a: Answer) {
    if key in info.fields then Answers(t, driver, KeyLookup(driver, info, key, value), a) else a == Failed
  }

  /** What each answer means for the caller; k is the row found. */
  lemma AnswerMeans(info: TableInfo, t: Table, driver: Driver, key: string, value: string, a: Answer)
    returns (k: string)
    requires Mirrors(info, t.cols, driver) && Healthy(t.cols, t.rows) && BuiltByAddField(info)
    requires LookupAnswer(driver, info, t, key, value, a)
    ensures a.Failed? ==> FindSpec(driver, info, t.rows, key, value, Err(Storage))
    ensures a.NoRows? ==> FindSpec(driver, info, t.rows, key, value, Ok(None))
    ensures a.Found? ==>
              && k in t.rows && SeesRow(info, t.rows[k])
                 && a.cells == CellsOf(info, RowCells(driver, info, k, t.rows[k]))
              && key in info.fields && HasKey(driver, info, t.rows, k, key, value)
              && FindSpec(driver, info, t.rows, key, value, Read(driver, info, k, t.rows[k]))
  {
    k := "";
    MirroredRows(info, t, driver);
    match a {
      case Failed =>
      case NoRows =>
        forall j | j in t.rows ensures !HasKey(driver, info, t.rows, j, key, value) {
          SelectedMeansHasKey(info, t, driver, key, value, j);
        }
      case Found(cells) =>
        k :| k in t.rows && Shows(t, driver, k, KeyLookup(driver, info, key, value), cells);
        FoundRow(info, t, driver, key, value, k, cells);
    }
  }

  /** Runs the text of the query; without a key column its condition has no left side. */
  method QueryByKey(db: Database, tbl: TableInfo, columns: seq<string>, keyField: string, value: string)
    returns (a: Answer)
    requires AllHealthy(db.tables) && BuiltByAddField(tbl) && columns == tbl.order
    requires Settles(db.tables, db.driver, tbl) && (keyField == "" || keyField in tbl.fields)
    ensures if keyField == "" || !Agrees(db.tables, db.driver, tbl) then a == Failed
            else Answers(db.tables[Lower(tbl.name)], db.driver, KeyLookup(db.driver, tbl, keyField, value), a)
  {
    hide Mirrors, Lacks, Askable;
    if Agrees(db.tables, db.driver, tbl) {
      AgreesIsAskable(db.tables, db.driver, tbl);
    }
    if keyField == "" {
      UnknownKeyFails(db.tables, tbl, db.driver, value);
    } else if !Agrees(db.tables, db.driver, tbl) {
      LackingPlan(db.tables, tbl, db.driver, keyField, value);
    } else {
      SelectPlans(db.tables, tbl, db.driver, keyField, value);
    }
    a := db.QueryRow(SelectText(columns, tbl.name, Condition(keyField, "?")), [Str(value)]);
  }

  /** The scanner made for the columns, and the engine's answer. */
  method OpenQuery(db: Database, tbl: TableInfo, key: string, value: string) returns (scanner: FieldScanner, a: Answer)
    requires AllHealthy(db.tables) && BuiltByAddField(tbl) && Settles(db.tables, db.driver, tbl)
    ensures fresh(scanner) && scanner.Blank(tbl)
    ensures if Agrees(db.tables, db.driver, tbl)
            then LookupAnswer(db.driver, tbl, db.tables[Lower(tbl.name)], key, value, a)
            else a == Failed
  {
    scanner := new FieldScanner(tbl);
    var columns := scanner.GetColumns(tbl);
    ColumnNamesAreOrder(tbl);
    a := QueryByKey(db, tbl, columns, if key in tbl.fields then tbl.fields[key].name else "", value);
  }

  /** What a lookup returns over the tables: an error when the table or a column is missing. */
  ghost predicate Looked(tables: Tables, driver: Driver, info: TableInfo, key: string, value: string,
                         out: Outcome<Option<Object>>)
  {
    if Agrees(tables, driver, info) then FindSpec(driver, info, tables[Lower(info.name)].rows, key, value, out)
    else out == Err(Storage)
  }

  /** The lookup shared by FindByKey and FindByID. */
  method CommonFindByKey(db: Database, tbl: TableInfo, key: string, value: string)
    returns (out: Outcome<Option<Object>>)
    requires AllHealthy(db.tables) && BuiltByAddField(tbl) && Settles(db.tables, db.driver, tbl)
    ensures Looked(db.tables, db.driver, tbl, key, value, out)
  {
    hide Mirrors, Healthy, BuiltByAddField, LookupAnswer, FindSpec, Settles;
    var scanner, answer := OpenQuery(db, tbl, key, value);
    ghost var k := "";
    if Agrees(db.tables, db.driver, tbl) {
      k := AnswerMeans(tbl, db.tables[Lower(tbl.name)], db.driver, key, value, answer);
    }
    match answer {
      case Failed => return Err(Storage);
      case NoRows => return Ok(None);
      case Found(cells) => out := ScanFound(db.driver, scanner, tbl, k, db.tables[Lower(tbl.name)].rows[k], cells);
    }
  }

  lemma DeleteTextRuns(tables: Tables, driver: Driver, table: string, id: string)
    requires AllHealthy(tables) && IsIdent(table)
    ensures Lower(table) !in tables ==>
              RunText(tables, driver, DeleteText(table, "id = ?"), [Str(id)]) == (tables, None)
    ensures Lower(table) in tables ==>
              var t := tables[Lower(table)];
              RunText(tables, driver, DeleteText(table, "id = ?"), [Str(id)]) ==
              (tables[Lower(table) := t.(rows := t.rows - {id})], Some(if id in t.rows then 1 else 0))
  {
    var cond := Equate(Col("id"), Param(1));
    assert Parse(DeleteText(table, "id = ?")) == Some(Delete(Lower(table), cond)) by {
      LowerId();
      IdIsIdent();
      assert Condition(NameText(Bare("id")), Placeholder(Marks, 1)) == "id = ?";
      DeleteParses(Bare(table), Bare("id"), Marks);
    }
    hide Parse, DeleteText, Lex;
    BindOne(Str(id));
    if Lower(table) in tables {
      var t := tables[Lower(table)];
      if id !in t.rows { assert t.rows - {id} == t.rows; }
      RunKnown(tables, driver, Delete(Lower(table), cond), [Str(id)], [Text(id)], DeleteRow(t.rows, id));
    }
  }

  // ---------------------------------------------------------------- the adapter

  class SQLiteStorage {
    var db: Database?
    var sch: Option<Schema>
    const marshal: Marshal

    ghost predicate Valid()
      reads this, db
    {
      db != null ==> AllHealthy(db.tables)
    }

    ghost predicate Ready(name: string)
      reads this, db
    {
      db != null && AllHealthy(db.tables) && sch.Some? && Installed(sch.value, db.tables, db.driver, name)
    }

    constructor (marshal: Marshal)
      ensures Valid() && db == null && sch == None && this.marshal == marshal
    {
      this.marshal := marshal;
      db, sch := null, None;
    }

    method Connect(database: Database)
      requires AllHealthy(database.tables)
      modifies this`db
      ensures Valid() && db == database
    {
      db := database;
    }

    /** Creates the tables of a schema, in whatever order they come, and adopts the schema if the
        database took them all. It stops at the first one the database refuses, and the ones made
        before that stay. */
    method CreateTables(schema: Schema) returns (ok: bool, ghost made: set<string>)
      requires Valid() && BuiltSchema(schema)
      modifies this`sch, db
      ensures Valid()
      ensures db == null ==> !ok
      ensures sch == if ok then Some(schema) else old(sch)
      ensures made <= schema.Keys && (ok ==> made == schema.Keys)
      ensures db != null && PlainSchema(schema) ==>
                && (ok <==> forall name <- schema :: Accepted(schema[name], Lower(name) in old(db.tables)))
                && AllCreated(schema, old(db.tables), db.driver, made, db.tables)
    {
      hide Accepted, AllCreated, PlainTable, BuiltByAddField, Healthy, RunText;
      made := {};
      if db == null {
        ok := false;
        return;
      }
      var names := RangeOver(schema.Keys);
      InRange(names, schema.Keys);
      NoneCreated(schema, db.tables, db.driver);
      for k := 0 to |names|
        invariant Valid() && sch == old(sch)
        invariant made == (set n | n in names[..k]) && made <= schema.Keys
        invariant PlainSchema(schema) ==> AllCreated(schema, old(db.tables), db.driver, made, db.tables)
        invariant PlainSchema(schema) ==> forall name <- made :: Accepted(schema[name], Lower(name) in old(db.tables))
      {
        assert names[..k + 1] == names[..k] + [names[k]];
        ghost var before := db.tables;
        var query, cols := PrintCreate(schema[names[k]]);
        var affected := db.Exec(query, []);
        if PlainSchema(schema) {
          CreateTextRuns(before, db.driver, schema[names[k]], cols);
          OneMoreCreated(schema, old(db.tables), db.driver, made, before, names[k], db.tables, affected);
        }
        if affected == None {
          ok := false;
          return;
        }
        made := made + {names[k]};
      }
      assert names[..|names|] == names && made == schema.Keys;
      sch := Some(schema);
      ok := true;
    }

    /** INSERT OR REPLACE; order is the order its range over the fields took. Whatever goes wrong,
        the tables are left as they were. */
    method Insert(obj: Object) returns (out: Outcome<bool>, ghost order: seq<string>)
      requires Valid()
      modifies db
      ensures Valid() && RangeOrder(order, obj.fields.Keys) && Covers(obj.fields, NonId(order))
      ensures db != null && !out.Ok? ==> db.tables == old(db.tables)
      ensures db == null ==> out == Err(NotConnected)
      ensures db != null && !Marshals(marshal, obj.fields) ==> out == Err(CannotMarshal)
      ensures db != null && Marshals(marshal, obj.fields) && sch == None ==> out == Err(NoSchema)
      ensures db != null && Marshals(marshal, obj.fields) && sch.Some? && obj.tableName !in sch.value ==> out == Panic
      ensures db != null && Marshals(marshal, obj.fields) && sch.Some? && obj.tableName in sch.value
              && !ColumnsKnown(sch.value[obj.tableName], obj.fields) ==>
                && out == FirstFault(marshal, sch.value[obj.tableName], obj.fields, order)
                && out.Err? && FirstFaulty(marshal, sch.value[obj.tableName], obj.fields, NonId(order), out.reason)
                && db.tables == old(db.tables)
      ensures old(Ready(obj.tableName)) && Marshals(marshal, obj.fields)
              && ColumnsKnown(sch.value[obj.tableName], obj.fields) ==>
                (db.tables, out) == InsertSpec(sch.value, old(db.tables), db.driver, marshal, obj)
    {
      hide RunText, InsertText, ReplaceOutcome, Mirrors, Healthy, BuiltByAddField, InsertStored, RangeOrder;
      order := SomeOrder(obj.fields);
      if db == null {
        out := Err(NotConnected);
        return;
      }
      var marshals := AllMarshal(marshal, obj.fields);
      if !marshals {
        out := Err(CannotMarshal);
        return;
      }
      if sch == None {
        out := Err(NoSchema);
        return;
      }
      if obj.tableName !in sch.value {
        out := Panic;
        return;
      }
      var tbl := sch.value[obj.tableName];
      var ranged := RangeOver(obj.fields.Keys);
      order := ranged;
      var columns, placeholders, values, err := PrepareInsertData(obj, tbl, Marks, marshal, ranged);
      UnknownIsNoticed(marshal, tbl, obj.fields, order);
      if err != None {
        out := Err(err.value);
        return;
      }
      var query := InsertText(InsertOrReplace, tbl.name, columns, placeholders);
      if old(Ready(obj.tableName)) {
        InsertTextRuns(sch.value, db.tables, db.driver, marshal, obj, order);
      }
      var affected := db.Exec(query, values);
      out := if affected == None then Err(Storage) else Ok(true);
    }

    /** UPDATE by id; order is the order its range over the fields took. */
    method Update(obj: Object) returns (out: Outcome<bool>, ghost order: seq<string>)
      requires Valid()
      modifies db
      ensures Valid() && RangeOrder(order, obj.fields.Keys)
      ensures db != null && !out.Ok? ==> db.tables == old(db.tables)
      ensures db == null ==> out == Err(NotConnected)
      ensures db != null && sch == None ==> out == Err(NoSchema)
      ensures db != null && sch.Some? && obj.tableName !in sch.value ==> out == Panic
      ensures old(Ready(obj.tableName)) && PlainObject(obj) ==>
                (db.tables, out) == UpdateSpec(sch.value, old(db.tables), db.driver, obj, order)
    {
      hide RunText, UpdateText, UpdateInOrder, Mirrors, Healthy, BuiltByAddField, PlainObject, RangeOrder;
      order := SomeOrder(obj.fields);
      if db == null {
        out := Err(NotConnected);
        return;
      }
      if sch == None {
        out := Err(NoSchema);
        return;
      }
      if obj.tableName !in sch.value {
        out := Panic;
        return;
      }
      var tbl := sch.value[obj.tableName];
      var ranged := RangeOver(obj.fields.Keys);
      order := ranged;
      var prepared := PrepareUpdateData(obj, Marks, ranged);
      if prepared.Panic? {
        out := Panic;
        return;
      }
      var (setClauses, values) := prepared.value;
      var query := UpdateText(tbl.name, setClauses, "id = ?");
      if old(Ready(obj.tableName)) && PlainObject(obj) {
        UpdateObjectRuns(sch.value, db.tables, db.driver, obj, order);
      }
      var affected := db.Exec(query, values);
      out := if affected == None then Err(Storage) else Ok(affected.value > 0);
    }

    /** Upsert delegates to Insert. */
    method Upsert(obj: Object) returns (out: Outcome<bool>, ghost order: seq<string>)
      requires Valid()
      modifies db
      ensures Valid() && RangeOrder(order, obj.fields.Keys) && Covers(obj.fields, NonId(order))
      ensures db != null && !out.Ok? ==> db.tables == old(db.tables)
      ensures db == null ==> out == Err(NotConnected)
      ensures db != null && !Marshals(marshal, obj.fields) ==> out == Err(CannotMarshal)
      ensures db != null && Marshals(marshal, obj.fields) && sch == None ==> out == Err(NoSchema)
      ensures db != null && Marshals(marshal, obj.fields) && sch.Some? && obj.tableName !in sch.value ==> out == Panic
      ensures db != null && Marshals(marshal, obj.fields) && sch.Some? && obj.tableName in sch.value
              && !ColumnsKnown(sch.value[obj.tableName], obj.fields) ==>
                && out == FirstFault(marshal, sch.value[obj.tableName], obj.fields, order)
                && out.Err? && FirstFaulty(marshal, sch.value[obj.tableName], obj.fields, NonId(order), out.reason)
                && db.tables == old(db.tables)
      ensures old(Ready(obj.tableName)) && Marshals(marshal, obj.fields)
              && ColumnsKnown(sch.value[obj.tableName], obj.fields) ==>
                (db.tables, out) == InsertSpec(sch.value, old(db.tables), db.driver, marshal, obj)
    {
      out, order := Insert(obj);
    }

    /** SELECT by one column, through CommonFindByKey and the field scanner. */
    method FindByKey(tblName: string, key: string, value: string) returns (out: Outcome<Option<Object>>)
      requires Valid() && (db != null && sch.Some? && tblName in sch.value ==> Asked(sch.value, db.tables, db.driver,
                                                                                     tblName))
      ensures db == null ==> out == Err(NotConnected)
      ensures db != null && (tblName == "" || key == "" || value == "") ==> out == Err(EmptyArgument)
      ensures db != null && tblName != "" && key != "" && value != "" && (sch == None || tblName !in sch.value) ==>
              out == Panic
      ensures db != null && tblName != "" && key != "" && value != "" && sch.Some? && tblName in sch.value ==>
                if Ready(tblName)
                then FindSpec(db.driver, sch.value[tblName], db.tables[Lower(tblName)].rows, key, value, out)
                else out == Err(Storage)
    {
      if db == null {
        return Err(NotConnected);
      }
      if tblName == "" || key == "" || value == "" {
        return Err(EmptyArgument);
      }
      if sch == None || tblName !in sch.value {
        return Panic;
      }
      out := CommonFindByKey(db, sch.value[tblName], key, value);
    }

    method FindByID(tblName: string, id: string) returns (out: Outcome<Option<Object>>)
      requires Valid() && (db != null && sch.Some? && tblName in sch.value ==> Asked(sch.value, db.tables, db.driver,
                                                                                     tblName))
      ensures db == null ==> out == Err(NotConnected)
      ensures db != null && (tblName == "" || id == "") ==> out == Err(EmptyArgument)
      ensures db != null && tblName != "" && id != "" && (sch == None || tblName !in sch.value) ==> out == Panic
      ensures db != null && tblName != "" && id != "" && sch.Some? && tblName in sch.value ==>
                if Ready(tblName) then
                  var info := sch.value[tblName]; var rows := db.tables[Lower(tblName)].rows;
                  && SeesRows(info, rows)
                  && out == if id in rows then Read(db.driver, info, id, rows[id]) else Ok(None)
                else out == Err(Storage)
    {
      out := FindByKey(tblName, "id", id);
    }

    /** DELETE by id; the table name goes into the text as given. */
    method DeleteByID(tblName: string, id: string) returns (out: Outcome<bool>)
      requires Valid()
      modifies db
      ensures Valid()
      ensures db == null ==> out == Err(NotConnected)
      ensures db != null && !out.Ok? ==> db.tables == old(db.tables)
      ensures db != null && IsIdent(tblName) && Lower(tblName) !in old(db.tables) ==> out == Err(Storage)
      ensures db != null && IsIdent(tblName) && Lower(tblName) in old(db.tables) ==>
                var t := old(db.tables)[Lower(tblName)];
                && out == Ok(id in t.rows)
                && db.tables == old(db.tables)[Lower(tblName) := t.(rows := t.rows - {id})]
    {
      if db == null {
        return Err(NotConnected);
      }
      var query := DeleteText(tblName, "id = ?");
      if IsIdent(tblName) {
        DeleteTextRuns(db.tables, db.driver, tblName, id);
      }
      var affected := db.Exec(query, [Str(id)]);
      return if affected == None then Err(Storage) else Ok(affected.value > 0);
    }
  }

  method AllMarshal(marshal: Marshal, fields: map<string, Value>) returns (ok: bool)
    ensures ok <==> Marshals(marshal, fields)
  {
    var rest := fields.Keys;
    while rest != {}
      invariant rest <= fields.Keys
      invariant forall n <- fields :: n !in rest ==> marshal(fields[n]).Some?
      decreases rest
    {
      var n :| n in rest;
      if marshal(fields[n]) == None {
        return false;
      }
      rest := rest - {n};
    }
    return true;
  }
}
