/** Whole runs of the SQLite adapter, and what they say about the rows. */
module SqliteRuns {
  import opened Outcomes
  import opened Text
  import opened Values
  import opened Sql
  import opened Engine
  import opened Ddl
  import opened Databases
  import opened Common
  import opened Scanner
  import opened Effects
  import opened Creation
  import opened Sqlite
  import opened SqliteTx

  // ---------------------------------------------------------------- calls

  datatype Command =
    | InsertCmd(obj: Object)
    | UpsertCmd(obj: Object)
    | UpdateCmd(obj: Object)
    | DeleteCmd(table: string, id: string)
    | FindCmd(table: string, id: string)

  /** A command, and the order in which it ranged over the fields of its object. */
  datatype Call = Call(cmd: Command, order: seq<string>)

  datatype Reply = Flag(flag: Outcome<bool>) | Fetched(found: Outcome<Option<Object>>)

  function TableOf(cmd: Command): string {
    match cmd
    case InsertCmd(obj) => obj.tableName
    case UpsertCmd(obj) => obj.tableName
    case UpdateCmd(obj) => obj.tableName
    case DeleteCmd(t, _) => t
    case FindCmd(t, _) => t
  }

  /** The names that go into a statement unchecked are plain identifiers. */
  ghost predicate Sayable(cmd: Command) {
    match cmd
    case UpdateCmd(obj) => PlainObject(obj)
    case DeleteCmd(t, _) => IsIdent(t)
    case _ => true
  }

  ghost predicate Possible(call: Call) {
    && Sayable(call.cmd)
    && (call.cmd.InsertCmd? || call.cmd.UpsertCmd? || call.cmd.UpdateCmd? ==>
        RangeOrder(call.order, call.cmd.obj.fields.Keys))
  }

  /** The database side of a schema whose tables have all been created. */
  ghost predicate AllInstalled(sch: Schema, tables: Tables, driver: Driver) {
    AllHealthy(tables) && forall n <- sch :: Installed(sch, tables, driver, n)
  }

  // ---------------------------------------------------------------- the map the adapter refines

  /** An Insert: errors and panics before the database is reached, else the row replaced. */
  ghost function InsertStep(sch: Schema, tables: Tables, driver: Driver, marshal: Marshal, obj: Object,
                            order: seq<string>)
    : (Tables, Outcome<bool>)
    requires AllInstalled(sch, tables, driver) && RangeOrder(order, obj.fields.Keys)
  {
    NonIdCovered(obj.fields, order);
    if !Marshals(marshal, obj.fields) then (tables, Err(CannotMarshal))
    else if obj.tableName !in sch then (tables, Panic)
    else if !ColumnsKnown(sch[obj.tableName], obj.fields) then
      (tables, FirstFault(marshal, sch[obj.tableName], obj.fields, order))
    else InsertSpec(sch, tables, driver, marshal, obj)
  }

  /** One call on the rows of its table. */
  ghost function Step(sch: Schema, tables: Tables, driver: Driver, marshal: Marshal, call: Call): (Tables, Reply)
    requires AllInstalled(sch, tables, driver) && Possible(call)
  {
    match call.cmd
    case InsertCmd(obj) =>
      var (after, out) := InsertStep(sch, tables, driver, marshal, obj, call.order);
      (after, Flag(out))
    case UpsertCmd(obj) =>
      var (after, out) := InsertStep(sch, tables, driver, marshal, obj, call.order);
      (after, Flag(out))
    case UpdateCmd(obj) =>
      if obj.tableName !in sch then (tables, Flag(Panic))
      else
        var (after, out) := UpdateSpec(sch, tables, driver, obj, call.order);
        (after, Flag(out))
    case DeleteCmd(name, id) =>
      if Lower(name) !in tables then (tables, Flag(Err(Storage)))
      else
        var t := tables[Lower(name)];
        (tables[Lower(name) := t.(rows := t.rows - {id})], Flag(Ok(id in t.rows)))
    case FindCmd(name, id) =>
      (tables, Fetched(if name == "" || id == "" then Err(EmptyArgument)
                       else if name !in sch then Panic
                       else FoundIn(sch, tables, driver, name, id)))
  }

  /** What FindByID returns: the row under id, if there is one. */
  ghost function FoundIn(sch: Schema, tables: Tables, driver: Driver, name: string, id: string)
    : Outcome<Option<Object>>
  {
    if name in sch && Lower(name) in tables && id in tables[Lower(name)].rows
      && SeesRow(sch[name], tables[Lower(name)].rows[id]) then
      Read(driver, sch[name], id, tables[Lower(name)].rows[id])
    else Ok(None)
  }

  lemma InstalledSees(sch: Schema, tables: Tables, driver: Driver, name: string)
    requires AllInstalled(sch, tables, driver) && name in sch
    ensures SeesRows(sch[name], tables[Lower(name)].rows)
  {
    MirroredRows(sch[name], tables[Lower(name)], driver);
  }

  /** Only the rows of a table change: its columns and every other table stay as they are. */
  ghost predicate RowsOnly(tables: Tables, after: Tables, name: string) {
    && name in tables && after.Keys == tables.Keys
    && (forall n <- tables :: n != name ==> after[n] == tables[n])
    && after[name] == tables[name].(rows := after[name].rows)
  }

  lemma RowsOnlyKeepsInstalled(sch: Schema, tables: Tables, after: Tables, driver: Driver, name: string)
    requires AllInstalled(sch, tables, driver) && RowsOnly(tables, after, name)
    requires Healthy(after[name].cols, after[name].rows)
    ensures AllInstalled(sch, after, driver)
  {
    hide Mirrors, Healthy, BuiltByAddField;
    forall n | n in sch ensures Installed(sch, after, driver, n) {
      assert Installed(sch, tables, driver, n);
      assert after[Lower(n)].cols == tables[Lower(n)].cols;
    }
  }

  /** A call changes rows of the table it names and nothing else, and a table that is not there is
      not made. */
  ghost predicate Confined(tables: Tables, after: Tables, name: string) {
    if name in tables then RowsOnly(tables, after, name) else after == tables
  }

  /** Each step touches one table, keeps its constraints, and changes nothing when it fails. */
  lemma StepFacts(sch: Schema, tables: Tables, driver: Driver, marshal: Marshal, call: Call)
    requires AllInstalled(sch, tables, driver) && Possible(call)
    ensures var (after, reply) := Step(sch, tables, driver, marshal, call);
            && Confined(tables, after, Lower(TableOf(call.cmd)))
            && AllInstalled(sch, after, driver)
            && (reply.Flag? && !reply.flag.Ok? ==> after == tables)
  {
    hide Mirrors, Installed, InsertSpec, UpdateSpec, Read, PlainObject, IsIdent, FoundIn, RangeOrder;
    match call.cmd {
      case InsertCmd(obj) => InsertFacts(sch, tables, driver, marshal, obj, call.order);
      case UpsertCmd(obj) => InsertFacts(sch, tables, driver, marshal, obj, call.order);
      case UpdateCmd(obj) => UpdateFacts(sch, tables, driver, obj, call.order);
      case DeleteCmd(name, id) =>
        if Lower(name) in tables { DeleteFacts(sch, tables, driver, Lower(name), id); }
      case FindCmd(_, _) =>
    }
  }

  lemma StoreRows(tables: Tables, name: string, rows: Rows)
    requires name in tables && Healthy(tables[name].cols, rows)
    ensures var after := tables[name := tables[name].(rows := rows)];
            RowsOnly(tables, after, name) && Healthy(after[name].cols, after[name].rows)
  {
    hide Healthy;
  }

  lemma ReplaceFacts(tables: Tables, driver: Driver, name: string, id: string, stored: map<string, Value>)
    requires AllHealthy(tables) && name in tables
    ensures var (after, n) := ReplaceOutcome(tables, driver, name, id, stored);
            RowsOnly(tables, after, name) && Healthy(after[name].cols, after[name].rows)
              && (n == None ==> after == tables)
  {
    var t := tables[name];
    assert WellShaped(t.cols, t.rows);
    hide Healthy, Blockers, Fill, NotNullHolds, ReplaceRow, KeptCells;
    StoreRows(tables, name, t.rows);
    assert t == t.(rows := t.rows) && tables == tables[name := t];
    if Bindable(stored) {
      var given := KeptCells(t.cols, driver, stored);
      ReplaceKeepsHealthy(t.cols, t.rows, id, given, true);
      var r := ReplaceRow(t.cols, t.rows, id, given, true);
      if r.Done? { StoreRows(tables, name, r.rows); }
    }
  }

  lemma SetFacts(tables: Tables, driver: Driver, name: string, id: string, given: map<string, Cell>)
    requires AllHealthy(tables) && name in tables
    ensures var (after, n) := RowSet(tables, driver, name, id, given);
            RowsOnly(tables, after, name) && Healthy(after[name].cols, after[name].rows)
              && (n == None ==> after == tables)
  {
    var t := tables[name];
    assert WellShaped(t.cols, t.rows);
    hide Healthy, Blockers, NotNullHolds, UpdateRow, Kept;
    StoreRows(tables, name, t.rows);
    assert t == t.(rows := t.rows) && tables == tables[name := t];
    UpdateKeepsHealthy(t.cols, t.rows, id, Kept(t.cols, driver, given));
    var u := UpdateRow(t.cols, t.rows, id, Kept(t.cols, driver, given));
    if u.Done? { StoreRows(tables, name, u.rows); }
  }

  lemma Unchanged(sch: Schema, tables: Tables, driver: Driver, name: string)
    requires AllInstalled(sch, tables, driver)
    ensures Confined(tables, tables, name)
  {
    if name in tables { assert tables[name] == tables[name].(rows := tables[name].rows); }
  }

  lemma InsertFacts(sch: Schema, tables: Tables, driver: Driver, marshal: Marshal, obj: Object, order: seq<string>)
    requires AllInstalled(sch, tables, driver) && RangeOrder(order, obj.fields.Keys)
    ensures var (after, out) := InsertStep(sch, tables, driver, marshal, obj, order);
            && Confined(tables, after, Lower(obj.tableName)) && AllInstalled(sch, after, driver)
            && (!out.Ok? ==> after == tables)
  {
    hide Mirrors, BuiltByAddField, ReplaceOutcome, Healthy, InsertStored, FirstFault, RangeOrder;
    Unchanged(sch, tables, driver, Lower(obj.tableName));
    if Marshals(marshal, obj.fields) && obj.tableName in sch {
      assert Installed(sch, tables, driver, obj.tableName);
      if ColumnsKnown(sch[obj.tableName], obj.fields) {
        var stored := InsertStored(marshal, sch[obj.tableName], obj.fields);
        ReplaceFacts(tables, driver, Lower(obj.tableName), obj.id, stored);
        RowsOnlyKeepsInstalled(sch, tables, ReplaceOutcome(tables, driver, Lower(obj.tableName), obj.id, stored).0,
                               driver, Lower(obj.tableName));
      } else {
        NonIdCovered(obj.fields, order);
        UnknownIsNoticed(marshal, sch[obj.tableName], obj.fields, order);
        FaultIsErr(marshal, sch[obj.tableName], obj.fields, order);
      }
    }
  }

  lemma FaultIsErr(marshal: Marshal, info: TableInfo, fields: map<string, Value>, order: seq<string>)
    requires Covers(fields, NonId(order)) && Fault(marshal, info, fields, NonId(order)).Some?
    ensures FirstFault(marshal, info, fields, order).Err?
  {
  }

  lemma UpdateFacts(sch: Schema, tables: Tables, driver: Driver, obj: Object, order: seq<string>)
    requires AllInstalled(sch, tables, driver) && RangeOrder(order, obj.fields.Keys)
    ensures Confined(tables, tables, Lower(obj.tableName))
    ensures obj.tableName in sch ==>
              && Lower(obj.tableName) in tables
              && var (after, out) := UpdateSpec(sch, tables, driver, obj, order);
                 && Confined(tables, after, Lower(obj.tableName)) && AllInstalled(sch, after, driver)
                 && (!out.Ok? ==> after == tables)
  {
    hide Mirrors, BuiltByAddField, RowSet, Healthy, LastCells, Bindable, RangeOrder, Lists;
    Unchanged(sch, tables, driver, Lower(obj.tableName));
    if obj.tableName in sch {
      assert Installed(sch, tables, driver, obj.tableName);
      RangeStored(order, obj.fields);
      var given := LastCells(UpdateStored(obj.fields), NonId(order));
      SetFacts(tables, driver, Lower(obj.tableName), obj.id, given);
      RowsOnlyKeepsInstalled(sch, tables, RowSet(tables, driver, Lower(obj.tableName), obj.id, given).0,
                             driver, Lower(obj.tableName));
    }
  }

  lemma DeleteFacts(sch: Schema, tables: Tables, driver: Driver, name: string, id: string)
    requires AllInstalled(sch, tables, driver) && name in tables
    ensures var after := tables[name := tables[name].(rows := tables[name].rows - {id})];
            RowsOnly(tables, after, name) && AllInstalled(sch, after, driver)
  {
    hide Mirrors, Installed;
    var t := tables[name];
    var after := tables[name := t.(rows := t.rows - {id})];
    assert Healthy(t.cols, t.rows - {id}) by { DeleteKeepsHealthy(t.cols, t.rows,
                                                                  id); FewerHealthy(t.cols, t.rows, id); }
    StoreRows(tables, name, t.rows - {id});
    RowsOnlyKeepsInstalled(sch, tables, after, driver, name);
  }

  lemma FewerHealthy(cols: map<string, ColDef>, rows: Rows, id: string)
    requires Healthy(cols, rows)
    ensures Healthy(cols, rows - {id})
  {
  }

  ghost function Run(sch: Schema, tables: Tables, driver: Driver, marshal: Marshal, calls: seq<Call>)
    : (Tables, seq<Reply>)
    requires AllInstalled(sch, tables, driver)
    requires forall i :: 0 <= i < |calls| ==> Possible(calls[i])
    ensures AllInstalled(sch, Run(sch, tables, driver, marshal, calls).0, driver)
    ensures |Run(sch, tables, driver, marshal, calls).1| == |calls|
  {
    if calls == [] then (tables, [])
    else
      var k := |calls| - 1;
      var (before, replies) := Run(sch, tables, driver, marshal, calls[..k]);
      StepFacts(sch, before, driver, marshal, calls[k]);
      var (after, reply) := Step(sch, before, driver, marshal, calls[k]);
      (after, replies + [reply])
  }

  lemma RunOneMore(sch: Schema, tables: Tables, driver: Driver, marshal: Marshal, calls: seq<Call>,
                   before: Tables, replies: seq<Reply>, after: Tables, reply: Reply)
    requires AllInstalled(sch, tables, driver) && calls != []
    requires forall i :: 0 <= i < |calls| ==> Possible(calls[i])
    requires (before, replies) == Run(sch, tables, driver, marshal, calls[..|calls| - 1])
    requires (after, reply) == Step(sch, before, driver, marshal, calls[|calls| - 1])
    ensures (after, replies + [reply]) == Run(sch, tables, driver, marshal, calls)
  {
    hide AllInstalled, Possible, Step;
  }

  /** The calls are these commands, each with some range order. */
  ghost predicate CallsOf(calls: seq<Call>, cmds: seq<Command>) {
    |calls| == |cmds| && forall i :: 0 <= i < |cmds| ==> calls[i].cmd == cmds[i] && Possible(calls[i])
  }

  /** The adapter, driven through any run of commands, gives the replies of the map and leaves the
      rows of the map. */
  method Drive(s: SQLiteStorage, cmds: seq<Command>) returns (replies: seq<Reply>, ghost calls: seq<Call>)
    requires s.Valid() && s.db != null && s.sch.Some? && AllInstalled(s.sch.value, s.db.tables, s.db.driver)
    requires forall i :: 0 <= i < |cmds| ==> Sayable(cmds[i])
    modifies s.db
    ensures s.Valid() && CallsOf(calls, cmds)
    ensures (s.db.tables, replies) == Run(s.sch.value, old(s.db.tables), s.db.driver, s.marshal, calls)
  {
    hide AllInstalled, Sayable, Possible, Step;
    replies, calls := [], [];
    for k := 0 to |cmds|
      invariant s.Valid() && AllInstalled(s.sch.value, s.db.tables, s.db.driver)
      invariant CallsOf(calls, cmds[..k])
      invariant (s.db.tables, replies) == Run(s.sch.value, old(s.db.tables), s.db.driver, s.marshal, calls)
    {
      ghost var before := s.db.tables;
      var reply, call := Perform(s, cmds[k]);
      assert (calls + [call])[..|calls + [call]| - 1] == calls;
      calls := calls + [call];
      RunOneMore(s.sch.value, old(s.db.tables), s.db.driver, s.marshal, calls, before, replies, s.db.tables, reply);
      replies := replies + [reply];
    }
    assert cmds[..|cmds|] == cmds;
  }

  method Perform(s: SQLiteStorage, cmd: Command) returns (reply: Reply, ghost call: Call)
    requires s.Valid() && s.db != null && s.sch.Some? && AllInstalled(s.sch.value, s.db.tables, s.db.driver)
    requires Sayable(cmd)
    modifies s.db
    ensures s.Valid() && AllInstalled(s.sch.value, s.db.tables, s.db.driver)
    ensures call.cmd == cmd && Possible(call)
    ensures (s.db.tables, reply) == Step(s.sch.value, old(s.db.tables), s.db.driver, s.marshal, call)
  {
    hide IsIdent, ColumnMatches, Healthy, BuiltByAddField, UpdateInOrder, ReplaceOutcome, InsertStored, UpdateStored,
         Read, FoldsApart, RangeOrder, FirstFault, PlainObject, Mirrors;
    var out: Outcome<bool>;
    ghost var order: seq<string> := [];
    if TableOf(cmd) in s.sch.value {
      assert Installed(s.sch.value, s.db.tables, s.db.driver, TableOf(cmd));
    }
    match cmd {
      case InsertCmd(obj) =>
        out, order := s.Insert(obj);
        reply := Flag(out);
      case UpsertCmd(obj) =>
        out, order := s.Upsert(obj);
        reply := Flag(out);
      case UpdateCmd(obj) =>
        out, order := s.Update(obj);
        reply := Flag(out);
      case DeleteCmd(table, id) =>
        out := s.DeleteByID(table, id);
        reply := Flag(out);
      case FindCmd(table, id) =>
        var found := s.FindByID(table, id);
        if table in s.sch.value {
          InstalledSees(s.sch.value, s.db.tables, s.db.driver, table);
        }
        reply := Fetched(found);
    }
    call := Call(cmd, order);
    StepFacts(s.sch.value, old(s.db.tables), s.db.driver, s.marshal, call);
  }

  /** The transaction copies take the same step, for tables whose column types they list. */
  method PerformTx(s: SQLiteStorage, tx: Database, cmd: Command) returns (reply: Reply, ghost call: Call)
    requires s.sch.Some? && BuiltSchema(s.sch.value) && AllInstalled(s.sch.value, tx.tables, tx.driver)
    requires SayableTx(s.sch.value, cmd)
    modifies tx
    ensures AllInstalled(s.sch.value, tx.tables, tx.driver)
    ensures call.cmd == cmd && Possible(call)
    ensures (tx.tables, reply) == Step(s.sch.value, old(tx.tables), tx.driver, s.marshal, call)
  {
    hide IsIdent, ColumnMatches, Healthy, BuiltByAddField, UpdateInOrder, ReplaceOutcome, InsertStored, UpdateStored,
         Read, FoldsApart, RangeOrder, FirstFault, PlainObject, Mirrors, AllSupported, FindSpec, RunText, FoundIn,
         Marshals, ColumnsKnown;
    var out: Outcome<bool>;
    ghost var order: seq<string> := [];
    if TableOf(cmd) in s.sch.value {
      assert Installed(s.sch.value, tx.tables, tx.driver, TableOf(cmd));
    }
    match cmd {
      case InsertCmd(obj) =>
        out, order := InsertTx(s, tx, obj);
        reply := Flag(out);
      case UpsertCmd(obj) =>
        out, order := UpsertTx(s, tx, obj);
        reply := Flag(out);
      case UpdateCmd(obj) =>
        out, order := UpdateTx(s, tx, obj);
        reply := Flag(out);
      case DeleteCmd(table, id) =>
        out := DeleteByIDTx(tx, table, id);
        reply := Flag(out);
      case FindCmd(table, id) =>
        var found := FindByKeyTx(s, tx, table, "id", id);
        if table in s.sch.value && table != "" && id != "" {
          FoundById(s.sch.value, tx.tables, tx.driver, table, id, found);
        }
        reply := Fetched(found);
    }
    call := Call(cmd, order);
    StepFacts(s.sch.value, old(tx.tables), tx.driver, s.marshal, call);
  }

  /** Commands a transaction answers as the storage does: lookups are in tables whose column types
      the transaction lists. */
  ghost predicate SayableTx(sch: Schema, cmd: Command) {
    Sayable(cmd) && (cmd.FindCmd? && cmd.table in sch ==> AllSupported(sch[cmd.table]))
  }

  /** A transaction, driven through any run of commands, gives the replies of the same map as the
      storage and leaves its rows. */
  method DriveTx(s: SQLiteStorage, tx: Database, cmds: seq<Command>)
    returns (replies: seq<Reply>, ghost calls: seq<Call>)
    requires s.sch.Some? && BuiltSchema(s.sch.value) && AllInstalled(s.sch.value, tx.tables, tx.driver)
    requires forall i :: 0 <= i < |cmds| ==> SayableTx(s.sch.value, cmds[i])
    modifies tx
    ensures CallsOf(calls, cmds)
    ensures (tx.tables, replies) == Run(s.sch.value, old(tx.tables), tx.driver, s.marshal, calls)
  {
    hide AllInstalled, BuiltSchema, Sayable, Possible, Step, AllSupported;
    replies, calls := [], [];
    for k := 0 to |cmds|
      invariant AllInstalled(s.sch.value, tx.tables, tx.driver)
      invariant CallsOf(calls, cmds[..k])
      invariant (tx.tables, replies) == Run(s.sch.value, old(tx.tables), tx.driver, s.marshal, calls)
    {
      ghost var before := tx.tables;
      var reply, call := PerformTx(s, tx, cmds[k]);
      assert (calls + [call])[..|calls + [call]| - 1] == calls;
      calls := calls + [call];
      RunOneMore(s.sch.value, old(tx.tables), tx.driver, s.marshal, calls, before, replies, tx.tables, reply);
      replies := replies + [reply];
    }
    assert cmds[..|cmds|] == cmds;
  }

  /** A lookup by id finds the row under that id, and no other. */
  lemma FoundById(sch: Schema, tables: Tables, driver: Driver, name: string, id: string, out: Outcome<Option<Object>>)
    requires AllInstalled(sch, tables, driver) && name in sch
    requires FindSpec(driver, sch[name], tables[Lower(name)].rows, "id", id, out)
    ensures out == FoundIn(sch, tables, driver, name, id)
  {
    hide Read, Healthy, ColumnMatches, IsIdent, BuiltByAddField;
    InstalledSees(sch, tables, driver, name);
    var rows := tables[Lower(name)].rows;
    assert "id" in sch[name].fields;
    assert FindReply(driver, sch[name], rows, "id", id, out);
    if id in rows {
      assert HasKey(driver, sch[name], rows, id, "id", id);
    }
  }

  // ---------------------------------------------------------------- from an empty database

  /** A schema that can be created and then used: every table has an id column and only column
      types and flags the database takes. */
  ghost predicate Usable(sch: Schema) {
    && BuiltSchema(sch) && PlainSchema(sch)
    && forall name <- sch :: "id" in sch[name].fields && Accepted(sch[name], false)
  }

  lemma NewIsInstalled(info: TableInfo, driver: Driver, t: Table)
    requires PlainTable(info) && Accepted(info, false) && "id" in info.fields && NewTable(info, driver, t)
    ensures Mirrors(info, t.cols, driver) && t.rows == map[]
  {
    hide ColumnMatches, IsIdent;
    assert FoldsApart(info.fields.Keys + {"id"});
    assert info.fields.Keys + {"id"} == info.fields.Keys;
    forall n | n in info.fields ensures IsIdent(n) {
      assert PlainField(info.fields[n]);
    }
  }

  lemma NoRowsHealthy(cols: map<string, ColDef>, rows: Rows)
    requires rows == map[]
    ensures Healthy(cols, rows)
  {
  }

  lemma CreatedIsInstalled(sch: Schema, after: Tables, driver: Driver)
    requires Usable(sch) && AllCreated(sch, map[], driver, sch.Keys, after)
    ensures AllInstalled(sch, after, driver) && forall name <- sch :: after[Lower(name)].rows == map[]
  {
    hide NewTable, Mirrors, BuiltByAddField, PlainTable, Accepted, Healthy, FoldsApart;
    forall name | name in sch ensures Installed(sch, after, driver, name) && after[Lower(name)].rows == map[] {
      NewIsInstalled(sch[name], driver, after[Lower(name)]);
    }
    forall n | n in after ensures Healthy(after[n].cols, after[n].rows) {
      assert n in FoldAll(sch.Keys);
      var name :| name in sch && Lower(name) == n;
      NoRowsHealthy(after[n].cols, after[Lower(name)].rows);
    }
  }

  /** A fresh adapter on an empty database: CreateTables succeeds, and whatever is then asked of
      the adapter is answered as by the map, starting from empty tables. */
  method Session(marshal: Marshal, driver: Driver, schema: Schema, cmds: seq<Command>)
    returns (s: SQLiteStorage, replies: seq<Reply>, ghost empty: Tables, ghost calls: seq<Call>)
    requires Usable(schema) && forall i :: 0 <= i < |cmds| ==> Sayable(cmds[i])
    ensures s.db != null && AllInstalled(schema, empty, driver)
    ensures forall name <- schema :: empty[Lower(name)].rows == map[]
    ensures CallsOf(calls, cmds)
    ensures (s.db.tables, replies) == Run(schema, empty, driver, marshal, calls)
  {
    hide AllInstalled, Sayable, CallsOf, Step, Run, PlainTable, BuiltByAddField, NoSerial, Declarable;
    s := new SQLiteStorage(marshal);
    var db := new Database(driver);
    s.Connect(db);
    var created, made := s.CreateTables(schema);
    CreatedIsInstalled(schema, s.db.tables, driver);
    empty := s.db.tables;
    replies, calls := Drive(s, cmds);
  }
}
