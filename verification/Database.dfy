/** The database behind the adapters: it takes statement texts with positional values. */
module Databases {
  import opened Outcomes
  import opened Text
  import opened Values
  import opened Sql
  import opened Statements
  import opened Engine
  import opened Ddl

  type Tables = map<string, Table>

  ghost predicate AllHealthy(tables: Tables) {
    forall n <- tables :: Healthy(tables[n].cols, tables[n].rows)
  }

  /** The values as cells; None if the driver refuses one of them. */
  function BindAll(values: seq<Value>): (r: Option<seq<Cell>>)
    ensures r.Some? ==> |r.value| == |values| && forall i :: 0 <= i < |values| ==> Bind(values[i]) == Some(r.value[i])
    ensures r.None? ==> exists i :: 0 <= i < |values| && Bind(values[i]) == None
  {
    if values == [] then Some([])
    else
      match (BindAll(values[..|values| - 1]), Bind(values[|values| - 1]))
      case (Some(cs), Some(c)) => Some(cs + [c])
      case _ => None
  }

  /** The tables after a text that changes them, and the rows it affected. */
  function RunText(tables: Tables, driver: Driver, query: string, values: seq<Value>): (Tables, Option<nat>)
    requires AllHealthy(tables)
  {
    match Parse(query)
    case Some(stmt) => RunStatement(tables, driver, stmt, values)
    case None => (
      match ReadCreate(Lex(query))
      case Some(c) => RunCreate(tables, driver, c)
      case None => (tables, None)
    )
  }

  function RunStatement(tables: Tables, driver: Driver, stmt: Statement, values: seq<Value>): (Tables, Option<nat>)
    requires AllHealthy(tables)
  {
    match BindAll(values)
    case None => (tables, None)
    case Some(args) =>
      if stmt.table !in tables then (tables, None)
      else
        var t := tables[stmt.table];
        match Execute(t, driver, stmt, args)
        case Refused(_) => (tables, None)
        case Done(rows, n) => (tables[stmt.table := t.(rows := rows)], Some(n))
  }

  /** The text is refused because some other row holds a value that must be unique. */
  function ViolatesUnique(tables: Tables, driver: Driver, query: string, values: seq<Value>): bool
    requires AllHealthy(tables)
  {
    match (Parse(query), BindAll(values))
    case (Some(stmt), Some(args)) => stmt.table in tables
      && Execute(tables[stmt.table], driver, stmt, args) == Refused(true)
    case _ => false
  }

  /** IF NOT EXISTS: a table that is there already is left as it is. */
  function RunCreate(tables: Tables, driver: Driver, c: Create): (Tables, Option<nat>) {
    if TakenName(c.table) then (tables, None)
    else if c.table in tables then (tables, Some(0))
    else
      match Build(c, driver)
      case None => (tables, None)
      case Some(t) => (tables[c.table := t], Some(0))
  }

  /** What a SELECT looks for: which columns of which rows. */
  datatype Lookup = Lookup(table: string, cols: seq<string>, key: string, cell: Cell)

  predicate Known(t: Table, c: string) {
    c == "id" || c in t.cols
  }

  function Plan(tables: Tables, driver: Driver, query: string, values: seq<Value>): Option<Lookup> {
    match Parse(query)
    case Some(Select(cols, table, cond)) =>
      var args :- BindAll(values);
      PlanSelect(tables, driver, cols, table, cond, args)
    case _ => None
  }

  function PlanSelect(tables: Tables, driver: Driver, cols: seq<Item>, table: string, cond: Item, args: seq<Cell>)
    : (r: Option<Lookup>)
    ensures r.Some? ==> r.value.table in tables && forall c <- r.value.cols :: Known(tables[r.value.table], c)
  {
    if table in tables && AllColumns(cols) && cond.lhs.Col? && cond.rhs.Some? && cond.alias == None &&
       Known(tables[table], cond.lhs.name) &&
       (forall c <- Targets(cols) :: Known(tables[table], c))
    then
      var v :- Eval(cond.rhs.value, args, map[]);
      Some(Lookup(table, Targets(cols), cond.lhs.name, AsKept(tables[table], driver, cond.lhs.name, v)))
    else None
  }

  /** A cell as the column it is compared with would keep it; ids are text. */
  function AsKept(t: Table, driver: Driver, c: string, v: Cell): Cell {
    if c in t.cols && c != "id" then driver.keep(t.cols[c].dataType, v) else v
  }

  /** Null equals nothing. */
  predicate Selects(rows: Rows, k: string, l: Lookup)
    requires k in rows
  {
    l.cell != Null && CellAt(rows, k, l.key) == Some(l.cell)
  }

  datatype Answer = Failed | NoRows | Found(cells: seq<Cell>)

  /** A column of a row as the driver hands it over. */
  function Shown(t: Table, driver: Driver, k: string, c: string): Option<Cell>
    requires k in t.rows
  {
    var cell :- CellAt(t.rows, k, c);
    Some(if c in t.cols && c != "id" then driver.fetch(t.cols[c].dataType, cell) else cell)
  }

  /** cells are the columns asked for, of the row under k. */
  predicate Shows(t: Table, driver: Driver, k: string, l: Lookup, cells: seq<Cell>)
    requires k in t.rows
  {
    && Selects(t.rows, k, l) && |cells| == |l.cols|
    && forall i :: 0 <= i < |cells| ==> Shown(t, driver, k, l.cols[i]) == Some(cells[i])
  }

  ghost predicate Answers(t: Table, driver: Driver, l: Lookup, a: Answer) {
    match a
    case Failed => false
    case NoRows => forall k <- t.rows :: !Selects(t.rows, k, l)
    case Found(cells) => exists k :: k in t.rows && Shows(t, driver, k, l, cells)
  }

  function CellsAt(t: Table, driver: Driver, k: string, cs: seq<string>): (cells: seq<Cell>)
    requires k in t.rows && forall c <- cs :: Shown(t, driver, k, c).Some?
    ensures |cells| == |cs| && forall i :: 0 <= i < |cells| ==> Shown(t, driver, k, cs[i]) == Some(cells[i])
  {
    if cs == [] then [] else CellsAt(t, driver, k, cs[..|cs| - 1]) + [Shown(t, driver, k, cs[|cs| - 1]).value]
  }

  class Database {
    var tables: Tables
    const driver: Driver

    constructor (driver: Driver)
      ensures tables == map[] && this.driver == driver
    {
      tables := map[];
      this.driver := driver;
    }

    /** A refused text leaves everything as it was. */
    method Exec(query: string, values: seq<Value>) returns (affected: Option<nat>)
      requires AllHealthy(tables)
      modifies this
      ensures (tables, affected) == RunText(old(tables), driver, query, values)
      ensures affected == None ==> tables == old(tables)
      ensures AllHealthy(tables)
    {
      var (after, n) := RunText(tables, driver, query, values);
      RunTextKeepsHealthy(tables, driver, query, values);
      tables, affected := after, n;
    }

    /** As Exec, and says whether the error is about a unique constraint. */
    method ExecTold(query: string, values: seq<Value>) returns (affected: Option<nat>, unique: bool)
      requires AllHealthy(tables)
      modifies this
      ensures (tables, affected) == RunText(old(tables), driver, query, values)
      ensures unique == ViolatesUnique(old(tables), driver, query, values)
      ensures affected == None ==> tables == old(tables)
      ensures AllHealthy(tables)
    {
      unique := ViolatesUnique(tables, driver, query, values);
      affected := Exec(query, values);
    }

    /** One row of the answer, whichever the engine comes to first. */
    method QueryRow(query: string, values: seq<Value>) returns (a: Answer)
      requires AllHealthy(tables)
      ensures match Plan(tables, driver, query, values)
              case None => a == Failed
              case Some(l) => l.table in tables && Answers(tables[l.table], driver, l, a)
    {
      var plan := Plan(tables, driver, query, values);
      if plan == None {
        return Failed;
      }
      var l := plan.value;
      var t := tables[l.table];
      var rows := t.rows;
      var hits := set k | k in rows && Selects(rows, k, l);
      if hits == {} {
        assert forall k <- rows :: k !in hits;
        return NoRows;
      }
      var k :| k in hits;
      var cells := CellsAt(t, driver, k, l.cols);
      assert Shows(t, driver, k, l, cells);
      return Found(cells);
    }
  }

  lemma RunStatementKeepsHealthy(tables: Tables, driver: Driver, stmt: Statement, values: seq<Value>)
    requires AllHealthy(tables)
    ensures var (after, n) := RunStatement(tables, driver, stmt, values);
            AllHealthy(after) && (n == None ==> after == tables)
  {
    if BindAll(values).Some? && stmt.table in tables {
      ExecuteKeepsHealthy(tables[stmt.table], driver, stmt, BindAll(values).value);
    }
  }

  lemma RunCreateKeepsHealthy(tables: Tables, driver: Driver, c: Create)
    requires AllHealthy(tables)
    ensures var (after, n) := RunCreate(tables, driver, c);
            AllHealthy(after) && (n == None ==> after == tables)
  {
    if Build(c, driver).Some? {
      assert Healthy(Build(c, driver).value.cols, map[]);
    }
  }

  lemma RunTextKeepsHealthy(tables: Tables, driver: Driver, query: string, values: seq<Value>)
    requires AllHealthy(tables)
    ensures var (after, n) := RunText(tables, driver, query, values);
            AllHealthy(after) && (n == None ==> after == tables)
  {
    match Parse(query)
    case Some(stmt) => RunStatementKeepsHealthy(tables, driver, stmt, values);
    case None =>
      match ReadCreate(Lex(query)) {
        case Some(c) => RunCreateKeepsHealthy(tables, driver, c);
        case None =>
      }
  }
}
