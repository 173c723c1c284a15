/** A small relational engine: what each statement does to one table. Rows are kept by id;
    columns other than id are named in lower case. A refused statement changes nothing. */
module Engine {
  import opened Outcomes
  import opened Text
  import opened Values
  import opened Sql

  datatype ColDef = ColDef(name: string, dataType: string, notNull: bool, literal: Option<string>, dflt: Cell,
                           unique: bool)

  type Row = map<string, Cell>

  type Rows = map<string, Row>

  /** cols has an entry for every column but id; order is the order of declaration. */
  datatype Table = Table(name: string, order: seq<string>, cols: map<string, ColDef>, rows: Rows)

  datatype Effect = Done(rows: Rows, affected: nat) | Refused(uniqueViolation: bool)

  // ---------------------------------------------------------------- constraints

  predicate NotNullHolds(cols: map<string, ColDef>, row: Row) {
    row.Keys == cols.Keys && forall c <- cols :: cols[c].notNull ==> row[c] != Null
  }

  /** Two rows share a non-null value in a unique column. */
  predicate Clash(cols: map<string, ColDef>, a: Row, b: Row)
    requires a.Keys == cols.Keys && b.Keys == cols.Keys
  {
    exists c <- cols :: cols[c].unique && a[c] != Null && a[c] == b[c]
  }

  predicate WellShaped(cols: map<string, ColDef>, rows: Rows) {
    forall k <- rows :: rows[k].Keys == cols.Keys
  }

  ghost predicate Healthy(cols: map<string, ColDef>, rows: Rows) {
    && (forall k <- rows :: NotNullHolds(cols, rows[k]))
    && (forall j, k :: j in rows && k in rows && j != k ==> !Clash(cols, rows[j], rows[k]))
  }

  /** The ids of the rows that stand in the way of storing row under id. */
  function Blockers(cols: map<string, ColDef>, rows: Rows, id: string, row: Row): set<string>
    requires WellShaped(cols, rows) && row.Keys == cols.Keys
  {
    set k | k in rows && (k == id || Clash(cols, rows[k], row))
  }

  // ---------------------------------------------------------------- rows

  /** The row an INSERT stores: what is given, else the default. INSERT OR REPLACE also turns a
      null into the default where null is not allowed; MySQL's REPLACE INTO does not. */
  function Fill(cols: map<string, ColDef>, given: map<string, Cell>, orReplace: bool): (row: Row)
    ensures row.Keys == cols.Keys
  {
    map c | c in cols ::
      var v := if c in given then given[c] else cols[c].dflt;
      if orReplace && v == Null && cols[c].notNull then cols[c].dflt else v
  }

  function ReplaceRow(cols: map<string, ColDef>, rows: Rows, id: string, given: map<string, Cell>, orReplace: bool)
    : Effect
    requires WellShaped(cols, rows)
  {
    var row := Fill(cols, given, orReplace);
    if !(given.Keys <= cols.Keys) || !NotNullHolds(cols, row) then Refused(false)
    else Done((rows - Blockers(cols, rows, id, row))[id := row], 1)
  }

  function InsertRow(cols: map<string, ColDef>, rows: Rows, id: string, given: map<string, Cell>): Effect
    requires WellShaped(cols, rows)
  {
    var row := Fill(cols, given, false);
    if !(given.Keys <= cols.Keys) || !NotNullHolds(cols, row) then Refused(false)
    else if Blockers(cols, rows, id, row) != {} then Refused(true)
    else Done(rows[id := row], 1)
  }

  function UpdateRow(cols: map<string, ColDef>, rows: Rows, id: string, given: map<string, Cell>): Effect
    requires WellShaped(cols, rows)
  {
    if !(given.Keys <= cols.Keys) then Refused(false)
    else if id !in rows then Done(rows, 0)
    else
      var row := rows[id] + given;
      if !NotNullHolds(cols, row) then Refused(false)
      else if Blockers(cols, rows, id, row) != {id} then Refused(true)
      else Done(rows[id := row], 1)
  }

  function DeleteRow(rows: Rows, id: string): Effect {
    if id in rows then Done(rows - {id}, 1) else Done(rows, 0)
  }

  /** Given cells as the columns keep them. */
  function Kept(cols: map<string, ColDef>, driver: Driver, given: map<string, Cell>): (kept: map<string, Cell>)
    ensures kept.Keys == given.Keys
  {
    map c | c in given :: if c in cols then driver.keep(cols[c].dataType, given[c]) else given[c]
  }

  // ---------------------------------------------------------------- what every run keeps

  lemma ClashIsSymmetric(cols: map<string, ColDef>, a: Row, b: Row)
    requires a.Keys == cols.Keys && b.Keys == cols.Keys
    ensures Clash(cols, a, b) == Clash(cols, b, a)
  {
  }

  lemma StoredOverBlockers(rows: Rows, gone: set<string>, id: string, row: Row)
    requires gone <= rows.Keys + {id} && id in gone + {id}
    requires id in rows ==> id in gone
    requires id !in rows ==> id !in gone
    ensures var rows' := (rows - gone)[id := row];
            && rows'.Keys == rows.Keys - gone + {id}
            && (forall k <- rows' :: k != id ==> rows'[k] == rows[k])
            && |rows'| == |rows| + 1 - |gone|
  {
    var rows' := (rows - gone)[id := row];
    assert rows'.Keys == rows.Keys - gone + {id};
    assert gone <= rows.Keys;
    assert |rows.Keys - gone| == |rows.Keys| - |gone|;
    assert id !in rows.Keys - gone;
    assert |rows'.Keys| == |rows.Keys - gone| + 1;
  }

  /** Storing a good row over a set of rows none of which it clashes with. */
  lemma StoredIsHealthy(cols: map<string, ColDef>, rows: Rows, rows': Rows, id: string, row: Row)
    requires Healthy(cols, rows) && NotNullHolds(cols, row)
    requires forall k <- rows' ::
               if k == id then rows'[k] == row else k in rows && rows'[k] == rows[k] && !Clash(cols, rows[k], row)
    ensures Healthy(cols, rows')
  {
    forall j, k | j in rows' && k in rows' && j != k
      ensures !Clash(cols, rows'[j], rows'[k])
    {
      if j == id {
        ClashIsSymmetric(cols, rows[k], row);
      } else if k != id {
        assert !Clash(cols, rows[j], rows[k]);
      }
    }
  }

  lemma HealthyIsShaped(cols: map<string, ColDef>, rows: Rows)
    requires Healthy(cols, rows)
    ensures WellShaped(cols, rows)
  {
  }

  lemma BlockersFacts(cols: map<string, ColDef>, rows: Rows, id: string, row: Row)
    requires WellShaped(cols, rows) && row.Keys == cols.Keys
    ensures var gone := Blockers(cols, rows, id, row);
            && gone <= rows.Keys && (id in rows <==> id in gone)
            && forall k <- rows :: k !in gone ==> k != id && !Clash(cols, rows[k], row)
  {
    hide Clash;
  }

  /** Storing a row over a set of rows that holds all those in its way. */
  lemma StoreOver(cols: map<string, ColDef>, rows: Rows, gone: set<string>, id: string, row: Row)
    requires Healthy(cols, rows) && WellShaped(cols, rows) && NotNullHolds(cols, row) && row.Keys == cols.Keys
    requires gone <= rows.Keys && (id in rows <==> id in gone)
    requires forall k <- rows :: k !in gone ==> !Clash(cols, rows[k], row)
    ensures Healthy(cols, (rows - gone)[id := row])
  {
    hide Healthy, Clash, NotNullHolds;
    StoredIsHealthy(cols, rows, (rows - gone)[id := row], id, row);
  }

  /** REPLACE removes exactly the rows in the way, whatever else the table holds. */
  lemma ReplaceKeepsHealthy(cols: map<string, ColDef>, rows: Rows, id: string, given: map<string, Cell>,
                            orReplace: bool)
    requires Healthy(cols, rows)
    ensures match ReplaceRow(cols, rows, id, given, orReplace)
            case Refused(_) => true
            case Done(rows', _) =>
              var gone := Blockers(cols, rows, id, Fill(cols, given, orReplace));
              && Healthy(cols, rows')
              && rows'.Keys == rows.Keys - gone + {id}
              && (forall k <- rows' :: k != id ==> rows'[k] == rows[k])
              && |rows'| == |rows| + 1 - |gone|
  {
    HealthyIsShaped(cols, rows);
    hide Fill, NotNullHolds, Clash, Healthy, Blockers;
    if ReplaceRow(cols, rows, id, given, orReplace).Done? {
      var row := Fill(cols, given, orReplace);
      var gone := Blockers(cols, rows, id, row);
      BlockersFacts(cols, rows, id, row);
      StoredOverBlockers(rows, gone, id, row);
      StoreOver(cols, rows, gone, id, row);
    }
  }

  lemma InsertKeepsHealthy(cols: map<string, ColDef>, rows: Rows, id: string, given: map<string, Cell>)
    requires Healthy(cols, rows)
    ensures var e := InsertRow(cols, rows, id, given); e.Done? ==> Healthy(cols, e.rows)
  {
    var row := Fill(cols, given, false);
    if InsertRow(cols, rows, id, given).Done? {
      assert forall k <- rows :: k !in Blockers(cols, rows, id, row);
      StoredIsHealthy(cols, rows, rows[id := row], id, row);
    }
  }

  lemma UpdateKeepsHealthy(cols: map<string, ColDef>, rows: Rows, id: string, given: map<string, Cell>)
    requires Healthy(cols, rows)
    ensures var e := UpdateRow(cols, rows, id, given); e.Done? ==> Healthy(cols, e.rows)
  {
    if UpdateRow(cols, rows, id, given).Done? && id in rows {
      var row := rows[id] + given;
      assert forall k <- rows :: k != id ==> k !in Blockers(cols, rows, id, row);
      StoredIsHealthy(cols, rows, rows[id := row], id, row);
    }
  }

  // ---------------------------------------------------------------- statements

  predicate AllPlain(its: seq<Item>) {
    forall i :: 0 <= i < |its| ==> its[i].rhs == None && its[i].alias == None
  }

  predicate AllColumns(its: seq<Item>) {
    AllPlain(its) && forall i :: 0 <= i < |its| ==> its[i].lhs.Col?
  }

  predicate AllSets(its: seq<Item>) {
    forall i :: 0 <= i < |its| ==> its[i].lhs.Col? && its[i].rhs.Some? && its[i].alias == None
  }

  function Targets(its: seq<Item>): (ns: seq<string>)
    requires forall i :: 0 <= i < |its| ==> its[i].lhs.Col?
    ensures |ns| == |its| && forall i :: 0 <= i < |ns| ==> ns[i] == its[i].lhs.name
  {
    seq(|its|, i requires 0 <= i < |its| => its[i].lhs.name)
  }

  function Left(its: seq<Item>): (ops: seq<Operand>)
    ensures |ops| == |its| && forall i :: 0 <= i < |ops| ==> ops[i] == its[i].lhs
  {
    seq(|its|, i requires 0 <= i < |its| => its[i].lhs)
  }

  function Right(its: seq<Item>): (ops: seq<Operand>)
    requires AllSets(its)
    ensures |ops| == |its| && forall i :: 0 <= i < |ops| ==> ops[i] == its[i].rhs.value
  {
    seq(|its|, i requires 0 <= i < |its| => its[i].rhs.value)
  }

  /** The cell an operand stands for. Members can only refer to the source row of a MERGE. */
  function Eval(op: Operand, args: seq<Cell>, source: map<string, Cell>): Option<Cell> {
    match op
    case Param(n) => if 1 <= n <= |args| then Some(args[n - 1]) else None
    case Member(t, c) => if t == "source" && c in source then Some(source[c]) else None
    case Col(_) => None
  }

  /** names[i] := ops[i], the last one winning when a name repeats. */
  function Assign(names: seq<string>, ops: seq<Operand>, args: seq<Cell>, source: map<string, Cell>)
    : Option<map<string, Cell>>
    requires |names| == |ops|
  {
    if names == [] then Some(map[])
    else
      var m :- Assign(names[..|names| - 1], ops[..|ops| - 1], args, source);
      var v :- Eval(ops[|ops| - 1], args, source);
      Some(m[names[|names| - 1] := v])
  }

  predicate Distinct(names: seq<string>) {
    forall i, j :: 0 <= i < j < |names| ==> names[i] != names[j]
  }

  /** The key a condition selects: `id = parameter`. */
  function KeyOf(cond: Item, args: seq<Cell>): Option<string> {
    if cond.lhs == Col("id") && cond.rhs.Some? && cond.alias == None then
      var v :- Eval(cond.rhs.value, args, map[]);
      if v.Text? then Some(v.s) else None
    else None
  }

  /** What an INSERT gives: the id, and the other columns. */
  function GivenBy(cols: seq<Item>, vals: seq<Item>, args: seq<Cell>, source: map<string, Cell>)
    : Option<(string, map<string, Cell>)>
  {
    if AllColumns(cols) && AllPlain(vals) && |cols| == |vals| && Distinct(Targets(cols)) then
      var m :- Assign(Targets(cols), Left(vals), args, source);
      if "id" in m && m["id"].Text? then Some((m["id"].s, m - {"id"})) else None
    else None
  }

  function SetBy(sets: seq<Item>, args: seq<Cell>, source: map<string, Cell>): Option<map<string, Cell>> {
    if AllSets(sets) then Assign(Targets(sets), Right(sets), args, source) else None
  }

  function KeptSets(cols: map<string, ColDef>, driver: Driver, sets: Option<map<string, Cell>>)
    : Option<map<string, Cell>>
  {
    match sets case Some(m) => Some(Kept(cols, driver, m)) case None => None
  }

  function Execute(t: Table, driver: Driver, stmt: Statement, args: seq<Cell>): Effect
    requires WellShaped(t.cols, t.rows)
  {
    match stmt
    case Insert(_, verb, cols, vals, conflict) => (
      match GivenBy(cols, vals, args, map[])
      case None => Refused(false)
      case Some((id, raw)) =>
        var given := Kept(t.cols, driver, raw);
        if verb != InsertInto then
          if conflict == [] then ReplaceRow(t.cols, t.rows, id, given, verb == InsertOrReplace) else Refused(false)
        else if conflict == [] then InsertRow(t.cols, t.rows, id, given)
        else UpsertRow(t, id, given, KeptSets(t.cols, driver, SetBy(conflict, args, map[])))
    )
    case Update(_, sets, cond) => (
      match (SetBy(sets, args, map[]), KeyOf(cond, args))
      case (Some(given), Some(id)) => UpdateRow(t.cols, t.rows, id, Kept(t.cols, driver, given))
      case _ => Refused(false)
    )
    case Delete(_, cond) => (
      match KeyOf(cond, args)
      case Some(id) => DeleteRow(t.rows, id)
      case None => Refused(false)
    )
    case Merge(_, source, on, sets, cols, vals) =>
      MergeRow(t, driver, source, on, sets, cols, vals, args)
    case Select(_, _, _) => Refused(false)
  }

  /** INSERT .. ON CONFLICT (id) DO UPDATE: the proposed row must be acceptable in any case. */
  function UpsertRow(t: Table, id: string, given: map<string, Cell>, sets: Option<map<string, Cell>>): Effect
    requires WellShaped(t.cols, t.rows)
  {
    if sets == None || !(given.Keys <= t.cols.Keys) || !NotNullHolds(t.cols, Fill(t.cols, given, false)) then
      Refused(false)
    else if id in t.rows then UpdateRow(t.cols, t.rows, id, sets.value)
    else if !(sets.value.Keys <= t.cols.Keys) then Refused(false)
    else InsertRow(t.cols, t.rows, id, given)
  }

  predicate AllAliased(its: seq<Item>) {
    forall i :: 0 <= i < |its| ==> its[i].rhs == None && its[i].alias.Some?
  }

  function Aliases(its: seq<Item>): (ns: seq<string>)
    requires AllAliased(its)
    ensures |ns| == |its| && forall i :: 0 <= i < |ns| ==> ns[i] == its[i].alias.value
  {
    seq(|its|, i requires 0 <= i < |its| => its[i].alias.value)
  }

  /** MERGE on target.id = source.id. */
  function MergeRow(t: Table, driver: Driver, source: seq<Item>, on: Item, sets: seq<Item>, cols: seq<Item>,
                    vals: seq<Item>, args: seq<Cell>): Effect
    requires WellShaped(t.cols, t.rows)
  {
    if !AllAliased(source) || !Distinct(Aliases(source)) ||
       on != Item(Member("target", "id"), Some(Member("source", "id")), None) then Refused(false)
    else
      match Assign(Aliases(source), Left(source), args, map[])
      case None => Refused(false)
      case Some(src) =>
        match (GivenBy(cols, vals, args, src), SetBy(sets, args, src))
        case (Some((id, rawGiven)), Some(rawSets)) =>
          var given, upd := Kept(t.cols, driver, rawGiven), Kept(t.cols, driver, rawSets);
          if "id" !in src || src["id"] != Text(id) || !(upd.Keys <= t.cols.Keys) || !(given.Keys <= t.cols.Keys) then
            Refused(false)
          else if id in t.rows then UpdateRow(t.cols, t.rows, id, upd)
          else InsertRow(t.cols, t.rows, id, given)
        case _ => Refused(false)
  }

  function CellAt(rows: Rows, k: string, c: string): Option<Cell>
    requires k in rows
  {
    if c == "id" then Some(Text(k)) else if c in rows[k] then Some(rows[k][c]) else None
  }

  lemma RowOperationsKeepHealthy(t: Table, id: string, given: map<string, Cell>)
    requires Healthy(t.cols, t.rows)
    ensures WellShaped(t.cols, t.rows)
    ensures forall orReplace ::
              var e := ReplaceRow(t.cols, t.rows, id, given, orReplace); e.Done? ==> Healthy(t.cols, e.rows)
    ensures var e := InsertRow(t.cols, t.rows, id, given); e.Done? ==> Healthy(t.cols, e.rows)
    ensures var e := UpdateRow(t.cols, t.rows, id, given); e.Done? ==> Healthy(t.cols, e.rows)
  {
    HealthyIsShaped(t.cols, t.rows);
    hide ReplaceRow, InsertRow, UpdateRow, Healthy;
    ReplaceKeepsHealthy(t.cols, t.rows, id, given, true);
    ReplaceKeepsHealthy(t.cols, t.rows, id, given, false);
    InsertKeepsHealthy(t.cols, t.rows, id, given);
    UpdateKeepsHealthy(t.cols, t.rows, id, given);
  }

  lemma UpsertKeepsHealthy(t: Table, id: string, given: map<string, Cell>, sets: Option<map<string, Cell>>)
    requires Healthy(t.cols, t.rows)
    ensures WellShaped(t.cols, t.rows)
    ensures var e := UpsertRow(t, id, given, sets); e.Done? ==> Healthy(t.cols, e.rows)
  {
    hide ReplaceRow, InsertRow, UpdateRow, Healthy, NotNullHolds, Fill;
    RowOperationsKeepHealthy(t, id, given);
    if sets.Some? {
      RowOperationsKeepHealthy(t, id, sets.value);
    }
  }

  lemma MergeKeepsHealthy(t: Table, driver: Driver, source: seq<Item>, on: Item, sets: seq<Item>,
                          cols: seq<Item>, vals: seq<Item>, args: seq<Cell>)
    requires Healthy(t.cols, t.rows)
    ensures WellShaped(t.cols, t.rows)
    ensures var e := MergeRow(t, driver, source, on, sets, cols, vals, args); e.Done? ==> Healthy(t.cols, e.rows)
  {
    HealthyIsShaped(t.cols, t.rows);
    hide ReplaceRow, InsertRow, UpdateRow, Healthy, GivenBy, SetBy, Assign, Kept;
    if AllAliased(source) {
      var src := Assign(Aliases(source), Left(source), args, map[]);
      if src.Some? {
        match (GivenBy(cols, vals, args, src.value), SetBy(sets, args, src.value)) {
          case (Some((id, given)), Some(upd)) =>
            RowOperationsKeepHealthy(t, id, Kept(t.cols, driver, given));
            RowOperationsKeepHealthy(t, id, Kept(t.cols, driver, upd));
          case _ =>
        }
      }
    }
  }

  lemma DeleteKeepsHealthy(cols: map<string, ColDef>, rows: Rows, id: string)
    requires Healthy(cols, rows)
    ensures DeleteRow(rows, id).Done? && Healthy(cols, DeleteRow(rows, id).rows)
  {
  }

  /** Every statement keeps the constraints. */
  lemma ExecuteKeepsHealthy(t: Table, driver: Driver, stmt: Statement, args: seq<Cell>)
    requires Healthy(t.cols, t.rows)
    ensures WellShaped(t.cols, t.rows)
    ensures var e := Execute(t, driver, stmt, args); e.Done? ==> Healthy(t.cols, e.rows)
  {
    HealthyIsShaped(t.cols, t.rows);
    hide ReplaceRow, InsertRow, UpdateRow, UpsertRow, MergeRow, DeleteRow, Healthy, GivenBy, SetBy, KeyOf, Kept;
    match stmt {
      case Insert(_, _, cols, vals, conflict) =>
        var given := GivenBy(cols, vals, args, map[]);
        if given.Some? {
          var kept := Kept(t.cols, driver, given.value.1);
          RowOperationsKeepHealthy(t, given.value.0, kept);
          UpsertKeepsHealthy(t, given.value.0, kept, KeptSets(t.cols, driver, SetBy(conflict, args, map[])));
        }
      case Update(_, sets, cond) =>
        match (SetBy(sets, args, map[]), KeyOf(cond, args)) {
          case (Some(given), Some(id)) => RowOperationsKeepHealthy(t, id, Kept(t.cols, driver, given));
          case _ =>
        }
      case Delete(_, cond) =>
        if KeyOf(cond, args).Some? {
          DeleteKeepsHealthy(t.cols, t.rows, KeyOf(cond, args).value);
        }
      case Merge(_, source, on, sets, cols, vals) => MergeKeepsHealthy(t, driver, source, on, sets, cols, vals, args);
      case Select(_, _, _) =>
    }
  }
}
