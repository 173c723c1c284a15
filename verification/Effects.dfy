/** From the statement text an adapter prints to the row operation it performs. */
module Effects {
  import opened Outcomes
  import opened Text
  import opened Values
  import opened Sql
  import opened Statements
  import opened Engine
  import opened Ddl
  import opened Databases
  import opened Common

  // ---------------------------------------------------------------- assignments

  /** m holds the i-th value under the i-th name, and nothing else. */
  ghost predicate MapsTo(m: map<string, Cell>, names: seq<string>, vals: seq<Cell>) {
    && |names| == |vals| && m.Keys == (set n | n in names)
    && forall i :: 0 <= i < |names| ==> m[names[i]] == vals[i]
  }

  lemma MapsToStep(m: map<string, Cell>, names: seq<string>, vals: seq<Cell>)
    requires |names| == |vals| > 0 && Distinct(names)
    requires MapsTo(m, names[..|names| - 1], vals[..|names| - 1])
    ensures MapsTo(m[names[|names| - 1] := vals[|names| - 1]], names, vals)
  {
    var k := |names| - 1;
    assert names == names[..k] + [names[k]];
    forall i | 0 <= i < |names| ensures m[names[k] := vals[k]][names[i]] == vals[i] {
      if i < k { assert names[..k][i] == names[i]; }
    }
  }

  /** Assigning to distinct names gives each its own operand. */
  lemma {:induction false} AssignDistinct(names: seq<string>, ops: seq<Operand>, args: seq<Cell>,
                                          source: map<string, Cell>, vals: seq<Cell>)
    requires |names| == |ops| == |vals| && Distinct(names)
    requires forall i :: 0 <= i < |ops| ==> Eval(ops[i], args, source) == Some(vals[i])
    ensures var r := Assign(names, ops, args, source); r.Some? && MapsTo(r.value, names, vals)
  {
    if names != [] {
      var k := |names| - 1;
      AssignDistinct(names[..k], ops[..k], args, source, vals[..k]);
      MapsToStep(Assign(names[..k], ops[..k], args, source).value, names, vals);
    }
  }

  // ---------------------------------------------------------------- folded columns

  ghost predicate FoldsApart(names: set<string>) {
    forall a, b {:trigger Lower(a), Lower(b)} :: a in names && b in names && Lower(a) == Lower(b) ==> a == b
  }

  function FoldAll(names: set<string>): set<string> {
    set n | n in names :: Lower(n)
  }

  ghost predicate Bindable(stored: map<string, Value>) {
    forall n <- stored :: Bind(stored[n]).Some?
  }

  ghost function NameFor(names: set<string>, c: string): (n: string)
    requires c in FoldAll(names)
    ensures n in names && Lower(n) == c
  {
    var n :| n in names && Lower(n) == c;
    n
  }

  /** The cells given for a set of fields, by folded column name. */
  ghost function CellMap(stored: map<string, Value>): (m: map<string, Cell>)
    ensures m.Keys == FoldAll(stored.Keys)
  {
    map c | c in FoldAll(stored.Keys) :: BoundCell(stored[NameFor(stored.Keys, c)])
  }

  lemma CellMapAt(stored: map<string, Value>, n: string)
    requires FoldsApart(stored.Keys) && n in stored
    ensures Lower(n) in CellMap(stored) && CellMap(stored)[Lower(n)] == BoundCell(stored[n])
  {
    assert Lower(n) in FoldAll(stored.Keys);
    assert NameFor(stored.Keys, Lower(n)) == n;
  }

  /** The names a statement lists are the fields stored, each once, in some order. */
  ghost predicate Lists(names: seq<string>, stored: map<string, Value>) {
    Distinct(names) && (set n | n in names) == stored.Keys
  }

  function Folds(names: seq<string>): (cs: seq<string>)
    ensures |cs| == |names| && forall i :: 0 <= i < |cs| ==> cs[i] == Lower(names[i])
  {
    seq(|names|, i requires 0 <= i < |names| => Lower(names[i]))
  }

  lemma FoldsDistinct(names: seq<string>)
    requires Distinct(names) && FoldsApart(set n | n in names)
    ensures Distinct(Folds(names))
  {
    forall i, j | 0 <= i < j < |names| ensures Folds(names)[i] != Folds(names)[j] {
      assert names[i] in (set n | n in names) && names[j] in (set n | n in names);
    }
  }

  /** Cells bound for the listed names, one by one. */
  ghost predicate BoundTo(names: seq<string>, stored: map<string, Value>, cells: seq<Cell>) {
    |cells| == |names| &&
    forall i :: 0 <= i < |names| ==> names[i] in stored && Bind(stored[names[i]]) == Some(cells[i])
  }

  lemma BoundMeansBindable(names: seq<string>, stored: map<string, Value>, cells: seq<Cell>)
    requires Lists(names, stored) && BoundTo(names, stored, cells)
    ensures Bindable(stored)
  {
    forall n | n in stored ensures Bind(stored[n]).Some? {
      assert n in (set k | k in names);
      var i :| 0 <= i < |names| && names[i] == n;
    }
  }

  /** The column names of the statement are the folded names of the fields. */
  lemma FoldsAreKeys(names: seq<string>, stored: map<string, Value>)
    requires Lists(names, stored)
    ensures (set c | c in Folds(names)) == FoldAll(stored.Keys)
  {
    forall c | c in FoldAll(stored.Keys) ensures c in Folds(names) {
      var n := NameFor(stored.Keys, c);
      assert n in (set k | k in names);
      var i :| 0 <= i < |names| && names[i] == n;
      assert Folds(names)[i] == c;
    }
    forall c | c in Folds(names) ensures c in FoldAll(stored.Keys) {
      var i :| 0 <= i < |names| && Folds(names)[i] == c;
      assert names[i] in (set k | k in names);
    }
  }

  lemma AssignedIsCellMap(names: seq<string>, stored: map<string, Value>, cells: seq<Cell>, m: map<string, Cell>)
    requires Lists(names, stored) && FoldsApart(stored.Keys) && BoundTo(names, stored, cells)
    requires MapsTo(m, Folds(names), cells)
    ensures Bindable(stored) && m == CellMap(stored)
  {
    BoundMeansBindable(names, stored, cells);
    FoldsAreKeys(names, stored);
    hide Bind, Lower;
    forall c | c in m ensures c in CellMap(stored) && m[c] == CellMap(stored)[c] {
      var i :| 0 <= i < |names| && Folds(names)[i] == c;
      CellMapAt(stored, names[i]);
    }
  }

  // ---------------------------------------------------------------- statements on rows

  lemma NonIdFolds(stored: map<string, Value>, names: seq<string>)
    requires Lists(names, stored) && forall n <- stored :: !IsId(n)
    ensures "id" !in Folds(names)
  {
    forall i | 0 <= i < |names| ensures Folds(names)[i] != "id" {
      assert names[i] in (set n | n in names);
      assert !IsId(names[i]);
    }
  }

  lemma WithIdDistinct(cs: seq<string>)
    requires Distinct(cs) && "id" !in cs
    ensures Distinct(["id"] + cs)
  {
    forall i, j | 0 <= i < j < |cs| + 1 ensures (["id"] + cs)[i] != (["id"] + cs)[j] {
      if i == 0 { assert cs[j - 1] in cs; }
    }
  }

  lemma WithoutId(m: map<string, Cell>, id: Cell, cs: seq<string>, cells: seq<Cell>)
    requires MapsTo(m, ["id"] + cs, [id] + cells) && "id" !in cs
    ensures "id" in m && m["id"] == id && MapsTo(m - {"id"}, cs, cells)
  {
    var all := ["id"] + cs;
    assert all[0] == "id" && ([id] + cells)[0] == id;
    assert (m - {"id"}).Keys == (set c | c in cs);
    forall i | 0 <= i < |cs| ensures cs[i] in m && (m - {"id"})[cs[i]] == cells[i] {
      assert all[i + 1] == cs[i] && ([id] + cells)[i + 1] == cells[i] && cs[i] in cs;
    }
  }

  /** What the INSERT of an object gives: its id, and its other fields as cells. */
  lemma InsertGives(id: string, names: seq<string>, stored: map<string, Value>, cells: seq<Cell>)
    requires Lists(names, stored) && FoldsApart(stored.Keys) && BoundTo(names, stored, cells)
    requires forall n <- stored :: !IsId(n)
    ensures Bindable(stored)
    ensures GivenBy(Columns(Bares(["id"] + names)), Params(1, |names| + 1), [Text(id)] + cells, map[])
            == Some((id, CellMap(stored)))
  {
    hide Lower, IsId, FoldsApart, CellMap, Distinct;
    var cols, vals, args := Columns(Bares(["id"] + names)), Params(1, |names| + 1), [Text(id)] + cells;
    var all := ["id"] + Folds(names);
    ColumnTargets(names);
    ListedDistinct(names, stored);
    assert Assign(all, Left(vals), args, map[]).Some?
      && MapsTo(Assign(all, Left(vals), args, map[]).value, all, args) by {
      AssignDistinct(all, Left(vals), args, map[], args);
    }
    var m := Assign(all, Left(vals), args, map[]).value;
    WithoutId(m, Text(id), Folds(names), cells);
    AssignedIsCellMap(names, stored, cells, m - {"id"});
  }

  lemma ListedDistinct(names: seq<string>, stored: map<string, Value>)
    requires Lists(names, stored) && FoldsApart(stored.Keys) && forall n <- stored :: !IsId(n)
    ensures Distinct(["id"] + Folds(names)) && "id" !in Folds(names)
  {
    hide Lower, IsId;
    NonIdFolds(stored, names);
    FoldsDistinct(names);
    WithIdDistinct(Folds(names));
  }

  lemma ColumnTargets(names: seq<string>)
    ensures AllColumns(Columns(Bares(["id"] + names))) && Targets(Columns(Bares(["id"] + names))) == ["id"]
            + Folds(names)
    ensures AllPlain(Params(1, |names| + 1))
  {
    LowerId();
  }

  lemma LowerId()
    ensures Lower("id") == "id"
  {
    IdIsIdent();
  }

  /** The cells of the fields named, by folded column; of two spellings of a column the later one. */
  ghost function LastCells(stored: map<string, Value>, names: seq<string>): map<string, Cell>
    requires Covers(stored, names)
  {
    if names == [] then map[]
    else
      var k := |names| - 1;
      LastCells(stored, names[..k])[Lower(names[k]) := BoundCell(stored[names[k]])]
  }

  lemma {:induction false} LastAssigned(stored: map<string, Value>, names: seq<string>, ops: seq<Operand>,
                                        args: seq<Cell>)
    requires Covers(stored, names) && |ops| == |names|
    requires forall i :: 0 <= i < |names| ==> Eval(ops[i], args, map[]) == Some(BoundCell(stored[names[i]]))
    ensures Assign(Folds(names), ops, args, map[]) == Some(LastCells(stored, names))
  {
    hide BoundCell, Lower;
    if names != [] {
      var k := |names| - 1;
      assert Folds(names)[..k] == Folds(names[..k]);
      LastAssigned(stored, names[..k], ops[..k], args);
    }
  }

  /** What the UPDATE of an object sets. */
  lemma UpdateSets(names: seq<string>, stored: map<string, Value>, cells: seq<Cell>, id: string)
    requires BoundTo(names, stored, cells)
    ensures Covers(stored, names)
    ensures SetBy(Sets(Bares(names), 1), cells + [Text(id)], map[]) == Some(LastCells(stored, names))
    ensures KeyOf(Equate(Col("id"), Param(|names| + 1)), cells + [Text(id)]) == Some(id)
  {
    var sets, args := Sets(Bares(names), 1), cells + [Text(id)];
    assert Targets(sets) == Folds(names);
    forall i | 0 <= i < |names| ensures Eval(Right(sets)[i], args, map[]) == Some(BoundCell(stored[names[i]])) {
    }
    hide BoundCell;
    LastAssigned(stored, names, Right(sets), args);
  }

  /** When the names fold apart their order does not matter. */
  lemma LastIsCellMap(stored: map<string, Value>, names: seq<string>)
    requires Lists(names, stored) && FoldsApart(stored.Keys) && Covers(stored, names)
    ensures LastCells(stored, names) == CellMap(stored)
  {
    hide BoundCell, CellMap, FoldsApart, Lower;
    LastKeys(stored, names);
    forall c | c in FoldAll(stored.Keys) ensures LastCells(stored, names)[c] == CellMap(stored)[c] {
      var n := NameFor(stored.Keys, c);
      CellMapAt(stored, n);
      assert n in (set k | k in names);
      var i :| 0 <= i < |names| && names[i] == n;
      assert Distinct(Folds(names)) by { FoldsDistinct(names); }
      assert forall j :: i < j < |names| ==> Folds(names)[i] != Folds(names)[j];
      OnlyLast(stored, names, i);
    }
  }

  lemma {:induction false} LastKeys(stored: map<string, Value>, names: seq<string>)
    requires Covers(stored, names)
    ensures LastCells(stored, names).Keys == FoldAll(set n | n in names)
  {
    hide BoundCell, Lower;
    if names != [] {
      var k := |names| - 1;
      LastKeys(stored, names[..k]);
      assert names == names[..k] + [names[k]];
      assert FoldAll(set n | n in names) == FoldAll(set n | n in names[..k]) + {Lower(names[k])} by {
        FoldAllMore((set n | n in names[..k]), names[k]);
        assert (set n | n in names) == (set n | n in names[..k]) + {names[k]};
      }
    }
  }

  lemma FoldAllMore(names: set<string>, n: string)
    ensures FoldAll(names + {n}) == FoldAll(names) + {Lower(n)}
  {
    hide Lower;
  }

  /** A name that no later name respells has the last word on its column. */
  lemma {:induction false} OnlyLast(stored: map<string, Value>, names: seq<string>, i: nat)
    requires Covers(stored, names) && i < |names|
    requires forall j :: i < j < |names| ==> Lower(names[j]) != Lower(names[i])
    ensures Lower(names[i]) in LastCells(stored, names)
            && LastCells(stored, names)[Lower(names[i])] == BoundCell(stored[names[i]])
  {
    hide BoundCell, Lower;
    var k := |names| - 1;
    if i < k {
      OnlyLast(stored, names[..k], i);
    }
  }

  // ---------------------------------------------------------------- statement texts on tables

  /** The columns of a table as the database holds them: all but id, under their folded
      names, with the constraints the schema asks for. */
  ghost predicate Mirrors(info: TableInfo, cols: map<string, ColDef>, driver: Driver) {
    && IsIdent(info.name)
    && (forall n <- info.fields :: IsIdent(n) && info.fields[n].name == n)
    && FoldsApart(info.fields.Keys) && "id" in info.fields
    && cols.Keys == FoldAll(info.fields.Keys - {"id"})
    && (forall n <- info.fields :: n != "id" ==> ColumnMatches(cols, info.fields[n], driver))
  }

  ghost predicate ColumnMatches(cols: map<string, ColDef>, f: ColumnData, driver: Driver) {
    && Lower(f.name) in cols
    && var c := cols[Lower(f.name)];
       && c.dataType == f.dataType && c.notNull == !f.nullable && c.unique == f.unique
       && c.dflt == DefaultCell(f, driver)
  }

  function DefaultCell(f: ColumnData, driver: Driver): Cell {
    if f.dflt.Some? then driver.keep(f.dataType, Text(f.dflt.value)) else Null
  }

  /** The fields an INSERT stores, each with the value it stores for it. */
  function InsertStored(marshal: Marshal, info: TableInfo, fields: map<string, Value>): map<string, Value> {
    map n | n in fields && !IsId(n) && StoredValue(marshal, info, fields[n], n).Ok? ::
      StoredValue(marshal, info, fields[n], n).value
  }

  function UpdateStored(fields: map<string, Value>): map<string, Value> {
    map n | n in fields && !IsId(n) :: fields[n]
  }

  /** The columns of a statement in range order. */
  lemma RangeLists(order: seq<string>, fields: map<string, Value>, stored: map<string, Value>)
    requires RangeOrder(order, fields.Keys)
    requires stored.Keys == (set n | n in fields && !IsId(n))
    ensures Lists(NonId(order), stored)
  {
    NonIdMembers(order);
    assert forall n :: n in order <==> n in (set k | k in order);
    assert (set n | n in NonId(order)) == stored.Keys;
  }

  lemma BindAllOf(values: seq<Value>, names: seq<string>, stored: map<string, Value>)
    requires |values| == |names| && Lists(names, stored)
    requires forall i :: 0 <= i < |names| ==> names[i] in stored && values[i] == stored[names[i]]
    ensures BindAll(values).Some? <==> Bindable(stored)
    ensures BindAll(values).Some? ==> BoundTo(names, stored, BindAll(values).value)
  {
    if BindAll(values).None? {
      var i :| 0 <= i < |values| && Bind(values[i]) == None;
      assert Bind(stored[names[i]]) == None;
    } else {
      BoundMeansBindable(names, stored, BindAll(values).value);
    }
  }

  lemma {:induction false} BindAllAppend(a: seq<Value>, b: seq<Value>)
    ensures BindAll(a + b) == match (BindAll(a), BindAll(b)) case (Some(x), Some(y)) => Some(x + y) case _ => None
  {
    if b == [] {
      assert a + b == a;
      if BindAll(a).Some? { assert BindAll(a).value + [] == BindAll(a).value; }
    } else {
      var k := |b| - 1;
      assert (a + b)[..|a + b| - 1] == a + b[..k];
      BindAllAppend(a, b[..k]);
      if BindAll(a).Some? && BindAll(b[..k]).Some? && Bind(b[k]).Some? {
        var x, y := BindAll(a).value, BindAll(b[..k]).value;
        assert x + y + [Bind(b[k]).value] == x + (y + [Bind(b[k]).value]);
      }
    }
  }

  lemma BindOne(v: Value)
    ensures BindAll([v]) == match Bind(v) case Some(c) => Some([c]) case None => None
  {
    assert [v][..|[v]| - 1] == [];
    assert BindAll([]) == Some([]);
    if Bind(v).Some? { assert [] + [Bind(v).value] == [Bind(v).value]; }
  }

  lemma GoodBares(names: seq<string>)
    requires forall i :: 0 <= i < |names| ==> IsIdent(names[i])
    ensures GoodNames(Bares(["id"] + names)) && NameTexts(Bares(["id"] + names)) == ["id"] + names
  {
    IdIsIdent();
  }

  lemma BoundWithId(id: string, values: seq<Value>)
    ensures BindAll([Str(id)] + values) ==
            match BindAll(values) case Some(cs) => Some([Text(id)] + cs) case None => None
    ensures BindAll(values + [Str(id)]) ==
            match BindAll(values) case Some(cs) => Some(cs + [Text(id)]) case None => None
  {
    BindAllAppend([Str(id)], values);
    BindAllAppend(values, [Str(id)]);
    BindOne(Str(id));
  }

  /** The values of a statement are the stored fields in the order of its columns. */
  ghost predicate Spells(names: seq<string>, values: seq<Value>, stored: map<string, Value>) {
    && Lists(names, stored) && |values| == |names|
    && (forall n <- stored :: !IsId(n) && IsIdent(n))
    && forall i :: 0 <= i < |names| ==> names[i] in stored && values[i] == stored[names[i]]
  }

  /** And its columns are different ones. */
  ghost predicate Carries(names: seq<string>, values: seq<Value>, stored: map<string, Value>) {
    Spells(names, values, stored) && FoldsApart(stored.Keys)
  }

  lemma CarriedLists(names: seq<string>, values: seq<Value>, stored: map<string, Value>)
    requires Carries(names, values, stored)
    ensures Spells(names, values, stored) && Lists(names, stored) && FoldsApart(stored.Keys)
  {
  }

  /** The cells of stored fields as the columns of a table keep them. */
  ghost function KeptCells(cols: map<string, ColDef>, driver: Driver, stored: map<string, Value>)
    : (m: map<string, Cell>)
    ensures m.Keys == FoldAll(stored.Keys)
  {
    Kept(cols, driver, CellMap(stored))
  }

  lemma CarriedNames(names: seq<string>, values: seq<Value>, stored: map<string, Value>)
    requires Spells(names, values, stored)
    ensures Covers(stored, names)
    ensures forall i :: 0 <= i < |names| ==> IsIdent(names[i])
  {
  }

  /** What an INSERT without a conflict clause does, by the way it starts. */
  function InsertEffect(t: Table, verb: Verb, id: string, given: map<string, Cell>): Effect
    requires WellShaped(t.cols, t.rows)
  {
    if verb == InsertInto then InsertRow(t.cols, t.rows, id, given)
    else ReplaceRow(t.cols, t.rows, id, given, verb == InsertOrReplace)
  }

  lemma ExecuteInsert(t: Table, driver: Driver, table: string, verb: Verb, cols: seq<Item>, vals: seq<Item>,
                      args: seq<Cell>, id: string, given: map<string, Cell>)
    requires Healthy(t.cols, t.rows) && GivenBy(cols, vals, args, map[]) == Some((id, given))
    ensures Execute(t, driver, Insert(table, verb, cols, vals, []), args) ==
            InsertEffect(t, verb, id, Kept(t.cols, driver, given))
  {
    hide Healthy, ReplaceRow, InsertRow, GivenBy, Kept;
    assert WellShaped(t.cols, t.rows) by { HealthyIsShaped(t.cols, t.rows); }
  }

  /** The cells of an INSERT: its id, then its fields. */
  lemma InsertCells(names: seq<string>, values: seq<Value>, stored: map<string, Value>, id: string)
    requires Carries(names, values, stored)
    ensures Bindable(stored) <==> BindAll([Str(id)] + values).Some?
    ensures Bindable(stored) ==>
              var args := BindAll([Str(id)] + values).value;
              GivenBy(Columns(Bares(["id"] + names)), Params(1, |names| + 1), args, map[]) ==
                Some((id, CellMap(stored)))
  {
    BindAllOf(values, names, stored);
    BoundWithId(id, values);
    if Bindable(stored) {
      InsertGives(id, names, stored, BindAll(values).value);
    }
  }

  lemma InsertRuns(tables: Tables, driver: Driver, table: string, verb: Verb, id: string,
                   names: seq<string>, values: seq<Value>, stored: map<string, Value>)
    requires AllHealthy(tables) && table in tables && Carries(names, values, stored)
    ensures RunStatement(tables, driver, Insert(table, verb, Columns(Bares(["id"] + names)), Params(1, |names| + 1),
                                                []), [Str(id)] + values)
            == InsertOutcome(tables, driver, table, verb, id, stored)
  {
    hide Carries, GivenBy, InsertEffect, CellMap, Bindable, Execute, Healthy, Kept;
    InsertCells(names, values, stored, id);
    if Bindable(stored) {
      ExecuteInsert(tables[table], driver, table, verb, Columns(Bares(["id"] + names)), Params(1, |names| + 1),
                    BindAll([Str(id)] + values).value, id, CellMap(stored));
    }
  }

  lemma ExecuteUpdate(t: Table, driver: Driver, table: string, sets: seq<Item>, cond: Item, args: seq<Cell>,
                      given: map<string, Cell>, id: string)
    requires Healthy(t.cols, t.rows)
    requires SetBy(sets, args, map[]) == Some(given) && KeyOf(cond, args) == Some(id)
    ensures Execute(t, driver, Update(table, sets, cond), args) ==
            UpdateRow(t.cols, t.rows, id, Kept(t.cols, driver, given))
  {
    hide Kept;
  }

  /** Running a statement whose effect on its table is known. */
  lemma RunKnown(tables: Tables, driver: Driver, stmt: Statement, values: seq<Value>, args: seq<Cell>, e: Effect)
    requires AllHealthy(tables) && stmt.table in tables && BindAll(values) == Some(args)
    requires Execute(tables[stmt.table], driver, stmt, args) == e
    ensures RunStatement(tables, driver, stmt, values) ==
            if e.Done? then (tables[stmt.table := tables[stmt.table].(rows := e.rows)], Some(e.affected))
              else (tables, None)
  {
  }

  lemma UpdateRuns(tables: Tables, driver: Driver, table: string, id: string,
                   names: seq<string>, values: seq<Value>, stored: map<string, Value>)
    requires AllHealthy(tables) && table in tables && Spells(names, values, stored) && Covers(stored, names)
    ensures RunStatement(tables, driver, Update(table, Sets(Bares(names), 1), Equate(Col("id"), Param(|names| + 1))),
                         values + [Str(id)])
            == UpdateInOrder(tables, driver, table, id, stored, names)
  {
    var sets, cond := Sets(Bares(names), 1), Equate(Col("id"), Param(|names| + 1));
    BindAllOf(values, names, stored);
    BoundWithId(id, values);
    hide Kept;
    if Bindable(stored) {
      var cells := BindAll(values).value;
      var t, given := tables[table], LastCells(stored, names);
      assert Execute(t, driver, Update(table, sets, cond), cells + [Text(id)]) ==
             UpdateRow(t.cols, t.rows, id, Kept(t.cols, driver, given)) by {
        UpdateSets(names, stored, cells, id);
        ExecuteUpdate(t, driver, table, sets, cond, cells + [Text(id)], given, id);
      }
      RunKnown(tables, driver, Update(table, sets, cond), values + [Str(id)], cells + [Text(id)],
               UpdateRow(t.cols, t.rows, id, Kept(t.cols, driver, given)));
    }
  }

  lemma ReplaceIsInsert(tables: Tables, driver: Driver, table: string, id: string, stored: map<string, Value>)
    requires AllHealthy(tables) && table in tables
    ensures InsertOutcome(tables, driver, table, InsertOrReplace, id, stored) ==
            ReplaceOutcome(tables, driver, table, id, stored)
  {
  }

  /** The same columns, perhaps spelled in another case. */
  ghost predicate Respelled(printed: seq<string>, names: seq<string>) {
    && |printed| == |names|
    && forall i :: 0 <= i < |names| ==> IsIdent(printed[i]) && Lower(printed[i]) == Lower(names[i])
  }

  lemma RespelledColumns(printed: seq<string>, names: seq<string>)
    requires Respelled(printed, names)
    ensures Columns(Bares(printed)) == Columns(Bares(names)) && NameTexts(Bares(printed)) == printed
            && GoodNames(Bares(printed))
  {
  }

  lemma RespelledSets(printed: seq<string>, names: seq<string>, lo: nat)
    requires Respelled(printed, names)
    ensures Sets(Bares(printed), lo) == Sets(Bares(names), lo) && GoodNames(Bares(printed))
  {
  }

  /** The INSERT of an object, run as text in any placeholder style and any spelling of its
      columns, inserts one row of the table. */
  lemma InsertTextDoes(tables: Tables, driver: Driver, verb: Verb, style: Style, table: string, printed: seq<string>,
                       id: string, names: seq<string>, values: seq<Value>, stored: map<string, Value>)
    requires AllHealthy(tables) && IsIdent(table) && Lower(table) in tables && Carries(names, values, stored)
    requires IsStyle(style) && Respelled(printed, ["id"] + names)
    ensures RunText(tables, driver, InsertText(verb, table, printed, Placeholders(style, 1, |names| + 1)),
                    [Str(id)] + values)
            == InsertOutcome(tables, driver, Lower(table), verb, id, stored)
  {
    hide Parse, InsertText, Healthy, Carries, Execute, CellMap, Bindable, ReplaceRow, IsIdent, InsertOutcome, Lower;
    GoodBare(table);
    RespelledColumns(printed, ["id"] + names);
    InsertParses(verb, Bare(table), Bares(printed), style);
    InsertRuns(tables, driver, Lower(table), verb, id, names, values, stored);
  }

  lemma OwnSpelling(names: seq<string>, values: seq<Value>, stored: map<string, Value>)
    requires Spells(names, values, stored)
    ensures Respelled(names, names) && Respelled(["id"] + names, ["id"] + names)
  {
    CarriedNames(names, values, stored);
    IdIsIdent();
  }

  /** The INSERT OR REPLACE of an object, run as text, replaces one row of the table. */
  lemma ReplaceTextRuns(tables: Tables, driver: Driver, table: string, id: string,
                        names: seq<string>, values: seq<Value>, stored: map<string, Value>)
    requires AllHealthy(tables) && IsIdent(table) && Lower(table) in tables && Carries(names, values, stored)
    ensures RunText(tables, driver, InsertText(InsertOrReplace, table, ["id"] + names,
                                               Placeholders(Marks, 1, |names| + 1)),
                    [Str(id)] + values)
            == ReplaceOutcome(tables, driver, Lower(table), id, stored)
  {
    hide RunText, InsertText, Healthy, Respelled, ReplaceOutcome, InsertOutcome, IsIdent, Spells;
    OwnSpelling(names, values, stored);
    ReplaceIsInsert(tables, driver, Lower(table), id, stored);
    InsertTextDoes(tables, driver, InsertOrReplace, Marks, table, ["id"] + names, id, names, values, stored);
  }

  lemma UpdateIsNoCreate(table: string, key: string, style: Style)
    requires IsIdent(table) && IsIdent(key) && IsStyle(style)
    ensures ReadCreate(Lex(UpdateText(table, [], Condition(key, Placeholder(style, 1))))) == None
  {
    EmptyUpdateStart(Bare(table), Bare(key), style);
    assert Words(CREATE_WORDS)[0] == Word("CREATE");
  }

  /** The UPDATE of an object, run as text in any placeholder style and spelling, updates one row;
      without a column it is refused. */
  lemma UpdateTextDoes(tables: Tables, driver: Driver, style: Style, table: string, key: string, printed: seq<string>,
                       id: string, names: seq<string>, values: seq<Value>, stored: map<string, Value>)
    requires AllHealthy(tables) && IsIdent(table) && Lower(table) in tables
    requires Spells(names, values, stored) && Covers(stored, names)
    requires IsStyle(style) && Respelled(printed, names) && IsIdent(key) && Lower(key) == "id"
    ensures RunText(tables, driver,
                    UpdateText(table, SetClauses(Bares(printed), style, 1),
                               Condition(key, Placeholder(style, |names| + 1))),
                    values + [Str(id)])
            == if names == [] then (tables, None) else UpdateInOrder(tables, driver, Lower(table), id, stored, names)
  {
    hide Parse, UpdateText, Healthy, Spells, Execute, LastCells, Bindable, UpdateRow, IsIdent, UpdateInOrder, Lower,
         Condition, Lex;
    GoodBare(table);
    GoodBare(key);
    RespelledSets(printed, names, 1);
    if names == [] {
      assert SetClauses(Bares(printed), style, 1) == [];
      EmptyUpdateDoesNotParse(Bare(table), Bare(key), style);
      UpdateIsNoCreate(table, key, style);
    } else {
      UpdateParses(Bare(table), Bares(printed), Bare(key), style);
      UpdateRuns(tables, driver, Lower(table), id, names, values, stored);
    }
  }

  lemma UpdateTextRuns(tables: Tables, driver: Driver, table: string, id: string,
                       names: seq<string>, values: seq<Value>, stored: map<string, Value>)
    requires AllHealthy(tables) && IsIdent(table) && Lower(table) in tables
    requires Spells(names, values, stored) && Covers(stored, names)
    ensures RunText(tables, driver, UpdateText(table, SetClauses(Bares(names), Marks, 1), "id = ?"), values + [Str(id)])
            == if names == [] then (tables, None) else UpdateInOrder(tables, driver, Lower(table), id, stored, names)
  {
    hide RunText, UpdateText, Healthy, Spells, Respelled, UpdateInOrder, IsIdent;
    OwnSpelling(names, values, stored);
    IdIsIdent();
    assert Condition("id", Placeholder(Marks, |names| + 1)) == "id = ?";
    UpdateTextDoes(tables, driver, Marks, table, "id", names, id, names, values, stored);
  }

  /** Inserting a row, if every value can be bound. */
  ghost function InsertOutcome(tables: Tables, driver: Driver, table: string, verb: Verb, id: string,
                               stored: map<string, Value>)
    : (Tables, Option<nat>)
    requires AllHealthy(tables) && table in tables
  {
    if !Bindable(stored) then (tables, None)
    else
      var t := tables[table];
      match InsertEffect(t, verb, id, KeptCells(t.cols, driver, stored))
      case Refused(_) => (tables, None)
      case Done(rows, n) => (tables[table := t.(rows := rows)], Some(n))
  }

  /** Replacing a row, if every value can be bound. */
  ghost function ReplaceOutcome(tables: Tables, driver: Driver, table: string, id: string, stored: map<string, Value>)
    : (Tables, Option<nat>)
    requires AllHealthy(tables) && table in tables
  {
    if !Bindable(stored) then (tables, None)
    else
      var t := tables[table];
      match ReplaceRow(t.cols, t.rows, id, KeptCells(t.cols, driver, stored), true)
      case Refused(_) => (tables, None)
      case Done(rows, n) => (tables[table := t.(rows := rows)], Some(n))
  }

  /** Setting columns of one row. */
  function RowSet(tables: Tables, driver: Driver, table: string, id: string, given: map<string, Cell>)
    : (Tables, Option<nat>)
    requires AllHealthy(tables) && table in tables
  {
    var t := tables[table];
    match UpdateRow(t.cols, t.rows, id, Kept(t.cols, driver, given))
    case Refused(_) => (tables, None)
    case Done(rows, n) => (tables[table := t.(rows := rows)], Some(n))
  }

  /** Updating a row by fields listed in some order, if every value can be bound. */
  ghost function UpdateInOrder(tables: Tables, driver: Driver, table: string, id: string, stored: map<string, Value>,
                               names: seq<string>)
    : (Tables, Option<nat>)
    requires AllHealthy(tables) && table in tables && Covers(stored, names)
  {
    if !Bindable(stored) then (tables, None) else RowSet(tables, driver, table, id, LastCells(stored, names))
  }

  /** Updating a row by fields that name different columns. */
  ghost function UpdateOutcome(tables: Tables, driver: Driver, table: string, id: string, stored: map<string, Value>)
    : (Tables, Option<nat>)
    requires AllHealthy(tables) && table in tables
  {
    if !Bindable(stored) then (tables, None) else RowSet(tables, driver, table, id, CellMap(stored))
  }

  lemma InOrderIsOutcome(tables: Tables, driver: Driver, table: string, id: string, stored: map<string, Value>,
                         names: seq<string>)
    requires AllHealthy(tables) && table in tables && Lists(names, stored) && FoldsApart(stored.Keys)
             && Covers(stored, names)
    ensures UpdateInOrder(tables, driver, table, id, stored, names) == UpdateOutcome(tables, driver, table, id, stored)
  {
    LastIsCellMap(stored, names);
  }
}
