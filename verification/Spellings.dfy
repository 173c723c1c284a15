/** Objects that spell one column in several ways: when the effect of an UPDATE depends on the order
    in which the fields are ranged over. */
module Spellings {
  import opened Outcomes
  import opened Text
  import opened Values
  import opened Sql
  import opened Engine
  import opened Ddl
  import opened Databases
  import opened Common
  import opened Scanner
  import opened DriverLaws
  import opened Effects
  import opened Creation
  import opened Sqlite
  import opened SqliteRuns
  import opened SqliteHistory

  /** What an UPDATE sets, once the columns keep it. */
  ghost function SetCells(t: Table, driver: Driver, obj: Object, order: seq<string>): (m: map<string, Cell>)
    requires RangeOrder(order, obj.fields.Keys)
  {
    RangeStored(order, obj.fields);
    Kept(t.cols, driver, LastCells(UpdateStored(obj.fields), NonId(order)))
  }

  /** In every range order the UPDATE has the same effect and reply. */
  ghost predicate SameInEveryOrder(sch: Schema, tables: Tables, driver: Driver, obj: Object)
    requires AllHealthy(tables) && obj.tableName in sch && Lower(obj.tableName) in tables
  {
    forall p, q {:trigger RangeOrder(p, obj.fields.Keys), RangeOrder(q, obj.fields.Keys)} ::
      RangeOrder(p, obj.fields.Keys) && RangeOrder(q, obj.fields.Keys) ==>
        UpdateSpec(sch, tables, driver, obj, p) == UpdateSpec(sch, tables, driver, obj, q)
  }

  /** The UPDATE succeeds in this order. */
  ghost predicate AcceptedIn(sch: Schema, tables: Tables, driver: Driver, obj: Object, order: seq<string>)
    requires AllHealthy(tables) && obj.tableName in sch && Lower(obj.tableName) in tables
  {
    RangeOrder(order, obj.fields.Keys) && UpdateSpec(sch, tables, driver, obj, order).1.Ok?
  }

  /** Two spellings of a column give it the same cell. */
  ghost predicate SpellingsAgree(t: Table, driver: Driver, fields: map<string, Value>) {
    forall a, b {:trigger Lower(a), Lower(b)} ::
      a in fields && b in fields && !IsId(a) && Lower(a) == Lower(b) && Lower(a) in t.cols ==>
        driver.keep(t.cols[Lower(a)].dataType, BoundCell(fields[a])) ==
          driver.keep(t.cols[Lower(a)].dataType, BoundCell(fields[b]))
  }

  // ---------------------------------------------------------------- agreeing spellings

  lemma SetKeys(t: Table, driver: Driver, obj: Object, order: seq<string>)
    requires RangeOrder(order, obj.fields.Keys)
    ensures SetCells(t, driver, obj, order).Keys == FoldAll(UpdateStored(obj.fields).Keys)
  {
    hide RangeOrder, LastCells, UpdateStored;
    RangeStored(order, obj.fields);
    LastKeys(UpdateStored(obj.fields), NonId(order));
  }

  /** The cell a column is set to is that of one of its spellings. */
  lemma SetBySpelling(t: Table, driver: Driver, obj: Object, order: seq<string>, c: string) returns (n: string)
    requires RangeOrder(order, obj.fields.Keys) && c in SetCells(t, driver, obj, order) && c in t.cols
    ensures n in obj.fields && !IsId(n) && Lower(n) == c
    ensures SetCells(t, driver, obj, order)[c] == driver.keep(t.cols[c].dataType, BoundCell(obj.fields[n]))
  {
    hide RangeOrder, LastCells, IsId, BoundCell, Lower;
    RangeStored(order, obj.fields);
    var i := LastOf(UpdateStored(obj.fields), NonId(order), c);
    n := NonId(order)[i];
  }

  lemma AgreeingCells(t: Table, driver: Driver, obj: Object, p: seq<string>, q: seq<string>)
    requires RangeOrder(p, obj.fields.Keys) && RangeOrder(q, obj.fields.Keys) && SpellingsAgree(t, driver, obj.fields)
    requires SetCells(t, driver, obj, p).Keys <= t.cols.Keys
    ensures SetCells(t, driver, obj, p) == SetCells(t, driver, obj, q)
  {
    hide RangeOrder, SetCells, IsId, BoundCell, UpdateStored, FoldAll, SpellingsAgree;
    SetKeys(t, driver, obj, p);
    SetKeys(t, driver, obj, q);
    forall c | c in SetCells(t, driver, obj, p) ensures SetCells(t, driver, obj, p)[c] ==
      SetCells(t, driver, obj, q)[c]
    {
      var a := SetBySpelling(t, driver, obj, p, c);
      var b := SetBySpelling(t, driver, obj, q, c);
      TwoAgree(t, driver, obj.fields, a, b);
    }
  }

  lemma TwoAgree(t: Table, driver: Driver, fields: map<string, Value>, a: string, b: string)
    requires SpellingsAgree(t, driver, fields) && a in fields && b in fields && !IsId(a) && Lower(a) == Lower(b)
             && Lower(a) in t.cols
    ensures driver.keep(t.cols[Lower(a)].dataType, BoundCell(fields[a])) ==
            driver.keep(t.cols[Lower(a)].dataType, BoundCell(fields[b]))
  {
    hide IsId, BoundCell, Lower;
  }

  // ---------------------------------------------------------------- the outcome by what is set

  /** The UPDATE of an object, by the cells it sets. */
  lemma OutcomeBySet(sch: Schema, tables: Tables, driver: Driver, obj: Object, order: seq<string>)
    requires AllHealthy(tables) && obj.tableName in sch && Lower(obj.tableName) in tables
             && RangeOrder(order, obj.fields.Keys)
    ensures var t := tables[Lower(obj.tableName)]; var given := SetCells(t, driver, obj, order);
            var (after, out) := UpdateSpec(sch, tables, driver, obj, order);
            && WellShaped(t.cols, t.rows)
            && (!out.Ok? ==> after == tables && out == if obj.fields == map[] then Panic else Err(Storage))
            && (out.Ok? ==>
                  obj.fields != map[] && UpdateStored(obj.fields) != map[] && Bindable(UpdateStored(obj.fields)))
            && (obj.fields != map[] && UpdateStored(obj.fields) != map[] && Bindable(UpdateStored(obj.fields)) ==>
                  match UpdateRow(t.cols, t.rows, obj.id, given)
                  case Refused(_) => !out.Ok?
                  case Done(rows, n) => out == Ok(n > 0) && after == tables[Lower(obj.tableName) := t.(rows := rows)])
  {
    hide RangeOrder, LastCells, UpdateStored, Bindable, Healthy, UpdateRow, Kept, Lists;
    RangeStored(order, obj.fields);
    HealthyIsShaped(tables[Lower(obj.tableName)].cols, tables[Lower(obj.tableName)].rows);
  }

  lemma SameSetSameOutcome(sch: Schema, tables: Tables, driver: Driver, obj: Object, p: seq<string>, q: seq<string>)
    requires AllHealthy(tables) && obj.tableName in sch && Lower(obj.tableName) in tables
    requires RangeOrder(p, obj.fields.Keys) && RangeOrder(q, obj.fields.Keys)
    requires var t := tables[Lower(obj.tableName)];
             || SetCells(t, driver, obj, p) == SetCells(t, driver, obj, q)
             || !(SetCells(t, driver, obj, p).Keys <= t.cols.Keys)
             || obj.id !in t.rows
    ensures UpdateSpec(sch, tables, driver, obj, p) == UpdateSpec(sch, tables, driver, obj, q)
  {
    hide RangeOrder, SetCells, UpdateStored, Bindable, Healthy, UpdateSpec, NotNullHolds, Blockers;
    var t := tables[Lower(obj.tableName)];
    OutcomeBySet(sch, tables, driver, obj, p);
    OutcomeBySet(sch, tables, driver, obj, q);
    SetKeys(t, driver, obj, p);
    SetKeys(t, driver, obj, q);
  }

  // ---------------------------------------------------------------- differing spellings

  function Without(order: seq<string>, n: string): (rest: seq<string>)
    ensures forall m :: m in rest <==> m in order && m != n
    ensures Distinct(order) ==> Distinct(rest)
  {
    if order == [] then []
    else
      var k := |order| - 1;
      assert order == order[..k] + [order[k]];
      assert Distinct(order) ==> Distinct(order[..k]) && order[k] !in order[..k];
      if order[k] == n then Without(order[..k], n) else Without(order[..k], n) + [order[k]]
  }

  /** A range order in which this field comes last. */
  lemma MovedLast(fields: map<string, Value>, order: seq<string>, n: string) returns (moved: seq<string>)
    requires RangeOrder(order, fields.Keys) && n in fields && !IsId(n)
    ensures RangeOrder(moved, fields.Keys) && NonId(moved) != [] && NonId(moved)[|NonId(moved)| - 1] == n
  {
    hide IsId;
    var rest := Without(order, n);
    moved := rest + [n];
    assert moved[..|moved| - 1] == rest;
    forall m ensures m in moved <==> m in fields.Keys {
      assert m in order <==> m in (set k | k in order);
      assert m in moved <==> m in rest || m == n;
    }
    assert (set k | k in moved) == fields.Keys;
  }

  /** The last field sets its column. */
  lemma LastSets(t: Table, driver: Driver, obj: Object, order: seq<string>, n: string)
    requires RangeOrder(order, obj.fields.Keys) && NonId(order) != [] && NonId(order)[|NonId(order)| - 1] == n
    requires n in obj.fields && !IsId(n) && Lower(n) in t.cols
    ensures Lower(n) in SetCells(t, driver, obj, order)
    ensures SetCells(t, driver, obj, order)[Lower(n)] ==
            driver.keep(t.cols[Lower(n)].dataType, BoundCell(obj.fields[n]))
  {
    hide RangeOrder, BoundCell, IsId, LastCells, Lower;
    RangeStored(order, obj.fields);
    OnlyLast(UpdateStored(obj.fields), NonId(order), |NonId(order)| - 1);
  }

  /** An accepted UPDATE leaves the cells it sets in the row. */
  lemma AcceptedStores(sch: Schema, tables: Tables, driver: Driver, obj: Object, order: seq<string>)
    requires AllHealthy(tables) && obj.tableName in sch && Lower(obj.tableName) in tables
             && AcceptedIn(sch, tables, driver, obj, order)
    requires obj.id in tables[Lower(obj.tableName)].rows
    ensures var name := Lower(obj.tableName); var given := SetCells(tables[name], driver, obj, order);
            var after := UpdateSpec(sch, tables, driver, obj, order).0;
            && given.Keys <= tables[name].cols.Keys
            && name in after && obj.id in after[name].rows
               && forall c <- given :: c in after[name].rows[obj.id] && after[name].rows[obj.id][c] == given[c]
  {
    hide RangeOrder, SetCells, UpdateStored, Bindable, Healthy, UpdateSpec, NotNullHolds, Blockers;
    OutcomeBySet(sch, tables, driver, obj, order);
  }

  /** From an order that is accepted, another that has a different effect. */
  lemma AnotherOutcome(sch: Schema, tables: Tables, driver: Driver, obj: Object, p: seq<string>, a: string, b: string)
    returns (q: seq<string>)
    requires AllHealthy(tables) && obj.tableName in sch && Lower(obj.tableName) in tables
             && AcceptedIn(sch, tables, driver, obj, p)
    requires obj.id in tables[Lower(obj.tableName)].rows
    requires var t := tables[Lower(obj.tableName)];
             && a in obj.fields && b in obj.fields && !IsId(a) && Lower(a) == Lower(b) && Lower(a) in t.cols
             && driver.keep(t.cols[Lower(a)].dataType, BoundCell(obj.fields[a])) !=
                driver.keep(t.cols[Lower(a)].dataType, BoundCell(obj.fields[b]))
    ensures RangeOrder(q, obj.fields.Keys) && UpdateSpec(sch, tables, driver, obj, q) != UpdateSpec(sch, tables,
            driver, obj, p)
  {
    var t, c := tables[Lower(obj.tableName)], Lower(a);
    assert !IsId(b);
    hide RangeOrder, SetCells, UpdateStored, UpdateSpec, BoundCell, Healthy, IsId;
    AcceptedStores(sch, tables, driver, obj, p);
    SetKeys(t, driver, obj, p);
    assert c in SetCells(t, driver, obj, p) by {
      var first := MovedLast(obj.fields, p, a);
      LastSets(t, driver, obj, first, a);
      SetKeys(t, driver, obj, first);
    }
    var n := if driver.keep(t.cols[c].dataType, BoundCell(obj.fields[a])) == SetCells(t, driver, obj, p)[c] then b
      else a;
    q := MovedLast(obj.fields, p, n);
    LastSets(t, driver, obj, q, n);
    if AcceptedIn(sch, tables, driver, obj, q) {
      AcceptedStores(sch, tables, driver, obj, q);
    }
  }

  // ---------------------------------------------------------------- orders that are accepted

  /** The row of this id may hold this cell in column c. */
  ghost predicate Allowed(t: Table, id: string, c: string, v: Cell)
    requires WellShaped(t.cols, t.rows) && c in t.cols
  {
    && (t.cols[c].notNull ==> v != Null)
    && (t.cols[c].unique && v != Null ==> forall k <- t.rows :: k != id ==> t.rows[k][c] != v)
  }

  /** This field has a column, which may hold the cell it is given. */
  ghost predicate Good(t: Table, driver: Driver, obj: Object, n: string)
    requires WellShaped(t.cols, t.rows)
  {
    && n in obj.fields && !IsId(n) && Lower(n) in t.cols
    && Allowed(t, obj.id, Lower(n), driver.keep(t.cols[Lower(n)].dataType, BoundCell(obj.fields[n])))
  }

  ghost predicate HasGoodSpelling(t: Table, driver: Driver, obj: Object, n: string)
    requires WellShaped(t.cols, t.rows)
  {
    exists m :: Lower(m) == Lower(n) && Good(t, driver, obj, m)
  }

  /** There is a field to set, every field can be bound, and every field has a column and a spelling
      that gives that column a cell it may hold. */
  ghost predicate SomeSpellingsFit(t: Table, driver: Driver, obj: Object)
    requires WellShaped(t.cols, t.rows)
  {
    && UpdateStored(obj.fields) != map[] && Bindable(UpdateStored(obj.fields))
    && forall n <- obj.fields :: IsId(n) || HasGoodSpelling(t, driver, obj, n)
  }

  /** A row with cells changed can be stored exactly when every changed column may hold its cell. */
  lemma AllowedCells(t: Table, id: string, given: map<string, Cell>)
    requires Healthy(t.cols, t.rows) && WellShaped(t.cols, t.rows) && id in t.rows && given.Keys <= t.cols.Keys
    ensures var row := t.rows[id] + given;
            row.Keys == t.cols.Keys &&
              (NotNullHolds(t.cols, row) && Blockers(t.cols, t.rows, id, row) == {id} <==>
               forall c <- given :: Allowed(t, id, c, given[c]))
  {
    var row := t.rows[id] + given;
    assert row.Keys == t.cols.Keys;
    if forall c <- given :: Allowed(t, id, c, given[c]) {
      forall k | k in t.rows && k != id ensures !Clash(t.cols, t.rows[k], row) {
        assert !Clash(t.cols, t.rows[k], t.rows[id]);
      }
    }
    if NotNullHolds(t.cols, row) && Blockers(t.cols, t.rows, id, row) == {id} {
      forall c | c in given ensures Allowed(t, id, c, given[c]) {
        forall k | k in t.rows && k != id && t.cols[c].unique && given[c] != Null ensures t.rows[k][c] != given[c] {
          assert k !in Blockers(t.cols, t.rows, id, row);
        }
      }
    }
  }

  lemma AcceptedByCells(sch: Schema, tables: Tables, driver: Driver, obj: Object, order: seq<string>)
    requires AllHealthy(tables) && obj.tableName in sch && Lower(obj.tableName) in tables
             && RangeOrder(order, obj.fields.Keys)
    requires obj.id in tables[Lower(obj.tableName)].rows
    ensures var t := tables[Lower(obj.tableName)]; var given := SetCells(t, driver, obj, order);
            && WellShaped(t.cols, t.rows)
            && (AcceptedIn(sch, tables, driver, obj, order) <==>
                && UpdateStored(obj.fields) != map[] && Bindable(UpdateStored(obj.fields))
                && given.Keys <= t.cols.Keys && forall c <- given :: Allowed(t, obj.id, c, given[c]))
  {
    hide RangeOrder, SetCells, Bindable, UpdateSpec, NotNullHolds, Blockers, Allowed, Healthy;
    var t := tables[Lower(obj.tableName)];
    assert Healthy(t.cols, t.rows);
    OutcomeBySet(sch, tables, driver, obj, order);
    var given := SetCells(t, driver, obj, order);
    if given.Keys <= t.cols.Keys {
      AllowedCells(t, obj.id, given);
    }
  }

  lemma {:induction false} NonIdJoin(p: seq<string>, q: seq<string>)
    ensures NonId(p + q) == NonId(p) + NonId(q)
  {
    hide IsId;
    if q == [] {
      assert p + q == p;
    } else {
      var k := |q| - 1;
      assert (p + q)[..|p + q| - 1] == p + q[..k];
      NonIdJoin(p, q[..k]);
    }
  }

  lemma RangeJoin(p: seq<string>, q: seq<string>, a: set<string>, b: set<string>)
    requires RangeOrder(p, a) && RangeOrder(q, b) && a !! b
    ensures RangeOrder(p + q, a + b)
  {
    assert forall n :: n in p + q <==> n in p || n in q;
    assert (set n | n in p + q) == (set n | n in p) + (set n | n in q);
    forall i | 0 <= i < |p| ensures p[i] in a {
      assert p[i] in (set n | n in p);
    }
    forall i | 0 <= i < |q| ensures q[i] in b {
      assert q[i] in (set n | n in q);
    }
  }

  /** A range order with these fields after the others. */
  lemma ThoseLast(keys: set<string>, last: set<string>) returns (order: seq<string>, first: seq<string>)
    requires last <= keys
    ensures RangeOrder(order, keys) && |first| <= |NonId(order)| && NonId(order)[..|first|] == first
    ensures forall n <- keys :: !IsId(n) ==> (n in first <==> n !in last)
  {
    hide IsId;
    var p := AnyOrder(keys - last);
    var q := AnyOrder(last);
    order, first := p + q, NonId(p);
    RangeJoin(p, q, keys - last, last);
    assert keys - last + last == keys;
    NonIdJoin(p, q);
    NonIdMembers(p);
    forall n | n in keys && !IsId(n) ensures n in first <==> n !in last {
      assert n in p <==> n in (set m | m in p);
    }
  }

  /** What comes after a name outside the first ones is outside them too. */
  lemma AfterFirst(names: seq<string>, first: seq<string>, i: nat, j: nat)
    requires Distinct(names) && |first| <= |names| && names[..|first|] == first
    requires j <= i < |names| && names[j] !in first
    ensures names[i] !in first
  {
    assert forall h :: 0 <= h < |first| ==> first[h] == names[h];
  }

  /** The last of a column's spellings comes no earlier than any other. */
  lemma NoLater(names: seq<string>, i: nat, m: string) returns (j: nat)
    requires i < |names| && LastSpelling(names, i, Lower(names[i])) && m in names && Lower(m) == Lower(names[i])
    ensures j <= i && names[j] == m
  {
    hide Lower;
    j :| 0 <= j < |names| && names[j] == m;
  }

  /** With the good spellings last, every column ends with a good one. */
  lemma GoodLast(t: Table, driver: Driver, obj: Object, order: seq<string>, first: seq<string>, i: nat)
    requires WellShaped(t.cols, t.rows) && SomeSpellingsFit(t, driver, obj) && RangeOrder(order, obj.fields.Keys)
    requires |first| <= |NonId(order)| && NonId(order)[..|first|] == first
    requires forall n <- obj.fields :: !IsId(n) ==> (n in first <==> !Good(t, driver, obj, n))
    requires i < |NonId(order)| && LastSpelling(NonId(order), i, Lower(NonId(order)[i]))
    ensures Good(t, driver, obj, NonId(order)[i])
  {
    hide Lower, Bindable, Good, NonId, LastSpelling, IsId;
    var names := NonId(order);
    assert Distinct(names) && forall n :: n in names <==> n in obj.fields && !IsId(n) by {
      NonIdMembers(order);
      assert forall n :: n in order <==> n in (set m | m in order);
    }
    assert names[i] in names;
    assert HasGoodSpelling(t, driver, obj, names[i]);
    var m :| Lower(m) == Lower(names[i]) && Good(t, driver, obj, m);
    assert m in obj.fields && !IsId(m) by { GoodIsGiven(t, driver, obj, m); }
    var j := NoLater(names, i, m);
    AfterFirst(names, first, i, j);
  }

  lemma GoodIsGiven(t: Table, driver: Driver, obj: Object, m: string)
    requires WellShaped(t.cols, t.rows) && Good(t, driver, obj, m)
    ensures m in obj.fields && !IsId(m)
  {
  }

  lemma GoodIsAllowed(t: Table, driver: Driver, obj: Object, order: seq<string>, first: seq<string>, c: string)
    requires WellShaped(t.cols, t.rows) && SomeSpellingsFit(t, driver, obj) && RangeOrder(order, obj.fields.Keys)
    requires |first| <= |NonId(order)| && NonId(order)[..|first|] == first
    requires forall n <- obj.fields :: !IsId(n) ==> (n in first <==> !Good(t, driver, obj, n))
    requires c in SetCells(t, driver, obj, order)
    ensures c in t.cols && Allowed(t, obj.id, c, SetCells(t, driver, obj, order)[c])
  {
    hide RangeOrder, LastCells, IsId, BoundCell, Lower, Allowed, NonId, SomeSpellingsFit;
    RangeStored(order, obj.fields);
    var i := LastOf(UpdateStored(obj.fields), NonId(order), c);
    assert Lower(NonId(order)[i]) == c;
    GoodLast(t, driver, obj, order, first, i);
  }

  /** Some order is accepted exactly when the spellings fit. */
  lemma FittingIsAccepted(sch: Schema, tables: Tables, driver: Driver, obj: Object)
    requires AllHealthy(tables) && obj.tableName in sch && Lower(obj.tableName) in tables
    requires obj.id in tables[Lower(obj.tableName)].rows
    ensures var t := tables[Lower(obj.tableName)];
            && WellShaped(t.cols, t.rows)
            && (SomeSpellingsFit(t, driver, obj) <==>
                exists order {:trigger AcceptedIn(sch, tables, driver, obj, order)} ::
                  AcceptedIn(sch, tables, driver, obj, order))
  {
    hide RangeOrder, SetCells, IsId, BoundCell, UpdateStored, UpdateSpec, Healthy, Allowed, Bindable;
    var t := tables[Lower(obj.tableName)];
    assert WellShaped(t.cols, t.rows) by { HealthyIsShaped(t.cols, t.rows); }
    if SomeSpellingsFit(t, driver, obj) {
      FitsInOrder(sch, tables, driver, obj);
    }
    if order :| AcceptedIn(sch, tables, driver, obj, order) {
      AcceptedFits(sch, tables, driver, obj, order);
    }
  }

  lemma FitsInOrder(sch: Schema, tables: Tables, driver: Driver, obj: Object)
    requires AllHealthy(tables) && obj.tableName in sch && Lower(obj.tableName) in tables
    requires var t := tables[Lower(obj.tableName)];
             obj.id in t.rows && WellShaped(t.cols, t.rows) && SomeSpellingsFit(t, driver, obj)
    ensures exists order {:trigger AcceptedIn(sch, tables, driver, obj, order)} ::
              AcceptedIn(sch, tables, driver, obj, order)
  {
    hide RangeOrder, SetCells, IsId, BoundCell, UpdateSpec, Healthy, Allowed, Bindable, Good, Lower;
    var t := tables[Lower(obj.tableName)];
    var good := set n | n in obj.fields && Good(t, driver, obj, n);
    var order, first := ThoseLast(obj.fields.Keys, good);
    var given := SetCells(t, driver, obj, order);
    forall c | c in given ensures c in t.cols && Allowed(t, obj.id, c, given[c]) {
      GoodIsAllowed(t, driver, obj, order, first, c);
    }
    AcceptedByCells(sch, tables, driver, obj, order);
  }

  lemma AcceptedFits(sch: Schema, tables: Tables, driver: Driver, obj: Object, order: seq<string>)
    requires AllHealthy(tables) && obj.tableName in sch && Lower(obj.tableName) in tables
             && AcceptedIn(sch, tables, driver, obj, order)
    requires obj.id in tables[Lower(obj.tableName)].rows
    ensures var t := tables[Lower(obj.tableName)]; WellShaped(t.cols, t.rows) && SomeSpellingsFit(t, driver, obj)
  {
    hide RangeOrder, SetCells, UpdateSpec, Healthy, Allowed, Bindable, Lower, IsId, UpdateStored, HasGoodSpelling;
    var t := tables[Lower(obj.tableName)];
    AcceptedByCells(sch, tables, driver, obj, order);
    forall n | n in obj.fields && !IsId(n) ensures HasGoodSpelling(t, driver, obj, n) {
      GoodSpelling(t, driver, obj, order, n);
    }
  }

  lemma GoodSpelling(t: Table, driver: Driver, obj: Object, order: seq<string>, n: string)
    requires WellShaped(t.cols, t.rows) && RangeOrder(order, obj.fields.Keys) && n in obj.fields && !IsId(n)
    requires var given := SetCells(t, driver, obj, order);
             given.Keys <= t.cols.Keys && forall c <- given :: Allowed(t, obj.id, c, given[c])
    ensures HasGoodSpelling(t, driver, obj, n)
  {
    hide RangeOrder, SetCells, BoundCell, Allowed, Lower, IsId;
    SetKeys(t, driver, obj, order);
    assert Lower(n) in FoldAll(UpdateStored(obj.fields).Keys);
    var m := SetBySpelling(t, driver, obj, order, Lower(n));
    assert Good(t, driver, obj, m);
  }

  // ---------------------------------------------------------------- when order matters

  /** The UPDATE of an object has the same effect in every range order exactly when its row is not
      there, or its spellings of each column agree on the cell, or it fails in all of them: a value
      cannot be bound, a field has no column, or some column may hold none of the cells given to it. */
  lemma SpellingsDecide(sch: Schema, tables: Tables, driver: Driver, obj: Object)
    requires AllInstalled(sch, tables, driver) && obj.tableName in sch
    ensures Lower(obj.tableName) in tables
    ensures var t := tables[Lower(obj.tableName)];
            && WellShaped(t.cols, t.rows)
            && (SameInEveryOrder(sch, tables, driver, obj) <==>
                || obj.id !in t.rows
                || SpellingsAgree(t, driver, obj.fields)
                || !SomeSpellingsFit(t, driver, obj))
  {
    hide Mirrors, BuiltByAddField, RangeOrder, SetCells, UpdateSpec, Healthy, IsId, BoundCell, UpdateStored,
         SomeSpellingsFit;
    assert Installed(sch, tables, driver, obj.tableName);
    var t := tables[Lower(obj.tableName)];
    HealthyIsShaped(t.cols, t.rows);
    if obj.id in t.rows {
      FittingIsAccepted(sch, tables, driver, obj);
    }
    if obj.id !in t.rows || SpellingsAgree(t, driver, obj.fields) || !SomeSpellingsFit(t, driver, obj) {
      forall p, q | RangeOrder(p, obj.fields.Keys) && RangeOrder(q, obj.fields.Keys)
        ensures UpdateSpec(sch, tables, driver, obj, p) == UpdateSpec(sch, tables, driver, obj, q)
      {
        BothSame(sch, tables, driver, obj, p, q);
      }
    } else {
      var p :| AcceptedIn(sch, tables, driver, obj, p);
      var a, b :| a in obj.fields && b in obj.fields && !IsId(a) && Lower(a) == Lower(b) && Lower(a) in t.cols
               && driver.keep(t.cols[Lower(a)].dataType, BoundCell(obj.fields[a])) !=
                  driver.keep(t.cols[Lower(a)].dataType, BoundCell(obj.fields[b]));
      var q := AnotherOutcome(sch, tables, driver, obj, p, a, b);
    }
  }

  lemma BothSame(sch: Schema, tables: Tables, driver: Driver, obj: Object, p: seq<string>, q: seq<string>)
    requires AllHealthy(tables) && obj.tableName in sch && Lower(obj.tableName) in tables
    requires RangeOrder(p, obj.fields.Keys) && RangeOrder(q, obj.fields.Keys)
    requires var t := tables[Lower(obj.tableName)];
             || obj.id !in t.rows || SpellingsAgree(t, driver, obj.fields)
             || (!AcceptedIn(sch, tables, driver, obj, p) && !AcceptedIn(sch, tables, driver, obj, q))
    ensures UpdateSpec(sch, tables, driver, obj, p) == UpdateSpec(sch, tables, driver, obj, q)
  {
    hide RangeOrder, SetCells, UpdateSpec, Healthy, SpellingsAgree, UpdateStored;
    var t := tables[Lower(obj.tableName)];
    OutcomeBySet(sch, tables, driver, obj, p);
    OutcomeBySet(sch, tables, driver, obj, q);
    if obj.id !in t.rows || !(SetCells(t, driver, obj, p).Keys <= t.cols.Keys) {
      SameSetSameOutcome(sch, tables, driver, obj, p, q);
    } else if SpellingsAgree(t, driver, obj.fields) {
      AgreeingCells(t, driver, obj, p, q);
      SameSetSameOutcome(sch, tables, driver, obj, p, q);
    }
  }

  // ---------------------------------------------------------------- an example

  lemma LetterIsIdent(w: string)
    requires w == "a" || w == "A" || w == "t"
    ensures IsIdent(w) && !IsId(w) && Lower(w) == if w == "t" then "t" else "a"
  {
    assert |Upper(w)| == 1;
    forall i | 0 <= i < |RESERVED| ensures RESERVED[i] != Upper(w) {
      assert |RESERVED[i]| >= 2;
    }
  }

  /** A table t with one text column a, and one row. */
  function ExampleSchema(): Schema {
    var id := ColumnData("id", "TEXT", false, None, false, false, false, true);
    var a := ColumnData("a", "TEXT", true, None, false, false, false, false);
    map["t" := TableInfo("t", map["id" := id, "a" := a], ["id", "a"])]
  }

  function ExampleTable(s: string): Table {
    Table("t", ["a"], map["a" := ColDef("a", "TEXT", false, None, Null, false)], map["1" := map["a" := Text(s)]])
  }

  function ExampleTables(s: string): Tables {
    map["t" := ExampleTable(s)]
  }

  /** An object that gives the column as a and as A: the row ends with whichever comes last. */
  lemma TwoSpellingsDependOnOrder(driver: Driver)
    requires Lawful(driver)
    ensures AllInstalled(ExampleSchema(), ExampleTables("z"), driver) && Lower("t") == "t"
    ensures var obj := Object("t", "1", map["a" := Str("x"), "A" := Str("y")]);
            && RangeOrder(["a", "A"], obj.fields.Keys) && RangeOrder(["A", "a"], obj.fields.Keys)
            && UpdateSpec(ExampleSchema(), ExampleTables("z"), driver, obj, ["a", "A"]) ==
               (ExampleTables("y"), Ok(true))
            && UpdateSpec(ExampleSchema(), ExampleTables("z"), driver, obj, ["A", "a"]) ==
               (ExampleTables("x"), Ok(true))
  {
    var obj := Object("t", "1", map["a" := Str("x"), "A" := Str("y")]);
    hide ExampleTables, ExampleSchema, UpdateSpec, AllInstalled, RangeOrder, Lawful;
    ExampleInstalled(driver);
    assert obj.fields == map["A" := Str("y"), "a" := Str("x")];
    ExampleOrder(driver, "a", "A", "x", "y");
    ExampleOrder(driver, "A", "a", "y", "x");
  }

  lemma ExampleInstalled(driver: Driver)
    ensures AllInstalled(ExampleSchema(), ExampleTables("z"), driver) && Lower("t") == "t" && "t" in ExampleSchema()
  {
    hide IsIdent, Lower, Upper;
    LetterIsIdent("t");
    ExampleMirrors(driver);
    ExampleHealthy();
    hide Mirrors, BuiltByAddField, Healthy, ExampleTable;
  }

  lemma ExampleMirrors(driver: Driver)
    ensures BuiltByAddField(ExampleSchema()["t"]) && Mirrors(ExampleSchema()["t"], ExampleTable("z").cols, driver)
  {
    hide IsIdent, Lower, Upper;
    var info := ExampleSchema()["t"];
    LetterIsIdent("a");
    LetterIsIdent("t");
    IdIsIdent();
    LowerId();
    assert info.order[0] == "id" && info.order[1] == "a";
    assert info.fields.Keys - {"id"} == {"a"};
    assert ExampleTable("z").cols.Keys == FoldAll({"a"});
  }

  lemma ExampleHealthy()
    ensures Healthy(ExampleTable("z").cols, ExampleTable("z").rows)
  {
  }

  lemma ExampleNames(fields: map<string, Value>, m: string, n: string)
    requires fields.Keys == {m, n} && ((m == "a" && n == "A") || (m == "A" && n == "a"))
    ensures !IsId(n) && Lower(n) == "a" && RangeOrder([m, n], fields.Keys) && NonId([m, n]) == [m, n]
    ensures UpdateStored(fields) == fields && FoldAll({m, n}) == {"a"}
  {
    LetterIsIdent(m);
    LetterIsIdent(n);
    hide Lower, IsIdent, IsId;
    assert (set k | k in [m, n]) == {m, n};
    TwoNames(m, n);
  }

  lemma ExampleSets(driver: Driver, obj: Object, m: string, n: string, y: string)
    requires Lawful(driver) && obj.fields.Keys == {m, n} && obj.fields[n] == Str(y)
    requires (m == "a" && n == "A") || (m == "A" && n == "a")
    ensures RangeOrder([m, n], obj.fields.Keys) && UpdateStored(obj.fields) == obj.fields
    ensures SetCells(ExampleTable("z"), driver, obj, [m, n]) == map["a" := Text(y)]
  {
    hide Lower, IsId, Lawful, SetCells, RangeOrder, NonId, UpdateStored, FoldAll, Upper;
    ExampleNames(obj.fields, m, n);
    TextIsPlain();
    TextLaws(driver, "TEXT", y, Null);
    LastSets(ExampleTable("z"), driver, obj, [m, n], n);
    SetKeys(ExampleTable("z"), driver, obj, [m, n]);
  }

  lemma ExampleRow(y: string)
    ensures var t := ExampleTable("z");
            WellShaped(t.cols, t.rows) && UpdateRow(t.cols, t.rows, "1", map["a" := Text(y)]) ==
              Done(ExampleTable(y).rows, 1)
  {
    var t := ExampleTable("z");
    var row := map["a" := Text(y)];
    assert t.rows["1"] + row == row;
    assert Blockers(t.cols, t.rows, "1", row) == {"1"};
    assert t.rows["1" := row] == ExampleTable(y).rows;
  }

  lemma ExampleOrder(driver: Driver, m: string, n: string, x: string, y: string)
    requires Lawful(driver) && ((m == "a" && n == "A") || (m == "A" && n == "a"))
    ensures var obj := Object("t", "1", map[m := Str(x), n := Str(y)]);
            && RangeOrder([m, n], obj.fields.Keys) && AllInstalled(ExampleSchema(), ExampleTables("z"), driver)
            && "t" in ExampleSchema() && Lower("t") in ExampleTables("z")
            && UpdateSpec(ExampleSchema(), ExampleTables("z"), driver, obj, [m, n]) == (ExampleTables(y), Ok(true))
  {
    var obj := Object("t", "1", map[m := Str(x), n := Str(y)]);
    hide Lawful, RangeOrder, SetCells, UpdateSpec, UpdateRow, ExampleSchema, Lower, Installed, Healthy, UpdateStored,
         WellShaped, ExampleTable;
    ExampleInstalled(driver);
    ExampleSets(driver, obj, m, n, y);
    ExampleRow(y);
    TextsBind(obj.fields, m, n, x, y);
    OutcomeBySet(ExampleSchema(), ExampleTables("z"), driver, obj, [m, n]);
    ExampleAfter(y);
  }

  lemma TextsBind(fields: map<string, Value>, m: string, n: string, x: string, y: string)
    requires fields == map[m := Str(x), n := Str(y)]
    ensures Bindable(fields) && fields != map[]
  {
    assert n in fields;
  }

  lemma ExampleAfter(y: string)
    ensures ExampleTables("z")["t" := ExampleTable("z").(rows := ExampleTable(y).rows)] == ExampleTables(y)
  {
  }

  lemma TextIsPlain()
    ensures Upper("TEXT") in PLAIN_TEXT
  {
    assert Upper("TEXT") == "TEXT" == PLAIN_TEXT[0];
  }

  lemma TwoNames(a: string, b: string)
    requires !IsId(a) && !IsId(b)
    ensures NonId([a, b]) == [a, b]
  {
    assert [a, b][..1] == [a] && [a][..0] == [];
    assert NonId([]) == [];
    assert NonId([a]) == [] + [a];
  }
}
