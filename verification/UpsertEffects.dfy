/** What each upsert statement does to the rows of its table, and when they all agree. */
module UpsertEffects {
  import opened Outcomes
  import opened Text
  import opened Values
  import opened Sql
  import opened Statements
  import opened Engine
  import opened Ddl
  import opened Databases
  import opened Common
  import opened Effects
  import opened UpsertTexts
  import opened MergeTexts

  // ---------------------------------------------------------------- the row operations

  /** MERGE on the id: update the row that is there, else insert. */
  function MergeEffect(t: Table, id: string, given: map<string, Cell>): Effect
    requires WellShaped(t.cols, t.rows)
  {
    if !(given.Keys <= t.cols.Keys) then Refused(false)
    else if id in t.rows then UpdateRow(t.cols, t.rows, id, given)
    else InsertRow(t.cols, t.rows, id, given)
  }

  /** ON CONFLICT (id) DO UPDATE, setting what was to be inserted. */
  function ConflictEffect(t: Table, id: string, given: map<string, Cell>): Effect
    requires WellShaped(t.cols, t.rows)
  {
    UpsertRow(t, id, given, Some(given))
  }

  /** Oracle: insert, and update by id when that violates a unique constraint. What the update
      affects is not looked at; None is an error. */
  function RetryEffect(t: Table, id: string, given: map<string, Cell>): Option<Rows>
    requires WellShaped(t.cols, t.rows)
  {
    match InsertRow(t.cols, t.rows, id, given)
    case Done(rows, _) => Some(rows)
    case Refused(unique) =>
      if !unique then None
      else match UpdateRow(t.cols, t.rows, id, given)
        case Done(rows, _) => Some(rows)
        case Refused(_) => None
  }

  // ---------------------------------------------------------------- when they agree

  /** The object supplies every column, leaves no null where none is allowed, and shares a unique
      value with no other row. */
  ghost predicate OnlyIdConflicts(t: Table, id: string, given: map<string, Cell>)
    requires WellShaped(t.cols, t.rows)
  {
    given.Keys == t.cols.Keys && NotNullHolds(t.cols, given) && Blockers(t.cols, t.rows, id, given) <= {id}
  }

  lemma CompleteFill(cols: map<string, ColDef>, given: map<string, Cell>, orReplace: bool)
    requires NotNullHolds(cols, given)
    ensures Fill(cols, given, orReplace) == given
  {
  }

  lemma BlockedById(t: Table, id: string, given: map<string, Cell>)
    requires WellShaped(t.cols, t.rows) && OnlyIdConflicts(t, id, given)
    ensures Blockers(t.cols, t.rows, id, given) == if id in t.rows then {id} else {}
  {
    if id in t.rows { assert id in Blockers(t.cols, t.rows, id, given); }
  }

  /** All the upsert forms store the same row over the same table. */
  lemma AllFormsAgree(t: Table, id: string, given: map<string, Cell>)
    requires WellShaped(t.cols, t.rows) && OnlyIdConflicts(t, id, given)
    ensures InsertEffect(t, InsertOrReplace, id, given) == Done(t.rows[id := given], 1)
    ensures InsertEffect(t, ReplaceInto, id, given) == Done(t.rows[id := given], 1)
    ensures ConflictEffect(t, id, given) == Done(t.rows[id := given], 1)
    ensures MergeEffect(t, id, given) == Done(t.rows[id := given], 1)
    ensures RetryEffect(t, id, given) == Some(t.rows[id := given])
  {
    CompleteFill(t.cols, given, true);
    CompleteFill(t.cols, given, false);
    BlockedById(t, id, given);
    hide Blockers, NotNullHolds, Fill;
    assert (t.rows - {id})[id := given] == t.rows[id := given];
    if id in t.rows {
      assert t.rows[id] + given == given;
    } else {
      assert t.rows - {} == t.rows;
    }
  }

  /** The columns left out are at their defaults in the row that is there, if one is. */
  predicate DefaultsAlready(t: Table, id: string, given: map<string, Cell>) {
    id in t.rows ==> forall c <- t.cols :: c !in given ==> c in t.rows[id] && t.rows[id][c] == t.cols[c].dflt
  }

  /** The row an updating form leaves: the columns given, and the others as they were, or the
      defaults when there was no row. */
  function Merged(t: Table, id: string, given: map<string, Cell>): Row {
    if id in t.rows then t.rows[id] + given else Fill(t.cols, given, false)
  }

  /** A row that breaks no constraint and is in no other row's way. */
  predicate Storable(t: Table, id: string, row: Row)
    requires WellShaped(t.cols, t.rows) && row.Keys == t.cols.Keys
  {
    NotNullHolds(t.cols, row) && Blockers(t.cols, t.rows, id, row) <= {id}
  }

  /** What a caller sees of an effect: the rows it leaves, or that it was refused. */
  function Seen(e: Effect): Option<Rows> {
    match e case Done(rows, _) => Some(rows) case Refused(_) => None
  }

  /** When REPLACE leaves what MERGE does: nothing but the id is in the way of the row of either, and
      the columns left out are at their defaults; or both refuse. */
  predicate ReplaceIsMerge(t: Table, verb: Verb, id: string, given: map<string, Cell>)
    requires WellShaped(t.cols, t.rows) && Merged(t, id, given).Keys == t.cols.Keys
  {
    var filled, merged := Fill(t.cols, given, verb == InsertOrReplace), Merged(t, id, given);
    || (Storable(t, id, filled) && Storable(t, id, merged) && DefaultsAlready(t, id, given))
    || (!NotNullHolds(t.cols, filled) && !Storable(t, id, merged))
  }

  /** When it leaves what ON CONFLICT and Oracle's retry do, which first propose to insert: the row
      proposed must take no null either, and both refuse as soon as REPLACE does. */
  predicate ReplaceIsConflict(t: Table, verb: Verb, id: string, given: map<string, Cell>)
    requires WellShaped(t.cols, t.rows) && Merged(t, id, given).Keys == t.cols.Keys
  {
    var filled, merged := Fill(t.cols, given, verb == InsertOrReplace), Merged(t, id, given);
    || (NotNullHolds(t.cols, Fill(t.cols, given, false)) && Storable(t, id, filled) && Storable(t, id, merged)
        && DefaultsAlready(t, id, given))
    || !NotNullHolds(t.cols, filled)
  }

  /** REPLACE, in either spelling, resets the columns an object leaves out, and the updating forms
      keep them: exactly when each of those leaves the same rows, or refuses as REPLACE does. */
  lemma ReplaceAgreesWithUpdate(t: Table, verb: Verb, id: string, given: map<string, Cell>)
    requires WellShaped(t.cols, t.rows) && given.Keys <= t.cols.Keys && verb != InsertInto
    ensures Merged(t, id, given).Keys == t.cols.Keys
    ensures Seen(InsertEffect(t, verb, id, given)) == Seen(MergeEffect(t, id, given)) <==>
            ReplaceIsMerge(t, verb, id, given)
    ensures Seen(InsertEffect(t, verb, id, given)) == Seen(ConflictEffect(t, id, given)) <==>
            ReplaceIsConflict(t, verb, id, given)
    ensures Seen(InsertEffect(t, verb, id, given)) == RetryEffect(t, id, given) <==>
            ReplaceIsConflict(t, verb, id, given)
  {
    var filled, merged := Fill(t.cols, given, verb == InsertOrReplace), Merged(t, id, given);
    SameFill(t, verb == InsertOrReplace, id, given);
    MergedEffect(t, id, given);
    ReplacedEffect(t, verb, id, given);
    ConflictByMerge(t, id, given);
    RetryByConflict(t, id, given);
    FilledTakesNoNull(t.cols, given);
    BlockersHave(t, id, filled);
    hide Blockers, NotNullHolds, Fill, DefaultsAlready, InsertEffect, MergeEffect, ConflictEffect, RetryEffect, Merged,
         WellShaped;
    SameStored(t.rows, Blockers(t.cols, t.rows, id, filled), id, filled, merged);
  }

  /** ON CONFLICT is MERGE on a row that could have been inserted but for the rows there. */
  lemma ConflictByMerge(t: Table, id: string, given: map<string, Cell>)
    requires WellShaped(t.cols, t.rows) && given.Keys <= t.cols.Keys
    ensures ConflictEffect(t, id, given) ==
            if NotNullHolds(t.cols, Fill(t.cols, given, false)) then MergeEffect(t, id, given) else Refused(false)
  {
    hide Blockers, NotNullHolds, Fill;
  }

  /** Oracle's retry is ON CONFLICT, but for a new row that another row blocks: that is reported
      stored, and is not. */
  lemma RetryByConflict(t: Table, id: string, given: map<string, Cell>)
    requires WellShaped(t.cols, t.rows) && given.Keys <= t.cols.Keys
    ensures var filled := Fill(t.cols, given, false);
            RetryEffect(t, id, given) ==
              if id !in t.rows && NotNullHolds(t.cols, filled) && !Storable(t, id, filled) then Some(t.rows)
              else Seen(ConflictEffect(t, id, given))
  {
    BlockersHave(t, id, Fill(t.cols, given, false));
    hide Blockers, NotNullHolds, Fill;
  }

  /** A null turned into a default only makes a row better. */
  lemma FilledTakesNoNull(cols: map<string, ColDef>, given: map<string, Cell>)
    ensures NotNullHolds(cols, Fill(cols, given, false)) ==> Fill(cols, given, true) == Fill(cols, given, false)
  {
  }

  /** What the three updating forms leave when the row can be stored, and exactly when they part. MERGE
      does without the row that ON CONFLICT proposes to insert; Oracle's retry takes a new row that
      another blocks for stored. */
  lemma UpdatingFormsAgree(t: Table, id: string, given: map<string, Cell>)
    requires WellShaped(t.cols, t.rows) && given.Keys <= t.cols.Keys
    ensures Merged(t, id, given).Keys == t.cols.Keys
    ensures var filled, merged := Fill(t.cols, given, false), Merged(t, id, given);
            && (Storable(t, id, merged) && NotNullHolds(t.cols, filled) ==>
                  && Seen(ConflictEffect(t, id, given)) == Some(t.rows[id := merged])
                  && Seen(MergeEffect(t, id, given)) == Some(t.rows[id := merged])
                  && RetryEffect(t, id, given) == Some(t.rows[id := merged]))
            && (Seen(ConflictEffect(t, id, given)) == Seen(MergeEffect(t, id, given)) <==>
                  NotNullHolds(t.cols, filled) || !Storable(t, id, merged))
            && (RetryEffect(t, id, given) == Seen(ConflictEffect(t, id, given)) <==>
                  id in t.rows || !NotNullHolds(t.cols, filled) || Storable(t, id, filled))
  {
    MergedEffect(t, id, given);
    ConflictByMerge(t, id, given);
    RetryByConflict(t, id, given);
    hide Blockers, NotNullHolds, Fill, MergeEffect, ConflictEffect, RetryEffect;
  }

  lemma BlockersHave(t: Table, id: string, row: Row)
    requires WellShaped(t.cols, t.rows) && row.Keys == t.cols.Keys
    ensures id in Blockers(t.cols, t.rows, id, row) <==> id in t.rows
    ensures Blockers(t.cols, t.rows, id, row) <= {id} <==>
            Blockers(t.cols, t.rows, id, row) == if id in t.rows then {id} else {}
  {
    hide Clash;
  }

  lemma MergedEffect(t: Table, id: string, given: map<string, Cell>)
    requires WellShaped(t.cols, t.rows) && given.Keys <= t.cols.Keys
    ensures var merged := Merged(t, id, given);
            && merged.Keys == t.cols.Keys
            && MergeEffect(t, id, given) ==
                 if !NotNullHolds(t.cols, merged) then Refused(false)
                 else if Storable(t, id, merged) then Done(t.rows[id := merged], 1)
                 else Refused(true)
  {
    BlockersHave(t, id, Merged(t, id, given));
    hide Blockers, NotNullHolds, Fill;
  }

  lemma ReplacedEffect(t: Table, verb: Verb, id: string, given: map<string, Cell>)
    requires WellShaped(t.cols, t.rows) && given.Keys <= t.cols.Keys && verb != InsertInto
    ensures var filled := Fill(t.cols, given, verb == InsertOrReplace);
            InsertEffect(t, verb, id, given) ==
              if !NotNullHolds(t.cols, filled) then Refused(false)
              else Done((t.rows - Blockers(t.cols, t.rows, id, filled))[id := filled], 1)
    ensures var filled := Fill(t.cols, given, verb == InsertOrReplace);
            Blockers(t.cols, t.rows, id, filled) <= t.rows.Keys
              && (id in t.rows ==> id in Blockers(t.cols, t.rows, id, filled))
  {
    hide Clash, NotNullHolds, Fill;
  }

  /** Where the merged row takes no null, REPLACE fills in the same row exactly when the columns
      left out are at their defaults. */
  lemma SameFill(t: Table, orReplace: bool, id: string, given: map<string, Cell>)
    requires WellShaped(t.cols, t.rows) && given.Keys <= t.cols.Keys
    ensures Merged(t, id, given).Keys == t.cols.Keys
    ensures NotNullHolds(t.cols, Merged(t, id, given)) ==>
              (Fill(t.cols, given, orReplace) == Merged(t, id, given) <==> DefaultsAlready(t, id, given))
  {
    var filled, merged := Fill(t.cols, given, orReplace), Merged(t, id, given);
    if NotNullHolds(t.cols, merged) {
      if DefaultsAlready(t, id, given) {
        forall c | c in t.cols ensures filled[c] == merged[c] {
        }
      }
      if filled == merged && id in t.rows {
        forall c | c in t.cols && c !in given ensures t.rows[id][c] == t.cols[c].dflt {
          assert filled[c] == merged[c];
        }
      }
    }
  }

  lemma SameStored(rows: Rows, gone: set<string>, id: string, a: Row, b: Row)
    requires gone <= rows.Keys && (id in rows ==> id in gone)
    ensures (rows - gone)[id := a] == rows[id := b] <==> a == b && gone <= {id}
  {
    if gone <= {id} && a == b {
      assert (rows - gone)[id := a] == rows[id := a];
    }
    if (rows - gone)[id := a] == rows[id := b] {
      assert (rows - gone)[id := a][id] == rows[id := b][id];
      forall k | k in gone ensures k == id {
        assert k in rows[id := b];
      }
    }
  }

  /** When some other row holds a unique value of the new one, the forms part: REPLACE removes that
      row, ON CONFLICT and MERGE refuse, and Oracle's retry refuses if the id is there but reports
      success, having stored nothing, if it is not. */
  lemma OtherConflict(t: Table, id: string, given: map<string, Cell>)
    requires WellShaped(t.cols, t.rows) && given.Keys == t.cols.Keys && NotNullHolds(t.cols, given)
    requires !(Blockers(t.cols, t.rows, id, given) <= {id})
    ensures var e := InsertEffect(t, ReplaceInto, id, given);
            e.Done? && e.rows.Keys == t.rows.Keys - Blockers(t.cols, t.rows, id, given) + {id}
    ensures ConflictEffect(t, id, given) == Refused(true) && MergeEffect(t, id, given) == Refused(true)
    ensures RetryEffect(t, id, given) == if id in t.rows then None else Some(t.rows)
  {
    CompleteFill(t.cols, given, false);
    OtherRefusals(t, id, given);
    hide Blockers, NotNullHolds, Fill, WellShaped, InsertRow, UpdateRow;
  }

  lemma OtherRefusals(t: Table, id: string, given: map<string, Cell>)
    requires WellShaped(t.cols, t.rows) && given.Keys == t.cols.Keys && NotNullHolds(t.cols, given)
    requires !(Blockers(t.cols, t.rows, id, given) <= {id})
    ensures InsertRow(t.cols, t.rows, id, given) == Refused(true)
    ensures UpdateRow(t.cols, t.rows, id, given) == if id in t.rows then Refused(true) else Done(t.rows, 0)
  {
    CompleteFill(t.cols, given, false);
    hide Blockers, NotNullHolds, Fill, WellShaped;
    if id in t.rows { assert t.rows[id] + given == given; }
  }

  // ---------------------------------------------------------------- ON CONFLICT as a statement

  lemma ConflictSets(names: seq<string>, stored: map<string, Value>, cells: seq<Cell>, id: string)
    requires Lists(names, stored) && FoldsApart(stored.Keys) && BoundTo(names, stored, cells)
    ensures SetBy(Sets(Bares(names), 2), [Text(id)] + cells, map[]) == Some(CellMap(stored))
  {
    hide FoldsApart, Lists, CellMap, BoundTo;
    var sets, args := Sets(Bares(names), 2), [Text(id)] + cells;
    BoundLength(names, stored, cells);
    assert Targets(sets) == Folds(names);
    FoldedDistinct(names, stored);
    forall i | 0 <= i < |names| ensures Eval(Right(sets)[i], args, map[]) == Some(cells[i]) {
      assert args[i + 1] == cells[i];
    }
    AssignDistinct(Targets(sets), Right(sets), args, map[], cells);
    AssignedIsCellMap(names, stored, cells, Assign(Targets(sets), Right(sets), args, map[]).value);
  }

  lemma BoundLength(names: seq<string>, stored: map<string, Value>, cells: seq<Cell>)
    requires BoundTo(names, stored, cells)
    ensures |cells| == |names|
  {
  }

  lemma FoldedDistinct(names: seq<string>, stored: map<string, Value>)
    requires Lists(names, stored) && FoldsApart(stored.Keys)
    ensures Distinct(Folds(names))
  {
    FoldsDistinct(names);
  }

  ghost function ConflictOutcome(tables: Tables, driver: Driver, table: string, id: string, stored: map<string, Value>)
    : (Tables, Option<nat>)
    requires AllHealthy(tables) && table in tables
  {
    if !Bindable(stored) || stored == map[] then (tables, None)
    else
      var t := tables[table];
      match ConflictEffect(t, id, KeptCells(t.cols, driver, stored))
      case Refused(_) => (tables, None)
      case Done(rows, n) => (tables[table := t.(rows := rows)], Some(n))
  }

  lemma ExecuteConflict(t: Table, driver: Driver, table: string, cols: seq<Item>, vals: seq<Item>, sets: seq<Item>,
                        args: seq<Cell>, id: string, given: map<string, Cell>)
    requires Healthy(t.cols, t.rows) && GivenBy(cols, vals, args, map[]) == Some((id, given)) && sets != []
    requires SetBy(sets, args, map[]) == Some(given)
    ensures WellShaped(t.cols, t.rows)
    ensures Execute(t, driver, Insert(table, InsertInto, cols, vals, sets), args) ==
            ConflictEffect(t, id, Kept(t.cols, driver, given))
  {
    HealthyIsShaped(t.cols, t.rows);
    hide Healthy, ReplaceRow, InsertRow, UpdateRow, GivenBy, SetBy, UpsertRow, Kept;
  }

  lemma ConflictRuns(tables: Tables, driver: Driver, table: string, id: string, names: seq<string>, values: seq<Value>,
                     stored: map<string, Value>)
    requires AllHealthy(tables) && table in tables && Carries(names, values, stored) && names != []
    ensures RunStatement(tables, driver, Insert(table, InsertInto, Columns(Bares(["id"] + names)),
                                                Params(1, |names| + 1), Sets(Bares(names), 2)),
                         [Str(id)] + values)
            == ConflictOutcome(tables, driver, table, id, stored)
  {
    hide GivenBy, SetBy, CellMap, Bindable, Execute, Healthy, UpsertRow, Lists, FoldsApart, IsIdent, IsId, Kept;
    CarriedSome(names, values, stored);
    InsertCells(names, values, stored, id);
    BoundWithId(id, values);
    BindAllOf(values, names, stored);
    if Bindable(stored) {
      var cells := BindAll(values).value;
      ConflictSets(names, stored, cells, id);
      ExecuteConflict(tables[table], driver, table, Columns(Bares(["id"] + names)), Params(1, |names| + 1),
                      Sets(Bares(names), 2),
                      [Text(id)] + cells, id, CellMap(stored));
    }
  }

  lemma CarriedSome(names: seq<string>, values: seq<Value>, stored: map<string, Value>)
    requires Spells(names, values, stored)
    ensures names == [] <==> stored == map[]
  {
    if names != [] { assert names[0] in stored; }
    if stored != map[] {
      var n :| n in stored;
      assert n in (set k | k in names);
    }
  }

  lemma NoConflictOutcome(tables: Tables, driver: Driver, table: string, id: string, stored: map<string, Value>)
    requires AllHealthy(tables) && table in tables && stored == map[]
    ensures ConflictOutcome(tables, driver, table, id, stored) == (tables, None)
  {
  }

  lemma ConflictTextRuns(tables: Tables, driver: Driver, table: string, id: string,
                         names: seq<string>, values: seq<Value>, stored: map<string, Value>)
    requires AllHealthy(tables) && IsIdent(table) && Lower(table) in tables && Carries(names, values, stored)
    ensures RunText(tables, driver, ConflictText(table, ["id"] + names, Placeholders(DOLLAR, 1, |names| + 1),
                                                 SetClauses(Bares(names), DOLLAR, 2)),
                    [Str(id)] + values)
            == ConflictOutcome(tables, driver, Lower(table), id, stored)
  {
    hide Parse, InsertText, ConflictText, Healthy, Spells, Execute, CellMap, Bindable, UpsertRow, IsIdent, RunStatement,
         ConflictOutcome, Lower, FoldsApart, Placeholders, SetClauses;
    CarriedNames(names, values, stored);
    CarriedSome(names, values, stored);
    GoodBare(table);
    GoodBares(names);
    ConflictParses(Bare(table), names);
    if names == [] {
      NoConflictOutcome(tables, driver, Lower(table), id, stored);
      ConflictIsNoCreate(table, names);
    } else {
      ConflictRuns(tables, driver, Lower(table), id, names, values, stored);
    }
  }

  lemma NotCreate(ts: seq<Token>)
    requires ts != [] && ts[0] != Word("CREATE")
    ensures ReadCreate(ts) == None
  {
    assert Words(CREATE_WORDS)[0] == Word("CREATE");
  }

  lemma ConflictIsNoCreate(table: string, names: seq<string>)
    requires IsIdent(table) && names == []
    ensures ReadCreate(Lex(ConflictText(table, ["id"] + names, Placeholders(DOLLAR, 1, 1),
                                        SetClauses(Bares(names), DOLLAR, 2)))) == None
  {
    hide Closed, Lexes, ReadsItems, InsertBodyTokens, Lex;
    GoodBare(table);
    GoodBares(names);
    assert ["id"] + names == ["id"];
    var all := Bares(["id"] + names);
    var tc := ColumnListReads(all, 1);
    var tv := PlaceholderListReads(DOLLAR, 1, |all|);
    EmptyCloses();
    ClosedLexesToo("", []);
    assert Join(SetClauses(Bares(names), DOLLAR, 2), ", ") == "";
    ConflictLexes(Bare(table), Join(NameTexts(all), ", "), tc, Join(Placeholders(DOLLAR, 1, |all|), ", "), tv, "", []);
    var ts := Words(VerbWords(InsertInto)) + (InsertBodyTokens(Bare(table), tc, tv) + (ON_CONFLICT + []));
    assert ts[0] == Words(VerbWords(InsertInto))[0];
    NotCreate(ts);
  }

  // ---------------------------------------------------------------- MERGE as a statement

  /** The source row of a MERGE. */
  lemma SourceRow(id: string, names: seq<string>, cells: seq<Cell>)
    requires |cells| == |names| && Distinct(["id"] + Folds(names))
    ensures var its := SourceItems(["id"] + names); var all := ["id"] + Folds(names); var args := [Text(id)] + cells;
            && AllAliased(its) && Aliases(its) == all
            && var src := Assign(all, Left(its), args, map[]); src.Some? && MapsTo(src.value, all, args)
  {
    LowerId();
    var its, all, args := SourceItems(["id"] + names), ["id"] + Folds(names), [Text(id)] + cells;
    assert Aliases(its) == all;
    forall i | 0 <= i < |args| ensures Eval(Left(its)[i], args, map[]) == Some(args[i]) {
    }
    AssignDistinct(all, Left(its), args, map[], args);
  }

  lemma MembersEval(all: seq<string>, src: map<string, Cell>, args: seq<Cell>, vals: seq<Cell>)
    requires |vals| == |all| && forall i :: 0 <= i < |all| ==> Lower(all[i]) in src && src[Lower(all[i])] == vals[i]
    ensures forall i :: 0 <= i < |all| ==> Eval(MemberOf(all[i]), args, src) == Some(vals[i])
  {
  }

  lemma MergeTargets(names: seq<string>)
    ensures AllColumns(Columns(Brackets(["id"] + names))) && AllPlain(Members(["id"] + names))
    ensures Targets(Columns(Brackets(["id"] + names))) == ["id"] + Folds(names)
  {
    LowerId();
  }

  lemma MergeAssigns(id: string, names: seq<string>, cells: seq<Cell>, src: map<string, Cell>, args: seq<Cell>)
    requires Distinct(["id"] + Folds(names)) && |cells| == |names|
    requires MapsTo(src, ["id"] + Folds(names), [Text(id)] + cells)
    ensures var all := ["id"] + Folds(names); var m := Assign(all, Left(Members(["id"] + names)), args, src);
            m.Some? && MapsTo(m.value, all, [Text(id)] + cells)
  {
    hide Assign, Distinct;
    var all, cs := ["id"] + Folds(names), ["id"] + names;
    LowerId();
    assert forall i :: 0 <= i < |cs| ==> Lower(cs[i]) == all[i];
    hide Lower;
    MembersEval(cs, src, args, [Text(id)] + cells);
    AssignDistinct(all, Left(Members(cs)), args, src, [Text(id)] + cells);
  }

  /** What the branches of the MERGE give: each column the source column of its name. */
  lemma MergeGives(id: string, names: seq<string>, stored: map<string, Value>, cells: seq<Cell>,
                   src: map<string, Cell>, args: seq<Cell>)
    requires Lists(names, stored) && FoldsApart(stored.Keys) && BoundTo(names, stored, cells)
             && forall n <- stored :: !IsId(n)
    requires MapsTo(src, ["id"] + Folds(names), [Text(id)] + cells)
    ensures GivenBy(Columns(Brackets(["id"] + names)), Members(["id"] + names), args, src) ==
            Some((id, CellMap(stored)))
    ensures SetBy(MergeSetItems(names), args, src) == Some(CellMap(stored))
    ensures "id" in src && src["id"] == Text(id)
  {
    hide Bind, Assign, MapsTo, Lists, FoldsApart, BoundTo, CellMap, Distinct, SetBy, IsId;
    BoundLength(names, stored, cells);
    ListedDistinct(names, stored);
    MergeTargets(names);
    MergeAssigns(id, names, cells, src, args);
    var m := Assign(["id"] + Folds(names), Left(Members(["id"] + names)), args, src).value;
    WithoutId(m, Text(id), Folds(names), cells);
    AssignedIsCellMap(names, stored, cells, m - {"id"});
    WithoutId(src, Text(id), Folds(names), cells);
    MergeSetsGive(names, stored, cells, src, args);
  }

  lemma MergeSetsGive(names: seq<string>, stored: map<string, Value>, cells: seq<Cell>, src: map<string, Cell>,
                      args: seq<Cell>)
    requires Lists(names, stored) && FoldsApart(stored.Keys) && BoundTo(names, stored, cells)
    requires MapsTo(src - {"id"}, Folds(names), cells)
    ensures SetBy(MergeSetItems(names), args, src) == Some(CellMap(stored))
  {
    hide Bind;
    var sets := MergeSetItems(names);
    FoldsDistinct(names);
    assert Targets(sets) == Folds(names);
    forall i | 0 <= i < |names| ensures Folds(names)[i] in src && src[Folds(names)[i]] == cells[i] {
      assert Folds(names)[i] in Folds(names);
      assert Folds(names)[i] in src - {"id"};
    }
    MembersEval(names, src, args, cells);
    AssignDistinct(Targets(sets), Right(sets), args, src, cells);
    AssignedIsCellMap(names, stored, cells, Assign(Targets(sets), Right(sets), args, src).value);
  }

  ghost function MergeOutcome(tables: Tables, driver: Driver, table: string, id: string, stored: map<string, Value>)
    : (Tables, Option<nat>)
    requires AllHealthy(tables) && table in tables
  {
    if !Bindable(stored) || stored == map[] then (tables, None)
    else
      var t := tables[table];
      match MergeEffect(t, id, KeptCells(t.cols, driver, stored))
      case Refused(_) => (tables, None)
      case Done(rows, n) => (tables[table := t.(rows := rows)], Some(n))
  }

  lemma MergeRowIs(t: Table, driver: Driver, source: seq<Item>, sets: seq<Item>, cols: seq<Item>, vals: seq<Item>,
                   args: seq<Cell>, src: map<string, Cell>, id: string, given: map<string, Cell>)
    requires WellShaped(t.cols, t.rows)
    requires AllAliased(source) && Distinct(Aliases(source))
             && Assign(Aliases(source), Left(source), args, map[]) == Some(src)
    requires GivenBy(cols, vals, args, src) == Some((id, given)) && SetBy(sets, args, src) == Some(given)
    requires "id" in src && src["id"] == Text(id)
    ensures MergeRow(t, driver, source, MATCH_ITEM, sets, cols, vals, args) ==
            MergeEffect(t, id, Kept(t.cols, driver, given))
  {
    hide Assign, GivenBy, SetBy, UpdateRow, InsertRow, Kept;
  }

  function MergeStatement(table: string, names: seq<string>): Statement {
    Merge(table, SourceItems(["id"] + names), MATCH_ITEM, MergeSetItems(names), Columns(Brackets(["id"] + names)),
          Members(["id"] + names))
  }

  lemma MergeRuns(tables: Tables, driver: Driver, table: string, id: string, names: seq<string>, values: seq<Value>,
                  stored: map<string, Value>)
    requires AllHealthy(tables) && table in tables && Carries(names, values, stored) && names != []
    ensures RunStatement(tables, driver, MergeStatement(table, names), [Str(id)] + values) ==
            MergeOutcome(tables, driver, table, id, stored)
  {
    CarriedSome(names, values, stored);
    BoundWithId(id, values);
    BindAllOf(values, names, stored);
    hide Bindable, CellMap, MergeEffect, MergeRow, GivenBy, SetBy, Healthy, Kept;
    if Bindable(stored) {
      ExecuteMerge(tables[table], driver, table, id, names, stored, BindAll(values).value);
    }
  }

  lemma ExecuteMerge(t: Table, driver: Driver, table: string, id: string, names: seq<string>,
                     stored: map<string, Value>, cells: seq<Cell>)
    requires Healthy(t.cols, t.rows) && Lists(names, stored) && FoldsApart(stored.Keys) && BoundTo(names, stored, cells)
    requires forall n <- stored :: !IsId(n)
    ensures WellShaped(t.cols, t.rows)
    ensures Execute(t, driver, MergeStatement(table, names), [Text(id)] + cells) ==
            MergeEffect(t, id, KeptCells(t.cols, driver, stored))
  {
    hide Healthy, MergeRow, MergeEffect, GivenBy, SetBy, CellMap, Kept, Assign, MapsTo, Lists, FoldsApart, BoundTo,
         Distinct, IsId;
    HealthyIsShaped(t.cols, t.rows);
    ListedDistinct(names, stored);
    BoundLength(names, stored, cells);
    SourceRow(id, names, cells);
    var args := [Text(id)] + cells;
    var src := Assign(["id"] + Folds(names), Left(SourceItems(["id"] + names)), args, map[]).value;
    MergeGives(id, names, stored, cells, src, args);
    MergeRowIs(t, driver, SourceItems(["id"] + names), MergeSetItems(names), Columns(Brackets(["id"] + names)),
               Members(["id"] + names),
               args, src, id, CellMap(stored));
  }

  /** The MERGE as Insert prints it. */
  function MergeQuery(table: string, names: seq<string>): string {
    MergeText(table, SourceText(names), Join(MergeSets(names), ", "), Join(NameTexts(Brackets(["id"] + names)), ", "),
              Join(MemberTexts(["id"] + names), ", "))
  }

  lemma MergeIsNoCreate(table: string)
    requires IsWord(table)
    ensures ReadCreate(Lex(MergeQuery(table, []))) == None
  {
    hide Closed, Lexes, ReadsItems, MergeText, MatchTokens, SourceText, Lex, IsWord, NameTokens;
    var all: seq<string> := ["id"] + [];
    AllIdWords([]);
    var ts := SourceReads([]);
    var tc := ColumnListReads(Brackets(all), 2);
    var tv := MemberListReads(all, 2);
    EmptyCloses();
    ClosedLexesToo("", []);
    assert Join(MergeSets([]), ", ") == "";
    MergeLexes(table, SourceText([]), ts, "", [], Join(NameTexts(Brackets(all)), ", "), tc,
               Join(MemberTexts(all), ", "), tv);
    assert MergeTokens(table, ts, MatchTokens(), [], tc, tv)[0] == Word("MERGE");
    NotCreate(MergeTokens(table, ts, MatchTokens(), [], tc, tv));
  }

  lemma MergeTextRuns(tables: Tables, driver: Driver, table: string, id: string,
                      names: seq<string>, values: seq<Value>, stored: map<string, Value>)
    requires AllHealthy(tables) && IsIdent(table) && Lower(table) in tables && Carries(names, values, stored)
    ensures RunText(tables, driver, MergeQuery(table, names), [Str(id)] + values) ==
            MergeOutcome(tables, driver, Lower(table), id, stored)
  {
    hide Parse, MergeText, Healthy, Spells, Execute, CellMap, Bindable, MergeEffect, SourceText, MergeStatement;
    CarriedNames(names, values, stored);
    CarriedSome(names, values, stored);
    MergeParses(table, names);
    if names == [] {
      MergeIsNoCreate(table);
    } else {
      MergeRuns(tables, driver, Lower(table), id, names, values, stored);
      StatementIs(Lower(table), names);
    }
  }

  lemma StatementIs(table: string, names: seq<string>)
    ensures MergeStatement(table, names) ==
            Merge(table, SourceItems(["id"] + names), MATCH_ITEM, MergeSetItems(names),
                  Columns(Brackets(["id"] + names)), Members(["id"] + names))
  {
  }
}
