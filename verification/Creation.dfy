/** CREATE TABLE for a schema table: which ones the database accepts, and the table they make. */
module Creation {
  import opened Outcomes
  import opened Text
  import opened Values
  import opened Sql
  import opened Statements
  import opened Engine
  import opened Ddl
  import opened Databases
  import opened Common
  import opened Scanner
  import opened Effects

  /** Every field but the one called id, which has its own clause. */
  function NotId(order: seq<string>): seq<string> {
    if order == [] then []
    else
      var k := |order| - 1;
      if order[k] == "id" then NotId(order[..k]) else NotId(order[..k]) + [order[k]]
  }

  lemma NotIdStep(order: seq<string>, k: nat)
    requires k < |order|
    ensures NotId(order[..k + 1]) == if order[k] == "id" then NotId(order[..k]) else NotId(order[..k]) + [order[k]]
  {
    assert order[..k + 1][..k] == order[..k];
  }

  lemma {:induction false} NotIdMembers(order: seq<string>)
    ensures forall n :: n in NotId(order) <==> n in order && n != "id"
    ensures Distinct(order) ==> Distinct(NotId(order))
  {
    if order != [] {
      var k := |order| - 1;
      NotIdMembers(order[..k]);
      assert order == order[..k] + [order[k]];
      if Distinct(order) {
        assert forall i :: 0 <= i < k ==> order[..k][i] == order[i] && order[i] != order[k];
        assert order[k] !in NotId(order[..k]);
      }
    }
  }

  predicate Declared(info: TableInfo, names: seq<string>) {
    forall i :: 0 <= i < |names| ==> names[i] in info.fields
  }

  function FieldsAt(info: TableInfo, names: seq<string>): (fs: seq<ColumnData>)
    requires Declared(info, names)
    ensures |fs| == |names| && forall i :: 0 <= i < |fs| ==> fs[i] == info.fields[names[i]]
  {
    seq(|names|, i requires 0 <= i < |names| => info.fields[names[i]])
  }

  /** Names and types that can be printed into a statement. */
  ghost predicate PlainTable(info: TableInfo) {
    IsIdent(info.name) && forall n <- info.fields :: info.fields[n].name == n && PlainField(info.fields[n])
  }

  /** No column but id is auto-incremented. */
  ghost predicate NoSerial(info: TableInfo) {
    forall n <- info.fields :: n != "id" ==> !info.fields[n].autoIncrement
  }

  /** id is the only primary key, the names stay different when case is ignored, and no name or
      type is a keyword. */
  ghost predicate Declarable(info: TableInfo) {
    && FoldsApart(info.fields.Keys + {"id"})
    && (forall n <- info.fields :: n != "id" ==> !info.fields[n].primaryKey)
    && NoKeywords(info)
  }

  ghost predicate NoKeywords(info: TableInfo) {
    forall n <- info.fields :: n != "id" ==> !Keyword(n) && !Keyword(info.fields[n].dataType)
  }

  /** The database takes the statement: AUTOINCREMENT never reads, some names are taken, and
      the rest is only looked at when the table is not there yet. */
  ghost predicate Accepted(info: TableInfo, present: bool) {
    NoSerial(info) && !TakenName(info.name) && (present || Declarable(info))
  }

  /** The names listed are the columns other than id. */
  ghost predicate ListsColumns(info: TableInfo, names: seq<string>) {
    Distinct(names) && Declared(info, names) && (set n | n in names) == info.fields.Keys - {"id"}
  }

  lemma Listed(info: TableInfo, names: seq<string>, n: string) returns (i: nat)
    requires ListsColumns(info, names) && n in info.fields && n != "id"
    ensures i < |names| && names[i] == n
  {
    assert n in info.fields.Keys - {"id"};
    assert n in (set k | k in names);
    i :| 0 <= i < |names| && names[i] == n;
  }

  lemma OnlyListed(info: TableInfo, names: seq<string>, n: string)
    requires ListsColumns(info, names) && n in names
    ensures n in info.fields && n != "id"
  {
    assert n in (set k | k in names);
    assert n in info.fields.Keys - {"id"};
  }

  lemma RangeListsColumns(info: TableInfo, order: seq<string>)
    requires RangeOrder(order, info.fields.Keys)
    ensures ListsColumns(info, NotId(order))
  {
    NotIdMembers(order);
    assert forall n :: n in order <==> n in (set k | k in order);
    assert (set n | n in NotId(order)) == info.fields.Keys - {"id"};
    forall i | 0 <= i < |NotId(order)| ensures NotId(order)[i] in info.fields {
      assert NotId(order)[i] in (set n | n in NotId(order));
    }
  }

  lemma SerialSeen(info: TableInfo, names: seq<string>)
    requires ListsColumns(info, names)
    ensures NoAutoIncrement(FieldsAt(info, names)) <==> NoSerial(info)
  {
    var fs := FieldsAt(info, names);
    if NoAutoIncrement(fs) {
      forall n | n in info.fields && n != "id" ensures !info.fields[n].autoIncrement {
        var i := Listed(info, names, n);
        assert !fs[i].autoIncrement;
      }
    } else {
      var i :| 0 <= i < |fs| && fs[i].autoIncrement;
      OnlyListed(info, names, names[i]);
    }
  }

  lemma KeysSeen(info: TableInfo, names: seq<string>)
    requires ListsColumns(info, names)
    ensures (forall i :: 0 <= i < |names| ==> !info.fields[names[i]].primaryKey) <==>
            (forall n <- info.fields :: n != "id" ==> !info.fields[n].primaryKey)
  {
    forall n | n in info.fields && n != "id" ensures n in names {
      var i := Listed(info, names, n);
    }
    forall i | 0 <= i < |names| ensures names[i] in info.fields && names[i] != "id" {
      OnlyListed(info, names, names[i]);
    }
  }

  lemma WithIdLists(info: TableInfo, names: seq<string>)
    requires ListsColumns(info, names)
    ensures var all := ["id"] + names; (set n | n in all) == info.fields.Keys + {"id"} && Distinct(all)
  {
    var all := ["id"] + names;
    if "id" in names { OnlyListed(info, names, "id"); }
    WithIdDistinct(names);
    forall n ensures n in all <==> n in info.fields.Keys + {"id"} {
      if n in names { OnlyListed(info, names, n); }
      if n in info.fields && n != "id" { var i := Listed(info, names, n); assert all[i + 1] == n; }
    }
  }

  lemma FoldsSeen(info: TableInfo, names: seq<string>)
    requires ListsColumns(info, names)
    ensures Distinct(["id"] + Folds(names)) <==> FoldsApart(info.fields.Keys + {"id"})
  {
    hide Lower, Distinct, ListsColumns, FoldsApart;
    WithIdLists(info, names);
    FoldsWithId(names);
    DistinctFolds(["id"] + names);
  }

  lemma FoldsWithId(names: seq<string>)
    ensures Folds(["id"] + names) == ["id"] + Folds(names)
  {
    LowerId();
    hide Lower;
  }

  /** Distinct names fold to distinct names exactly when they fold apart. */
  lemma DistinctFolds(all: seq<string>)
    requires Distinct(all)
    ensures Distinct(Folds(all)) <==> FoldsApart(set n | n in all)
  {
    hide Lower;
    if FoldsApart(set n | n in all) {
      FoldsDistinct(all);
    }
    if Distinct(Folds(all)) {
      forall a, b | a in all && b in all && Lower(a) == Lower(b) ensures a == b {
        var i :| 0 <= i < |all| && all[i] == a;
        var j :| 0 <= j < |all| && all[j] == b;
        assert Folds(all)[i] == Folds(all)[j];
      }
    }
  }

  lemma SpecConstraints(f: ColumnData)
    ensures PrimaryKeyC in Constraints(f) <==> f.primaryKey
    ensures NotNullC in Constraints(f) <==> !f.nullable
    ensures UniqueC in Constraints(f) <==> f.unique
    ensures LiteralOf(Constraints(f)) == f.dflt
  {
    hide LiteralOf;
    FirstLiteral(f);
  }

  lemma FirstLiteral(f: ColumnData)
    ensures LiteralOf(Constraints(f)) == f.dflt
  {
    var cs := Constraints(f);
    var more := (if f.dflt.Some? then [DefaultC(f.dflt.value)] else []) + (if f.unique then [UniqueC] else [])
                + (if f.primaryKey then [PrimaryKeyC] else []);
    assert cs == [if f.nullable then NullC else NotNullC] + more;
    assert cs[1..] == more;
    if f.dflt.Some? {
      assert more[0] == DefaultC(f.dflt.value);
    } else {
      NoLiteral(more);
    }
  }

  lemma {:induction false} NoLiteral(cs: seq<Constraint>)
    requires forall c <- cs :: !c.DefaultC?
    ensures LiteralOf(cs) == None
  {
    if cs != [] {
      NoLiteral(cs[1..]);
    }
  }

  lemma FoldedSpecs(info: TableInfo, names: seq<string>)
    requires PlainTable(info) && ListsColumns(info, names)
    ensures var specs := Specs(FieldsAt(info, names));
            && Folded(specs) == Folds(names) && Folded([ID_COLUMN] + specs) == ["id"] + Folds(names)
               && ([ID_COLUMN] + specs)[1..] == specs
  {
    LowerId();
    hide Constraints, PlainField, IsIdent, Distinct, Lower;
    var fs := FieldsAt(info, names);
    forall i | 0 <= i < |names| ensures Specs(fs)[i].name == names[i] {
      assert names[i] in info.fields;
    }
    assert Folded(Specs(fs)) == Folds(names);
    assert Lower(ID_COLUMN.name) == "id";
  }

  /** The columns of the statement, in the terms of the schema. */
  lemma SpecsOf(info: TableInfo, names: seq<string>)
    requires PlainTable(info) && ListsColumns(info, names)
    ensures var fs := FieldsAt(info, names);
            && Folded([ID_COLUMN] + Specs(fs)) == ["id"] + Folds(names)
            && forall i :: 1 <= i < |names| + 1 ==>
                 (PrimaryKeyC in ([ID_COLUMN] + Specs(fs))[i].constraints <==> info.fields[names[i - 1]].primaryKey)
  {
    hide Constraints, PlainField, Distinct, Lower;
    assert Declared(info, names);
    LowerId();
    var fs := FieldsAt(info, names);
    FoldedSpecs(info, names);
    forall i | 1 <= i < |names| + 1
      ensures PrimaryKeyC in ([ID_COLUMN] + Specs(fs))[i].constraints <==> info.fields[names[i - 1]].primaryKey
    {
      SpecConstraints(fs[i - 1]);
    }
  }

  lemma BuildAccepts(info: TableInfo, names: seq<string>, driver: Driver)
    requires PlainTable(info) && ListsColumns(info, names)
    ensures var c := Create(Lower(info.name), [ID_COLUMN] + Specs(FieldsAt(info, names)));
            && (Build(c, driver).Some? <==> Declarable(info))
            && (Build(c, driver).Some? ==> NewTable(info, driver, Build(c, driver).value))
  {
    hide PlainField, FoldsApart, ColumnMatches, DeclaredAs, InOrder, Constraints, Lower, Declare, PlainTable, Distinct,
         Build, Folds, Keyword;
    var specs := Specs(FieldsAt(info, names));
    var c := Create(Lower(info.name), [ID_COLUMN] + specs);
    FoldedSpecs(info, names);
    KeysSeen(info, names);
    FoldsSeen(info, names);
    KeysOfSpecs(info, names);
    KeywordsSeen(info, names);
    BuildIs(c, specs, driver);
    if Build(c, driver).Some? {
      BuiltMirrors(info, names, driver);
    }
  }

  lemma KeywordsSeen(info: TableInfo, names: seq<string>)
    requires PlainTable(info) && ListsColumns(info, names)
    ensures var cs := [ID_COLUMN] + Specs(FieldsAt(info, names));
            NoKeywords(info) <==> forall i :: 1 <= i < |cs| ==> !Keyword(cs[i].name) && !Keyword(cs[i].dataType)
  {
    hide Keyword, PlainField, Constraints, Distinct;
    var cs := [ID_COLUMN] + Specs(FieldsAt(info, names));
    forall i | 1 <= i < |cs| ensures cs[i].name == names[i - 1]
      && cs[i].dataType == info.fields[names[i - 1]].dataType
    {
    }
    if forall i :: 1 <= i < |cs| ==> !Keyword(cs[i].name) && !Keyword(cs[i].dataType) {
      forall n | n in info.fields && n != "id" ensures !Keyword(n) && !Keyword(info.fields[n].dataType) {
        var i := Listed(info, names, n);
        assert !Keyword(cs[i + 1].name) && !Keyword(cs[i + 1].dataType);
      }
    }
    forall i | 0 <= i < |names| ensures names[i] in info.fields && names[i] != "id" {
      OnlyListed(info, names, names[i]);
    }
  }

  lemma BuildIs(c: Create, specs: seq<ColSpec>, driver: Driver)
    requires c.columns == [ID_COLUMN] + specs
    ensures Build(c, driver).Some? <==>
              && Distinct(Folded(c.columns))
              && (forall i :: 1 <= i < |c.columns| ==> PrimaryKeyC !in c.columns[i].constraints)
              && (forall i :: 1 <= i < |c.columns| ==> !Keyword(c.columns[i].name) && !Keyword(c.columns[i].dataType))
    ensures Build(c, driver).Some? ==> Distinct(Folded(specs))
    ensures Build(c, driver).Some? ==>
              Build(c, driver).value == Table(c.table, Folded(specs), DeclareAll(specs, driver), map[])
  {
    hide Keyword, DeclareAll, Lower;
    assert c.columns[0] == ID_COLUMN && c.columns[1..] == specs;
    assert Folded(specs) == Folded(c.columns)[1..];
  }

  lemma KeysOfSpecs(info: TableInfo, names: seq<string>)
    requires PlainTable(info) && ListsColumns(info, names)
    ensures var cs := [ID_COLUMN] + Specs(FieldsAt(info, names));
            (forall i :: 1 <= i < |cs| ==> PrimaryKeyC !in cs[i].constraints) <==>
            (forall i :: 0 <= i < |names| ==> !info.fields[names[i]].primaryKey)
  {
    hide PlainField, Constraints, PlainTable, Distinct, Lower;
    SpecsOf(info, names);
    var cs := [ID_COLUMN] + Specs(FieldsAt(info, names));
    if forall i :: 1 <= i < |cs| ==> PrimaryKeyC !in cs[i].constraints {
      forall i | 0 <= i < |names| ensures !info.fields[names[i]].primaryKey {
        assert PrimaryKeyC !in cs[i + 1].constraints;
      }
    }
  }

  /** An empty table with the columns of the schema. */
  ghost predicate NewTable(info: TableInfo, driver: Driver, t: Table) {
    && t.name == Lower(info.name) && t.rows == map[]
    && t.cols.Keys == FoldAll(info.fields.Keys - {"id"})
    && (forall n <- info.fields :: n != "id" ==> ColumnMatches(t.cols, info.fields[n], driver))
    && InOrder(t)
    && (forall n <- info.fields :: n != "id" ==> DeclaredAs(t.cols, info.fields[n], n))
  }

  /** The order of declaration lists every column once. */
  ghost predicate InOrder(t: Table) {
    Distinct(t.order) && (forall c <- t.order :: c in t.cols) && forall c <- t.cols :: c in t.order
  }

  /** The column keeps the spelling of its name and type, and its constraints. */
  ghost predicate DeclaredAs(cols: map<string, ColDef>, f: ColumnData, n: string) {
    && f.name == n && n != "" && Lower(n) in cols
    && var c := cols[Lower(n)];
       c.name == n && c.dataType == f.dataType && c.notNull == !f.nullable && c.literal == f.dflt
         && c.unique == f.unique
  }

  lemma BuiltColumn(f: ColumnData, cols: map<string, ColDef>, driver: Driver)
    requires Lower(f.name) in cols && cols[Lower(f.name)] == Declare(Spec(f), driver) && PlainField(f)
    ensures ColumnMatches(cols, f, driver) && DeclaredAs(cols, f, f.name)
  {
    SpecConstraints(f);
  }

  lemma BuiltMirrors(info: TableInfo, names: seq<string>, driver: Driver)
    requires PlainTable(info) && ListsColumns(info, names)
    requires Distinct(Folded(Specs(FieldsAt(info, names)))) && Folded(Specs(FieldsAt(info, names))) == Folds(names)
    ensures var cols := DeclareAll(Specs(FieldsAt(info, names)), driver);
            && cols.Keys == FoldAll(info.fields.Keys - {"id"})
            && InOrder(Table(Lower(info.name), Folds(names), cols, map[]))
            && forall n <- info.fields :: n != "id" ==>
                 ColumnMatches(cols, info.fields[n], driver) && DeclaredAs(cols, info.fields[n], n)
  {
    hide PlainField, Declare, Lower, ColumnMatches, DeclaredAs;
    var specs := Specs(FieldsAt(info, names));
    var cols := DeclareAll(specs, driver);
    forall n | n in info.fields && n != "id" ensures ColumnMatches(cols, info.fields[n], driver)
      && DeclaredAs(cols, info.fields[n], n) && Lower(n) in cols
    {
      var i := Listed(info, names, n);
      assert cols[Lower(specs[i].name)] == Declare(specs[i], driver);
      BuiltColumn(info.fields[n], cols, driver);
    }
    forall c | c in cols ensures c in FoldAll(info.fields.Keys - {"id"}) {
      var i :| 0 <= i < |names| && Folds(names)[i] == c;
      OnlyListed(info, names, names[i]);
    }
    assert cols.Keys == FoldAll(info.fields.Keys - {"id"});
    forall c | c in cols ensures c in Folds(names) {
      assert c in Folded(specs);
    }
    forall c | c in Folds(names) ensures c in cols {
      var i :| 0 <= i < |names| && Folds(names)[i] == c;
      assert Lower(specs[i].name) in cols;
    }
  }

  lemma CreateIsNoStatement(ts: seq<Token>)
    requires ts != [] && ts[0] == Word("CREATE")
    ensures ReadStatement(ts) == None
  {
  }

  lemma CreateStarts(table: string, fs: seq<ColumnData>)
    requires IsIdent(table) && forall i :: 0 <= i < |fs| ==> PlainField(fs[i])
    ensures Parse(CreateText(table, fs)) == None
  {
    hide PlainField, FieldsTokens, CreateText, ReadStatement, Lex;
    CreateLexes(table, fs);
    var head := Words(CREATE_WORDS);
    assert head[0] == Word("CREATE");
    assert (head + [Word(table)] + HEAD_TOKENS + FieldsTokens(fs) + [Sym(')')])[0] == head[0];
    CreateIsNoStatement(head + [Word(table)] + HEAD_TOKENS + FieldsTokens(fs) + [Sym(')')]);
  }

  /** The tables after creating the one described by info, whichever order its fields came in. */
  ghost predicate Created(tables: Tables, driver: Driver, info: TableInfo, after: Tables, n: Option<nat>) {
    var name := Lower(info.name);
    if !Accepted(info, name in tables) then n == None && after == tables
    else if name in tables then n == Some(0) && after == tables
    else n == Some(0) && name in after && after == tables[name := after[name]] && NewTable(info, driver, after[name])
  }

  lemma CreateTextRuns(tables: Tables, driver: Driver, info: TableInfo, names: seq<string>)
    requires AllHealthy(tables) && PlainTable(info) && ListsColumns(info, names)
    ensures var (after, n) := RunText(tables, driver, CreateText(info.name, FieldsAt(info, names)), []);
            Created(tables, driver, info, after, n)
  {
    hide CreateText, Lex, Parse, NewTable, Declarable, Build, NoSerial, Healthy, Folds, Keyword;
    var fs := FieldsAt(info, names);
    CreateStarts(info.name, fs);
    CreateParses(info.name, fs);
    SerialSeen(info, names);
    BuildAccepts(info, names, driver);
    TakenFolded(info.name);
    hide IsIdent, PlainField, TakenName;
  }

  lemma TakenFolded(table: string)
    requires IsIdent(table)
    ensures TakenName(Lower(table)) == TakenName(table)
  {
    forall i | 0 <= i < |table|
      ensures LowerChar(LowerChar(table[i])) == LowerChar(table[i])
              && UpperChar(LowerChar(table[i])) == UpperChar(table[i])
    {
      FoldedChar(table[i]);
    }
    hide LowerChar, UpperChar;
    assert Lower(Lower(table)) == Lower(table) && Upper(Lower(table)) == Upper(table);
  }

  lemma FoldedChar(c: char)
    requires IsWordChar(c)
    ensures LowerChar(LowerChar(c)) == LowerChar(c) && UpperChar(LowerChar(c)) == UpperChar(c)
  {
    if 'A' <= c <= 'Z' {
      var l := (c as int + 32) as char;
      assert LowerChar(c) == l && 'a' <= l <= 'z' && UpperChar(l) == c;
    }
  }

  // ---------------------------------------------------------------- the whole schema

  type Schema = map<string, TableInfo>

  /** What AddTable and AddField keep true of a schema. */
  ghost predicate BuiltSchema(sch: Schema) {
    forall name <- sch :: sch[name].name == name && BuiltByAddField(sch[name])
  }

  ghost predicate PlainSchema(sch: Schema) {
    FoldsApart(sch.Keys) && forall name <- sch :: PlainTable(sch[name])
  }

  /** The tables named so far have been created or were there; nothing else has changed. */
  ghost predicate AllCreated(sch: Schema, before: Tables, driver: Driver, done: set<string>, after: Tables)
    requires done <= sch.Keys
  {
    && after.Keys == before.Keys + FoldAll(done)
    && (forall n <- before :: after[n] == before[n])
    && forall name <- done :: Accepted(sch[name], Lower(name) in before)
         && (Lower(name) !in before ==> NewTable(sch[name], driver, after[Lower(name)]))
  }

  lemma NoneCreated(sch: Schema, tables: Tables, driver: Driver)
    ensures AllCreated(sch, tables, driver, {}, tables)
  {
    assert FoldAll({}) == {};
  }

  lemma OneMoreCreated(sch: Schema, before: Tables, driver: Driver, done: set<string>, tables: Tables,
                       name: string, after: Tables, n: Option<nat>)
    requires BuiltSchema(sch) && PlainSchema(sch) && done <= sch.Keys && name in sch && name !in done
    requires AllCreated(sch, before, driver, done, tables)
    requires Created(tables, driver, sch[name], after, n)
    ensures n.Some? <==> Accepted(sch[name], Lower(name) in before)
    ensures n.Some? ==> AllCreated(sch, before, driver, done + {name}, after)
    ensures n.None? ==> after == tables
  {
    hide Accepted, NewTable, PlainTable, BuiltByAddField, Lower, FoldsApart;
    NewFold(sch.Keys, done, name);
  }

  lemma NewFold(names: set<string>, done: set<string>, name: string)
    requires FoldsApart(names) && done <= names && name in names && name !in done
    ensures Lower(name) !in FoldAll(done) && FoldAll(done + {name}) == FoldAll(done) + {Lower(name)}
  {
    hide Lower;
    forall n | n in done ensures Lower(n) != Lower(name) {
      FoldDifferently(names, n, name);
    }
  }

  lemma FoldDifferently(names: set<string>, a: string, b: string)
    requires FoldsApart(names) && a in names && b in names && a != b
    ensures Lower(a) != Lower(b)
  {
  }

  /** The clause of one column: its flags in the order the loop body tests them. */
  method PrintField(query: string, field: ColumnData) returns (longer: string)
    ensures longer == query + FieldText(field)
  {
    hide NullText, DefaultText, UniqueText, AutoText, KeyText;
    var clause := ", " + field.name + " " + field.dataType;
    var withNull := PrintNullability(query + clause, field);
    var withDefault := PrintDefault(withNull, field);
    var withFlags := PrintFlags(withDefault, field);
    longer := withFlags;
    AppendParts(query, clause, NullText(field), DefaultText(field), UniqueText(field), AutoText(field), KeyText(field));
  }

  method PrintNullability(query: string, field: ColumnData) returns (longer: string)
    ensures longer == query + NullText(field)
  {
    if field.nullable {
      longer := query + " NULL";
    } else {
      longer := query + " NOT NULL";
    }
  }

  method PrintDefault(query: string, field: ColumnData) returns (longer: string)
    ensures longer == query + DefaultText(field)
  {
    longer := query;
    if field.dflt.Some? {
      longer := longer + (" DEFAULT '" + field.dflt.value + "'");
    }
  }

  method PrintFlags(query: string, field: ColumnData) returns (longer: string)
    ensures longer == ((query + UniqueText(field)) + AutoText(field)) + KeyText(field)
  {
    longer := query;
    if field.unique {
      longer := longer + " UNIQUE";
    }
    if field.autoIncrement {
      longer := longer + " AUTOINCREMENT";
    }
    if field.primaryKey {
      longer := longer + " PRIMARY KEY";
    }
  }

  lemma AppendParts(w: string, a: string, n: string, d: string, u: string, x: string, k: string)
    ensures w + (a + n + d + u + x + k) == (((((w + a) + n) + d) + u) + x) + k
  {
  }

  /** The text of one CREATE TABLE; the fields are ranged over in any order. */
  method PrintCreate(tbl: TableInfo) returns (query: string, ghost names: seq<string>)
    requires BuiltByAddField(tbl)
    ensures ListsColumns(tbl, names) && query == CreateText(tbl.name, FieldsAt(tbl, names))
  {
    hide FieldText, FieldsText, CreateHead, RangeOrder, ListsColumns;
    var order := RangeOver(tbl.fields.Keys);
    InRange(order, tbl.fields.Keys);
    RangeListsColumns(tbl, order);
    names := NotId(order);
    query := CreateHead(tbl.name);
    NothingPrinted(tbl);
    for k := 0 to |order|
      invariant Declared(tbl, NotId(order[..k]))
      invariant query == CreateHead(tbl.name) + FieldsText(FieldsAt(tbl, NotId(order[..k])))
    {
      var field := tbl.fields[order[k]];
      OneMorePrinted(tbl, order, k);
      if field.name == "id" {
        continue;
      }
      AssociateField(CreateHead(tbl.name), FieldsText(FieldsAt(tbl, NotId(order[..k]))), FieldText(field));
      query := PrintField(query, field);
    }
    assert order[..|order|] == order;
    query := query + ")";
  }

  lemma NothingPrinted(tbl: TableInfo)
    ensures Declared(tbl, NotId([])) && CreateHead(tbl.name) + FieldsText(FieldsAt(tbl, NotId([]))) ==
            CreateHead(tbl.name)
  {
  }

  lemma OneMorePrinted(tbl: TableInfo, order: seq<string>, k: nat)
    requires k < |order| && order[k] in tbl.fields && Declared(tbl, NotId(order[..k]))
    ensures Declared(tbl, NotId(order[..k + 1]))
    ensures var before := FieldsText(FieldsAt(tbl, NotId(order[..k])));
            FieldsText(FieldsAt(tbl, NotId(order[..k + 1]))) ==
            if order[k] == "id" then before else before + FieldText(tbl.fields[order[k]])
  {
    hide FieldText;
    NotIdStep(order, k);
    if order[k] != "id" {
      var before, field := FieldsAt(tbl, NotId(order[..k])), tbl.fields[order[k]];
      assert FieldsAt(tbl, NotId(order[..k]) + [order[k]]) == before + [field];
      FieldsTextStep(before, field);
    }
  }

  lemma FieldsTextStep(fs: seq<ColumnData>, f: ColumnData)
    ensures FieldsText(fs + [f]) == FieldsText(fs) + FieldText(f)
  {
    assert (fs + [f])[..|fs|] == fs;
  }

  lemma AssociateField(a: string, b: string, c: string)
    ensures a + b + c == a + (b + c)
  {
  }
}
