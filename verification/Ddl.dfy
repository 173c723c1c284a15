/** CREATE TABLE: its text as CreateTables prints it, and the table it declares. */
module Ddl {
  import opened Outcomes
  import opened Text
  import opened Values
  import opened Sql
  import opened Statements
  import opened Engine

  // ---------------------------------------------------------------- grammar

  datatype Constraint = NullC | NotNullC | DefaultC(literal: string) | UniqueC | PrimaryKeyC

  datatype ColSpec = ColSpec(name: string, dataType: string, constraints: seq<Constraint>)

  datatype Create = Create(table: string, columns: seq<ColSpec>)

  function ReadConstraint(ts: seq<Token>): (r: Option<(Constraint, seq<Token>)>)
    ensures r.Some? ==> |r.value.1| < |ts|
  {
    if ts == [] then None
    else if ts[0] == Word("NULL") then Some((NullC, ts[1..]))
    else if ts[0] == Word("UNIQUE") then Some((UniqueC, ts[1..]))
    else if |ts| >= 2 && ts[0] == Word("NOT") && ts[1] == Word("NULL") then Some((NotNullC, ts[2..]))
    else if |ts| >= 2 && ts[0] == Word("PRIMARY") && ts[1] == Word("KEY") then Some((PrimaryKeyC, ts[2..]))
    else if |ts| >= 2 && ts[0] == Word("DEFAULT") && ts[1].Quoted? then Some((DefaultC(ts[1].s), ts[2..]))
    else None
  }

  function ReadConstraints(ts: seq<Token>): (r: (seq<Constraint>, seq<Token>))
    ensures |r.1| <= |ts|
    decreases |ts|
  {
    match ReadConstraint(ts)
    case None => ([], ts)
    case Some((c, rest)) =>
      var (cs, r) := ReadConstraints(rest);
      ([c] + cs, r)
  }

  /** name [type] constraint*; the name keeps its spelling. */
  function ReadColumn(ts: seq<Token>): (r: Option<(ColSpec, seq<Token>)>)
    ensures r.Some? ==> |r.value.1| < |ts|
  {
    if ts == [] || !ts[0].Word? || !IsIdent(ts[0].w) then None
    else
      var r := ts[1..];
      if r != [] && r[0].Word? && IsIdent(r[0].w) then
        var (cs, r') := ReadConstraints(r[1..]);
        Some((ColSpec(ts[0].w, r[0].w, cs), r'))
      else
        var (cs, r') := ReadConstraints(r);
        Some((ColSpec(ts[0].w, "", cs), r'))
  }

  /** Columns, each after a comma, up to the parenthesis that ends the statement. */
  function ReadMoreColumns(ts: seq<Token>): Option<seq<ColSpec>>
    decreases |ts|
  {
    if ts == [Sym(')')] then Some([])
    else if ts != [] && ts[0] == Sym(',') then
      var (c, r) :- ReadColumn(ts[1..]);
      var cs :- ReadMoreColumns(r);
      Some([c] + cs)
    else None
  }

  const CREATE_WORDS := ["CREATE", "TABLE", "IF", "NOT", "EXISTS"]

  function ReadCreate(ts: seq<Token>): Option<Create> {
    var r :- Skip(ts, Words(CREATE_WORDS));
    var (t, r) :- ReadName(r);
    var r :- Skip(r, [Sym('(')]);
    var (c, r) :- ReadColumn(r);
    var cs :- ReadMoreColumns(r);
    Some(Create(t, [c] + cs))
  }

  // ---------------------------------------------------------------- the declared table

  /** SQLite's further keywords, which it takes for no name. */
  const KEYWORDS := [
    "ADD", "ALL", "ALTER", "AND", "BETWEEN", "CASE", "CHECK", "COLLATE", "COMMIT", "CONSTRAINT", "DEFERRABLE",
      "DISTINCT",
    "DROP", "ELSE", "ESCAPE", "EXCEPT", "EXISTS", "FOREIGN", "GROUP", "HAVING", "IN", "INDEX", "INTERSECT", "IS",
      "ISNULL",
    "JOIN", "LIMIT", "NOTHING", "NOTNULL", "ORDER", "REFERENCES", "RETURNING", "TO", "TRANSACTION", "UNION", "USING"]

  predicate Keyword(w: string) {
    Upper(w) in KEYWORDS
  }

  /** A keyword, or a name SQLite keeps for its own tables. */
  predicate TakenName(table: string) {
    Keyword(table) || "sqlite_" <= Lower(table)
  }

  const ID_COLUMN := ColSpec("id", "TEXT", [PrimaryKeyC])

  function LiteralOf(cs: seq<Constraint>): Option<string> {
    if cs == [] then None
    else if cs[0].DefaultC? then Some(cs[0].literal)
    else LiteralOf(cs[1..])
  }

  function Declare(c: ColSpec, driver: Driver): ColDef {
    var lit := LiteralOf(c.constraints);
    ColDef(c.name, c.dataType, NotNullC in c.constraints, lit,
           if lit.Some? then driver.keep(c.dataType, Text(lit.value)) else Null,
           UniqueC in c.constraints)
  }

  function Folded(cs: seq<ColSpec>): (ns: seq<string>)
    ensures |ns| == |cs| && forall i :: 0 <= i < |ns| ==> ns[i] == Lower(cs[i].name)
  {
    seq(|cs|, i requires 0 <= i < |cs| => Lower(cs[i].name))
  }

  function DeclareAll(cs: seq<ColSpec>, driver: Driver): (m: map<string, ColDef>)
    requires Distinct(Folded(cs))
    ensures forall i :: 0 <= i < |cs| ==> Lower(cs[i].name) in m && m[Lower(cs[i].name)] == Declare(cs[i], driver)
    ensures forall k <- m :: k in Folded(cs)
  {
    if cs == [] then map[]
    else
      var n := |cs| - 1;
      assert Folded(cs[..n]) == Folded(cs)[..n];
      var m := DeclareAll(cs[..n], driver);
      assert forall i :: 0 <= i < n ==> cs[..n][i] == cs[i];
      assert forall i :: 0 <= i < n ==> Folded(cs)[i] != Folded(cs)[n];
      m[Lower(cs[n].name) := Declare(cs[n], driver)]
  }

  /** The table declared by a CREATE TABLE whose first column is the text key id. A second
      primary key, a column declared twice, or a keyword for a name or a type, is refused. */
  function Build(c: Create, driver: Driver): Option<Table> {
    if |c.columns| >= 1 && c.columns[0] == ID_COLUMN && Distinct(Folded(c.columns)) &&
       (forall i :: 1 <= i < |c.columns| ==> PrimaryKeyC !in c.columns[i].constraints) &&
       (forall i :: 1 <= i < |c.columns| ==> !Keyword(c.columns[i].name) && !Keyword(c.columns[i].dataType)) then
      var rest := c.columns[1..];
      assert Folded(rest) == Folded(c.columns)[1..];
      Some(Table(c.table, Folded(rest), DeclareAll(rest, driver), map[]))
    else None
  }

  // ---------------------------------------------------------------- the printed text

  function NullText(f: ColumnData): string {
    if f.nullable then " NULL" else " NOT NULL"
  }

  function DefaultText(f: ColumnData): string {
    if f.dflt.Some? then " DEFAULT '" + f.dflt.value + "'" else ""
  }

  function UniqueText(f: ColumnData): string {
    if f.unique then " UNIQUE" else ""
  }

  function AutoText(f: ColumnData): string {
    if f.autoIncrement then " AUTOINCREMENT" else ""
  }

  function KeyText(f: ColumnData): string {
    if f.primaryKey then " PRIMARY KEY" else ""
  }

  /** What the loop of CreateTables appends for one field. */
  function FieldText(f: ColumnData): string {
    ", " + f.name + " " + f.dataType + NullText(f) + DefaultText(f) + UniqueText(f) + AutoText(f) + KeyText(f)
  }

  function FieldsText(fs: seq<ColumnData>): string {
    if fs == [] then "" else FieldsText(fs[..|fs| - 1]) + FieldText(fs[|fs| - 1])
  }

  function CreateHead(table: string): string {
    "CREATE TABLE IF NOT EXISTS " + table + " (id TEXT PRIMARY KEY"
  }

  function CreateText(table: string, fs: seq<ColumnData>): string {
    CreateHead(table) + FieldsText(fs) + ")"
  }

  /** A field whose parts are printed without upsetting the statement around them. */
  predicate PlainField(f: ColumnData) {
    && IsIdent(f.name)
    && (f.dataType == "" || IsIdent(f.dataType))
    && (f.dflt.Some? ==> '\'' !in f.dflt.value)
  }

  function ConstraintsBefore(f: ColumnData): seq<Constraint> {
    [if f.nullable then NullC else NotNullC]
    + (if f.dflt.Some? then [DefaultC(f.dflt.value)] else [])
    + (if f.unique then [UniqueC] else [])
  }

  function Constraints(f: ColumnData): seq<Constraint> {
    ConstraintsBefore(f) + (if f.primaryKey then [PrimaryKeyC] else [])
  }

  function ConstraintTokens(c: Constraint): seq<Token> {
    match c
    case NullC => [Word("NULL")]
    case NotNullC => [Word("NOT"), Word("NULL")]
    case DefaultC(l) => [Word("DEFAULT"), Quoted(l)]
    case UniqueC => [Word("UNIQUE")]
    case PrimaryKeyC => [Word("PRIMARY"), Word("KEY")]
  }

  function ConstraintsTokens(cs: seq<Constraint>): seq<Token> {
    if cs == [] then [] else ConstraintTokens(cs[0]) + ConstraintsTokens(cs[1..])
  }

  function Spec(f: ColumnData): ColSpec {
    ColSpec(f.name, f.dataType, Constraints(f))
  }

  function Specs(fs: seq<ColumnData>): (cs: seq<ColSpec>)
    ensures |cs| == |fs| && forall i :: 0 <= i < |fs| ==> cs[i] == Spec(fs[i])
  {
    seq(|fs|, i requires 0 <= i < |fs| => Spec(fs[i]))
  }

  function HeadTokens(f: ColumnData): seq<Token> {
    [Word(f.name)] + (if f.dataType == "" then [] else [Word(f.dataType)])
  }

  function NullTokens(f: ColumnData): seq<Token> {
    ConstraintTokens(if f.nullable then NullC else NotNullC)
  }

  function DefaultTokens(f: ColumnData): seq<Token> {
    if f.dflt.Some? then ConstraintTokens(DefaultC(f.dflt.value)) else []
  }

  function UniqueTokens(f: ColumnData): seq<Token> {
    if f.unique then [Word("UNIQUE")] else []
  }

  function AutoTokens(f: ColumnData): seq<Token> {
    if f.autoIncrement then [Word("AUTOINCREMENT")] else []
  }

  function KeyTokens(f: ColumnData): seq<Token> {
    if f.primaryKey then ConstraintTokens(PrimaryKeyC) else []
  }

  function FieldTokens(f: ColumnData): seq<Token> {
    HeadTokens(f) + ConstraintsTokens(ConstraintsBefore(f)) + AutoTokens(f) + KeyTokens(f)
  }

  function FieldsTokens(fs: seq<ColumnData>): seq<Token> {
    if fs == [] then [] else [Sym(',')] + FieldTokens(fs[0]) + FieldsTokens(fs[1..])
  }

  // ---------------------------------------------------------------- lexing it

  /** " WORD", as the optional parts of a field are printed. */
  lemma SuffixLexes(w: string)
    requires IsWord(w)
    ensures Lexes(" " + w, [Word(w)])
  {
    hide Closed, Lexes;
    BlankCloses(' ');
    WordLexes(w);
    ClosedLexes(" ", [], w, [Word(w)]);
    assert [] + [Word(w)] == [Word(w)];
  }

  lemma EmptyLexes()
    ensures Lexes("", [])
  {
    EmptyCloses();
  }

  lemma TypeLexes(f: ColumnData)
    requires PlainField(f)
    ensures Lexes(", " + f.name + " " + f.dataType, [Sym(',')] + HeadTokens(f))
  {
    hide Closed, Lexes;
    CommaCloses();
    WordLexes(f.name);
    ClosedLexes(", ", [Sym(',')], f.name, [Word(f.name)]);
    BlankCloses(' ');
    LexesClosed(", " + f.name, [Sym(',')] + [Word(f.name)], " ", []);
    if f.dataType == "" {
      EmptyLexes();
      ClosedLexes(", " + f.name + " ", [Sym(',')] + [Word(f.name)] + [], "", []);
      assert [Sym(',')] + [Word(f.name)] + [] + [] == [Sym(',')] + HeadTokens(f);
    } else {
      WordLexes(f.dataType);
      ClosedLexes(", " + f.name + " ", [Sym(',')] + [Word(f.name)] + [], f.dataType, [Word(f.dataType)]);
      assert [Sym(',')] + [Word(f.name)] + [] + [Word(f.dataType)] == [Sym(',')] + HeadTokens(f);
    }
  }

  lemma NullPartLexes(nullable: bool)
    ensures Lexes(if nullable then " NULL" else " NOT NULL",
                  ConstraintTokens(if nullable then NullC else NotNullC))
  {
    hide Closed, Lexes;
    SuffixLexes("NULL");
    SuffixLexes("NOT");
    assert " " + "NULL" == " NULL" && " " + "NOT" == " NOT";
    LexesLexes(" NOT", [Word("NOT")], " NULL", [Word("NULL")]);
    assert " NOT" + " NULL" == " NOT NULL";
    assert [Word("NOT")] + [Word("NULL")] == [Word("NOT"), Word("NULL")];
  }

  lemma DefaultPartLexes(dflt: Option<string>)
    requires dflt.Some? ==> '\'' !in dflt.value
    ensures Lexes(if dflt.Some? then " DEFAULT '" + dflt.value + "'" else "",
                  if dflt.Some? then ConstraintTokens(DefaultC(dflt.value)) else [])
  {
    hide Closed, Lexes;
    EmptyLexes();
    if dflt.Some? {
      KeywordCloses("DEFAULT");
      QuotedCloses(dflt.value);
      ClosedClosed(" " + "DEFAULT" + " ", [Word("DEFAULT")], ['\''] + dflt.value + ['\''], [Quoted(dflt.value)]);
      assert " " + "DEFAULT" + " " + (['\''] + dflt.value + ['\'']) == " DEFAULT '" + dflt.value + "'";
      assert [Word("DEFAULT")] + [Quoted(dflt.value)] == ConstraintTokens(DefaultC(dflt.value));
      ClosedLexesToo(" DEFAULT '" + dflt.value + "'", ConstraintTokens(DefaultC(dflt.value)));
    }
  }

  lemma FlagPartsLex()
    ensures Lexes(" UNIQUE", [Word("UNIQUE")]) && Lexes(" AUTOINCREMENT", [Word("AUTOINCREMENT")])
    ensures Lexes(" PRIMARY KEY", [Word("PRIMARY"), Word("KEY")]) && Lexes("", [])
  {
    hide Closed, Lexes;
    EmptyLexes();
    SuffixLexes("UNIQUE");
    assert " " + "UNIQUE" == " UNIQUE";
    SuffixLexes("AUTOINCREMENT");
    assert " " + "AUTOINCREMENT" == " AUTOINCREMENT";
    SuffixLexes("PRIMARY");
    SuffixLexes("KEY");
    LexesLexes(" " + "PRIMARY", [Word("PRIMARY")], " " + "KEY", [Word("KEY")]);
    assert " " + "PRIMARY" + (" " + "KEY") == " PRIMARY KEY";
    assert [Word("PRIMARY")] + [Word("KEY")] == [Word("PRIMARY"), Word("KEY")];
  }

  lemma {:induction false} ConstraintsTokensAppend(a: seq<Constraint>, b: seq<Constraint>)
    ensures ConstraintsTokens(a + b) == ConstraintsTokens(a) + ConstraintsTokens(b)
  {
    if a == [] {
      assert a + b == b;
    } else {
      ConstraintsTokensAppend(a[1..], b);
      assert (a + b)[1..] == a[1..] + b;
    }
  }

  lemma OneConstraint(c: Constraint)
    ensures ConstraintsTokens([c]) == ConstraintTokens(c)
  {
    assert [c][1..] == [];
  }

  lemma BeforeTokens(f: ColumnData)
    ensures ConstraintsTokens(ConstraintsBefore(f)) == NullTokens(f) + DefaultTokens(f) + UniqueTokens(f)
  {
    var c0 := [if f.nullable then NullC else NotNullC];
    var c1 := if f.dflt.Some? then [DefaultC(f.dflt.value)] else [];
    var c2 := if f.unique then [UniqueC] else [];
    ConstraintsTokensAppend(c0 + c1, c2);
    ConstraintsTokensAppend(c0, c1);
    OneConstraint(c0[0]);
    if f.dflt.Some? { OneConstraint(DefaultC(f.dflt.value)); }
    if f.unique { OneConstraint(UniqueC); }
  }

  lemma FieldFrontLexes(f: ColumnData)
    requires PlainField(f)
    ensures Lexes(", " + f.name + " " + f.dataType + NullText(f) + DefaultText(f),
                  [Sym(',')] + HeadTokens(f) + NullTokens(f) + DefaultTokens(f))
  {
    hide Closed, Lexes;
    TypeLexes(f);
    NullPartLexes(f.nullable);
    DefaultPartLexes(f.dflt);
    LexesLexes(", " + f.name + " " + f.dataType, [Sym(',')] + HeadTokens(f), NullText(f), NullTokens(f));
    LexesLexes(", " + f.name + " " + f.dataType + NullText(f), [Sym(',')] + HeadTokens(f) + NullTokens(f),
               DefaultText(f), DefaultTokens(f));
  }

  lemma FieldBackLexes(f: ColumnData)
    ensures Lexes(UniqueText(f) + AutoText(f) + KeyText(f), UniqueTokens(f) + AutoTokens(f) + KeyTokens(f))
    ensures Breaks(UniqueText(f) + AutoText(f) + KeyText(f))
  {
    hide Closed, Lexes;
    FlagPartsLex();
    LexesLexes(UniqueText(f), UniqueTokens(f), AutoText(f), AutoTokens(f));
    LexesLexes(UniqueText(f) + AutoText(f), UniqueTokens(f) + AutoTokens(f), KeyText(f), KeyTokens(f));
  }

  lemma TextSplits(f: ColumnData)
    ensures FieldText(f) == ", " + f.name + " " + f.dataType + NullText(f) + DefaultText(f)
                            + (UniqueText(f) + AutoText(f) + KeyText(f))
  {
    var front := ", " + f.name + " " + f.dataType + NullText(f) + DefaultText(f);
    assert front + UniqueText(f) + AutoText(f) + KeyText(f) == front + (UniqueText(f) + AutoText(f) + KeyText(f));
  }

  lemma RegroupField(c: seq<Token>, h: seq<Token>, n: seq<Token>, d: seq<Token>, u: seq<Token>, a: seq<Token>,
                     k: seq<Token>)
    ensures c + (h + (n + d + u) + a + k) == c + h + n + d + (u + a + k)
  {
  }

  lemma TokensSplit(f: ColumnData)
    ensures [Sym(',')] + FieldTokens(f) == [Sym(',')] + HeadTokens(f) + NullTokens(f) + DefaultTokens(f)
                                           + (UniqueTokens(f) + AutoTokens(f) + KeyTokens(f))
  {
    assert ConstraintsTokens(ConstraintsBefore(f)) == NullTokens(f) + DefaultTokens(f) + UniqueTokens(f) by {
      BeforeTokens(f);
    }
    RegroupField([Sym(',')], HeadTokens(f), NullTokens(f), DefaultTokens(f), UniqueTokens(f), AutoTokens(f),
                 KeyTokens(f));
  }

  lemma FieldLexes(f: ColumnData)
    requires PlainField(f)
    ensures Lexes(FieldText(f), [Sym(',')] + FieldTokens(f))
  {
    hide Closed, Lexes;
    FieldFrontLexes(f);
    FieldBackLexes(f);
    TextSplits(f);
    TokensSplit(f);
    LexesLexes(", " + f.name + " " + f.dataType + NullText(f) + DefaultText(f),
               [Sym(',')] + HeadTokens(f) + NullTokens(f) + DefaultTokens(f),
               UniqueText(f) + AutoText(f) + KeyText(f), UniqueTokens(f) + AutoTokens(f) + KeyTokens(f));
  }

  lemma {:induction false} FieldsTokensAppend(fs: seq<ColumnData>, f: ColumnData)
    ensures FieldsTokens(fs + [f]) == FieldsTokens(fs) + ([Sym(',')] + FieldTokens(f))
  {
    if fs == [] {
      assert ([] + [f])[1..] == [];
    } else {
      assert (fs + [f])[1..] == fs[1..] + [f];
      FieldsTokensAppend(fs[1..], f);
    }
  }

  lemma OneMoreField(a: string, ta: seq<Token>, f: ColumnData)
    requires Lexes(a, ta) && Breaks(a) && PlainField(f)
    ensures Lexes(a + FieldText(f), ta + ([Sym(',')] + FieldTokens(f))) && Breaks(a + FieldText(f))
  {
    hide Closed, Lexes, PlainField, FieldTokens;
    FieldLexes(f);
    FieldTextBreaks(f);
    hide FieldText;
    LexesLexes(a, ta, FieldText(f), [Sym(',')] + FieldTokens(f));
  }

  lemma {:induction false} FieldsLex(fs: seq<ColumnData>)
    requires forall i :: 0 <= i < |fs| ==> PlainField(fs[i])
    ensures Lexes(FieldsText(fs), FieldsTokens(fs)) && Breaks(FieldsText(fs))
  {
    hide Closed, Lexes, FieldTokens, FieldText, PlainField;
    if fs == [] {
      EmptyLexes();
    } else {
      var n := |fs| - 1;
      FieldsLex(fs[..n]);
      FieldsTokensAppend(fs[..n], fs[n]);
      assert fs[..n] + [fs[n]] == fs;
      OneMoreField(FieldsText(fs[..n]), FieldsTokens(fs[..n]), fs[n]);
    }
  }

  lemma FieldTextBreaks(f: ColumnData)
    ensures FieldText(f)[0] == ','
  {
  }

  const HEAD_TEXT := " (id TEXT PRIMARY KEY"

  const HEAD_TOKENS := [Sym('('), Word("id"), Word("TEXT"), Word("PRIMARY"), Word("KEY")]

  lemma HeadLexes()
    ensures Lexes(HEAD_TEXT, HEAD_TOKENS)
  {
    hide Closed, Lexes;
    OpenCloses();
    WordLexes("id");
    SuffixLexes("TEXT");
    FlagPartsLex();
    ClosedLexes(" (", [Sym('(')], "id", [Word("id")]);
    LexesLexes(" (" + "id", [Sym('(')] + [Word("id")], " " + "TEXT", [Word("TEXT")]);
    LexesLexes(" (" + "id" + (" " + "TEXT"), [Sym('(')] + [Word("id")] + [Word("TEXT")],
               " PRIMARY KEY", [Word("PRIMARY"), Word("KEY")]);
    assert " (" + "id" == " (id" && " " + "TEXT" == " TEXT";
    assert " (id" + " TEXT" == " (id TEXT";
    assert " (id TEXT" + " PRIMARY KEY" == HEAD_TEXT;
    assert [Sym('(')] + [Word("id")] + [Word("TEXT")] + [Word("PRIMARY"), Word("KEY")] == HEAD_TOKENS;
  }

  lemma CreateWordsText()
    ensures Phrase(CREATE_WORDS) == "CREATE TABLE IF NOT EXISTS "
  {
    PhraseStep("EXISTS", []);
    PhraseStep("NOT", ["EXISTS"]);
    PhraseStep("IF", ["NOT", "EXISTS"]);
    PhraseStep("TABLE", ["IF", "NOT", "EXISTS"]);
    PhraseStep("CREATE", ["TABLE", "IF", "NOT", "EXISTS"]);
    assert ["EXISTS"] + [] == ["EXISTS"];
    assert ["NOT"] + ["EXISTS"] == ["NOT", "EXISTS"];
    assert ["IF"] + ["NOT", "EXISTS"] == ["IF", "NOT", "EXISTS"];
    assert ["TABLE"] + ["IF", "NOT", "EXISTS"] == ["TABLE", "IF", "NOT", "EXISTS"];
    assert ["CREATE"] + ["TABLE", "IF", "NOT", "EXISTS"] == CREATE_WORDS;
  }

  lemma CreateHeadLexes(table: string)
    requires IsIdent(table)
    ensures Lexes(CreateHead(table), Words(CREATE_WORDS) + [Word(table)] + HEAD_TOKENS)
  {
    hide Closed, Lexes;
    CreateWordsText();
    PhraseCloses(CREATE_WORDS);
    WordLexes(table);
    HeadLexes();
    ClosedLexes("CREATE TABLE IF NOT EXISTS ", Words(CREATE_WORDS), table, [Word(table)]);
    LexesLexes("CREATE TABLE IF NOT EXISTS " + table, Words(CREATE_WORDS) + [Word(table)], HEAD_TEXT, HEAD_TOKENS);
  }

  lemma CreateLexes(table: string, fs: seq<ColumnData>)
    requires IsIdent(table) && forall i :: 0 <= i < |fs| ==> PlainField(fs[i])
    ensures Lex(CreateText(table, fs)) ==
            Words(CREATE_WORDS) + [Word(table)] + HEAD_TOKENS + FieldsTokens(fs) + [Sym(')')]
  {
    hide Closed, Lexes;
    CreateHeadLexes(table);
    FieldsLex(fs);
    var ta := Words(CREATE_WORDS) + [Word(table)] + HEAD_TOKENS;
    CreateTail(CreateHead(table), ta, FieldsText(fs), FieldsTokens(fs));
  }

  lemma CreateTail(a: string, ta: seq<Token>, b: string, tb: seq<Token>)
    requires Lexes(a, ta) && Lexes(b, tb) && Breaks(b)
    ensures Lex(a + b + ")") == ta + tb + [Sym(')')]
  {
    hide Closed, Lexes;
    SymCloses(')');
    LexesLexes(a, ta, b, tb);
    LexesClosed(a + b, ta + tb, ")", [Sym(')')]);
    ClosedWhole(a + b + ")", ta + tb + [Sym(')')]);
  }

  // ---------------------------------------------------------------- reading it

  predicate ConstraintsEnd(ts: seq<Token>) {
    ts == [] || ts[0] == Sym(',') || ts[0] == Sym(')') || ts[0] == Word("AUTOINCREMENT")
  }

  lemma ConstraintReads(c: Constraint, rest: seq<Token>)
    ensures ReadConstraint(ConstraintTokens(c) + rest) == Some((c, rest))
  {
    assert (ConstraintTokens(c) + rest)[|ConstraintTokens(c)|..] == rest;
  }

  lemma {:induction false} ConstraintsRead(cs: seq<Constraint>, rest: seq<Token>)
    requires ConstraintsEnd(rest)
    ensures ReadConstraints(ConstraintsTokens(cs) + rest) == (cs, rest)
  {
    if cs == [] {
      assert ConstraintsTokens(cs) + rest == rest;
    } else {
      var more := ConstraintsTokens(cs[1..]) + rest;
      assert ConstraintsTokens(cs) + rest == ConstraintTokens(cs[0]) + more;
      ConstraintReads(cs[0], more);
      ConstraintsRead(cs[1..], rest);
      assert [cs[0]] + cs[1..] == cs;
    }
  }

  lemma NullIsReserved()
    ensures !IsIdent("NULL") && !IsIdent("NOT")
  {
    assert Upper("NULL") == "NULL" == RESERVED[15];
    assert Upper("NOT") == "NOT" == RESERVED[14];
  }

  lemma FirstConstraint(cs: seq<Constraint>, rest: seq<Token>)
    requires cs != [] && (cs[0] == NullC || cs[0] == NotNullC)
    ensures var ts := ConstraintsTokens(cs) + rest; ts[0] == Word("NULL") || ts[0] == Word("NOT")
  {
  }

  lemma UntypedReads(head: seq<Token>, name: string, cs: seq<Constraint>, rest: seq<Token>)
    requires IsIdent(name) && head == [Word(name)]
    requires cs != [] && (cs[0] == NullC || cs[0] == NotNullC) && ConstraintsEnd(rest)
    ensures ReadColumn(head + (ConstraintsTokens(cs) + rest)) == Some((ColSpec(name, "", cs), rest))
  {
    var tail := ConstraintsTokens(cs) + rest;
    assert ([Word(name)] + tail)[1..] == tail;
    ConstraintsRead(cs, rest);
    FirstConstraint(cs, rest);
    NullIsReserved();
  }

  lemma TypedReads(head: seq<Token>, name: string, dataType: string, cs: seq<Constraint>, rest: seq<Token>)
    requires IsIdent(name) && IsIdent(dataType) && head == [Word(name), Word(dataType)] && ConstraintsEnd(rest)
    ensures ReadColumn(head + (ConstraintsTokens(cs) + rest)) == Some((ColSpec(name, dataType, cs), rest))
  {
    var tail := ConstraintsTokens(cs) + rest;
    var ts := head + tail;
    assert ts[1..] == [Word(dataType)] + tail && ts[1..][1..] == tail;
    ConstraintsRead(cs, rest);
  }

  lemma ColumnReadsBack(f: ColumnData, cs: seq<Constraint>, rest: seq<Token>)
    requires PlainField(f) && cs != [] && (cs[0] == NullC || cs[0] == NotNullC) && ConstraintsEnd(rest)
    ensures ReadColumn(HeadTokens(f) + (ConstraintsTokens(cs) + rest)) == Some((ColSpec(f.name, f.dataType, cs), rest))
  {
    if f.dataType == "" {
      UntypedReads(HeadTokens(f), f.name, cs, rest);
    } else {
      TypedReads(HeadTokens(f), f.name, f.dataType, cs, rest);
    }
  }

  lemma FieldReads(f: ColumnData, rest: seq<Token>)
    requires PlainField(f) && ConstraintsEnd(rest) && !f.autoIncrement
    ensures ReadColumn(FieldTokens(f) + rest) == Some((Spec(f), rest))
  {
    ConstraintsTokensAppend(ConstraintsBefore(f), if f.primaryKey then [PrimaryKeyC] else []);
    OneConstraint(PrimaryKeyC);
    assert FieldTokens(f) == HeadTokens(f) + ConstraintsTokens(Constraints(f));
    assert FieldTokens(f) + rest == HeadTokens(f) + (ConstraintsTokens(Constraints(f)) + rest);
    ColumnReadsBack(f, Constraints(f), rest);
  }

  lemma AutoIncrementStops(f: ColumnData, rest: seq<Token>)
    requires PlainField(f) && f.autoIncrement
    ensures ReadMoreColumns([Sym(',')] + (FieldTokens(f) + rest)) == None
  {
    var cs := ConstraintsBefore(f);
    var tail := [Word("AUTOINCREMENT")] + (KeyTokens(f) + rest);
    assert FieldTokens(f) + rest == HeadTokens(f) + (ConstraintsTokens(cs) + tail);
    assert tail[0] == Word("AUTOINCREMENT");
    ColumnReadsBack(f, cs, tail);
    var all := [Sym(',')] + (FieldTokens(f) + rest);
    assert all[0] == Sym(',') && all[1..] == FieldTokens(f) + rest;
    assert ReadMoreColumns(tail) == None;
  }

  predicate NoAutoIncrement(fs: seq<ColumnData>) {
    forall i :: 0 <= i < |fs| ==> !fs[i].autoIncrement
  }

  lemma NoAutoIncrementTail(fs: seq<ColumnData>)
    requires fs != []
    ensures NoAutoIncrement(fs) <==> !fs[0].autoIncrement && NoAutoIncrement(fs[1..])
  {
    if !fs[0].autoIncrement && NoAutoIncrement(fs[1..]) {
      forall i | 0 <= i < |fs| ensures !fs[i].autoIncrement {
        if i > 0 { assert !fs[1..][i - 1].autoIncrement; }
      }
    }
  }

  lemma OneMoreColumn(c: ColSpec, tk: seq<Token>, rest: seq<Token>)
    requires ReadColumn(tk + rest) == Some((c, rest))
    ensures ReadMoreColumns([Sym(',')] + (tk + rest)) ==
            match ReadMoreColumns(rest) case Some(cs) => Some([c] + cs) case None => None
  {
    var all := [Sym(',')] + (tk + rest);
    assert all[0] == Sym(',') && all[1..] == tk + rest;
  }

  lemma FieldsStart(fs: seq<ColumnData>)
    ensures var ts := FieldsTokens(fs) + [Sym(')')]; ts[0] == Sym(',') || ts[0] == Sym(')')
  {
  }

  lemma FieldsSplit(fs: seq<ColumnData>)
    requires fs != []
    ensures FieldsTokens(fs) + [Sym(')')] == [Sym(',')] + (FieldTokens(fs[0]) + (FieldsTokens(fs[1..]) + [Sym(')')]))
  {
  }

  lemma {:induction false} FieldsRead(fs: seq<ColumnData>)
    requires forall i :: 0 <= i < |fs| ==> PlainField(fs[i])
    ensures ReadMoreColumns(FieldsTokens(fs) + [Sym(')')]) == if NoAutoIncrement(fs) then Some(Specs(fs)) else None
  {
    hide ReadColumn, FieldTokens, Constraints, PlainField, IsIdent, ReadConstraints;
    if fs == [] {
      assert FieldsTokens(fs) + [Sym(')')] == [Sym(')')];
    } else {
      var rest := FieldsTokens(fs[1..]) + [Sym(')')];
      FieldsSplit(fs);
      FieldsRead(fs[1..]);
      NoAutoIncrementTail(fs);
      if fs[0].autoIncrement {
        AutoIncrementStops(fs[0], rest);
      } else {
        FieldsStart(fs[1..]);
        assert ReadColumn(FieldTokens(fs[0]) + rest) == Some((Spec(fs[0]), rest)) by {
          FieldReads(fs[0], rest);
        }
        OneMoreColumn(Spec(fs[0]), FieldTokens(fs[0]), rest);
        assert [Spec(fs[0])] + Specs(fs[1..]) == Specs(fs);
      }
    }
  }

  lemma IdColumnReads(rest: seq<Token>)
    requires rest != [] && (rest[0] == Sym(',') || rest[0] == Sym(')'))
    ensures ReadColumn([Word("id"), Word("TEXT"), Word("PRIMARY"), Word("KEY")] + rest) == Some((ID_COLUMN, rest))
  {
    IdIsIdent();
    var ts := [Word("id"), Word("TEXT"), Word("PRIMARY"), Word("KEY")] + rest;
    OneConstraint(PrimaryKeyC);
    assert ts[1..][1..] == ConstraintsTokens([PrimaryKeyC]) + rest;
    ConstraintsRead([PrimaryKeyC], rest);
  }

  lemma IdIsIdent()
    ensures IsIdent("id") && IsIdent("TEXT") && IsIdent("ID") && Lower("id") == "id" && Lower("ID") == "id"
  {
    assert Upper("id") == "ID" && Upper("ID") == "ID" && Upper("TEXT") == "TEXT";
    forall i | 0 <= i < |RESERVED| ensures RESERVED[i] != "ID" && RESERVED[i] != "TEXT" {
      assert RESERVED[i][0] == 'T' ==> RESERVED[i] == "THEN" || RESERVED[i] == "TABLE";
    }
  }

  /** CreateTables prints a statement exactly when no field is auto-incremented. */
  lemma CreateParses(table: string, fs: seq<ColumnData>)
    requires IsIdent(table) && forall i :: 0 <= i < |fs| ==> PlainField(fs[i])
    ensures ReadCreate(Lex(CreateText(table, fs))) ==
            if NoAutoIncrement(fs) then Some(Create(Lower(table), [ID_COLUMN] + Specs(fs))) else None
  {
    var r3 := FieldsTokens(fs) + [Sym(')')];
    var r2 := [Word("id"), Word("TEXT"), Word("PRIMARY"), Word("KEY")] + r3;
    CreateTokensSplit(table, fs);
    CreateLexes(table, fs);
    CreateHeadReads(table, r2);
    assert r3[0] == Sym(',') || r3[0] == Sym(')');
    IdColumnReads(r3);
    FieldsRead(fs);
  }

  lemma CreateTokensSplit(table: string, fs: seq<ColumnData>)
    ensures Words(CREATE_WORDS) + [Word(table)] + HEAD_TOKENS + FieldsTokens(fs) + [Sym(')')] ==
            Words(CREATE_WORDS) + ([Word(table)] + ([Sym('(')] +
              ([Word("id"), Word("TEXT"), Word("PRIMARY"), Word("KEY")] + (FieldsTokens(fs) + [Sym(')')]))))
  {
    assert HEAD_TOKENS == [Sym('(')] + [Word("id"), Word("TEXT"), Word("PRIMARY"), Word("KEY")];
    Regroup(Words(CREATE_WORDS), [Word(table)], [Sym('(')], [Word("id"), Word("TEXT"), Word("PRIMARY"), Word("KEY")],
            FieldsTokens(fs), [Sym(')')]);
  }

  lemma CreateHeadReads(table: string, r2: seq<Token>)
    requires IsIdent(table)
    ensures ReadCreate(Words(CREATE_WORDS) + ([Word(table)] + ([Sym('(')] + r2))) ==
            match ReadColumn(r2)
            case None => None
            case Some((c, r)) =>
              match ReadMoreColumns(r) case Some(cs) => Some(Create(Lower(table), [c] + cs)) case None => None
  {
    var r1 := [Sym('(')] + r2;
    SkipHead(Words(CREATE_WORDS), [Word(table)] + r1);
    assert ([Word(table)] + r1)[1..] == r1;
    SkipHead([Sym('(')], r2);
  }
}
