/** The upsert statements of the other adapters, and how they read: PostgreSQL's ON CONFLICT and
    SQL Server's MERGE. */
module UpsertTexts {
  import opened Outcomes
  import opened Text
  import opened Sql
  import opened Statements

  // ---------------------------------------------------------------- ON CONFLICT

  /** INSERT .. ON CONFLICT (id) DO UPDATE SET clauses */
  function ConflictText(table: string, columns: seq<string>, placeholders: seq<string>, clauses: seq<string>): string {
    InsertText(InsertInto, table, columns, placeholders) + " ON CONFLICT (id) DO UPDATE SET " + Join(clauses, ", ")
  }

  lemma OnConflictWords()
    ensures Closed(" ON CONFLICT ", [Word("ON"), Word("CONFLICT")])
  {
    hide Closed, Lexes;
    SpacedCloses(["ON", "CONFLICT"]);
    PhraseTwo("ON", "CONFLICT");
    assert " " + Phrase(["ON", "CONFLICT"]) == " ON CONFLICT ";
    assert Words(["ON", "CONFLICT"]) == [Word("ON"), Word("CONFLICT")];
  }

  lemma IdInParens()
    ensures Closed("(id)", [Sym('('), Word("id"), Sym(')')])
  {
    hide Closed, Lexes;
    SymCloses('(');
    WordLexes("id");
    SymCloses(')');
    Sandwich("(", [Sym('(')], "id", [Word("id")], ")", [Sym(')')]);
    assert "(" + "id" + ")" == "(id)";
    assert [Sym('(')] + [Word("id")] + [Sym(')')] == [Sym('('), Word("id"), Sym(')')];
  }

  lemma DoUpdateSetWords()
    ensures Closed(" DO UPDATE SET ", [Word("DO"), Word("UPDATE"), Word("SET")])
  {
    hide Closed, Lexes;
    SpacedCloses(["DO", "UPDATE", "SET"]);
    PhraseTwo("UPDATE", "SET");
    PhraseStep("DO", ["UPDATE", "SET"]);
    assert ["DO"] + ["UPDATE", "SET"] == ["DO", "UPDATE", "SET"];
    assert " " + Phrase(["DO", "UPDATE", "SET"]) == " DO UPDATE SET ";
    assert Words(["DO", "UPDATE", "SET"]) == [Word("DO"), Word("UPDATE"), Word("SET")];
  }

  lemma OnConflictCloses()
    ensures Closed(" ON CONFLICT (id) DO UPDATE SET ", ON_CONFLICT)
  {
    hide Closed, Lexes;
    OnConflictWords();
    IdInParens();
    DoUpdateSetWords();
    ClosedClosed(" ON CONFLICT ", [Word("ON"), Word("CONFLICT")], "(id)", [Sym('('), Word("id"), Sym(')')]);
    ClosedClosed(" ON CONFLICT " + "(id)", [Word("ON"), Word("CONFLICT")] + [Sym('('), Word("id"), Sym(')')],
                 " DO UPDATE SET ", [Word("DO"), Word("UPDATE"), Word("SET")]);
    assert " ON CONFLICT " + "(id)" + " DO UPDATE SET " == " ON CONFLICT (id) DO UPDATE SET ";
    assert [Word("ON"), Word("CONFLICT")] + [Sym('('), Word("id"), Sym(')')] + [Word("DO"), Word("UPDATE"),
            Word("SET")] == ON_CONFLICT;
  }

  lemma Three<T>(a: seq<T>, b: seq<T>, c: seq<T>, d: seq<T>)
    ensures a + b + c + d == a + (b + (c + d))
  {
  }

  lemma ConflictLexes(table: Name, columns: string, tc: seq<Token>, values: string, tv: seq<Token>, sets: string,
                      ts: seq<Token>)
    requires GoodName(table) && Lexes(columns, tc) && Lexes(values, tv) && Lexes(sets, ts)
    ensures Lex(VerbText(InsertInto) + (NameText(table) + " (" + columns + ") VALUES (" + values + ")")
                + " ON CONFLICT (id) DO UPDATE SET " + sets)
            == Words(VerbWords(InsertInto)) + (InsertBodyTokens(table, tc, tv) + (ON_CONFLICT + ts))
  {
    hide Closed, Lexes, InsertBodyTokens, VerbText;
    InsertLexes(InsertInto, table, columns, tc, values, tv);
    var a := VerbText(InsertInto) + (NameText(table) + " (" + columns + ") VALUES (" + values + ")");
    var ta := Words(VerbWords(InsertInto)) + InsertBodyTokens(table, tc, tv);
    OnConflictCloses();
    ClosedClosed(a, ta, " ON CONFLICT (id) DO UPDATE SET ", ON_CONFLICT);
    ClosedLexes(a + " ON CONFLICT (id) DO UPDATE SET ", ta + ON_CONFLICT, sets, ts);
    LexesWhole(a + " ON CONFLICT (id) DO UPDATE SET " + sets, ta + ON_CONFLICT + ts);
    Three(Words(VerbWords(InsertInto)), InsertBodyTokens(table, tc, tv), ON_CONFLICT, ts);
  }

  lemma ConflictTail(ins: Statement, ts: seq<Token>, its: seq<Item>, n: nat, m: nat)
    requires ins.Insert? && ReadsItems(ts, its, n, m)
    ensures ReadConflict(ins, ON_CONFLICT + ts, n) == Some(ins.(conflict := its))
  {
    SkipHead(ON_CONFLICT, ts);
    assert ts + [] == ts;
    assert ReadItems(ts + [], n) == Some((its, [], m));
  }

  lemma NoConflictTail(ins: Statement, n: nat)
    requires ins.Insert?
    ensures ReadConflict(ins, ON_CONFLICT + [], n) == None
  {
    SkipHead(ON_CONFLICT, []);
  }

  /** The printed upsert: the i-th column goes with the i-th parameter, and the update reuses the
      parameters of the insert. Without a column to set it is not a statement. */
  lemma ConflictParses(table: Name, names: seq<string>)
    requires GoodName(table) && GoodNames(Bares(["id"] + names))
    ensures var n := |names| + 1; var query := ConflictText(NameText(table), NameTexts(Bares(["id"] + names)),
                Placeholders(DOLLAR, 1, n), SetClauses(Bares(names), DOLLAR, 2));
            Parse(query) == if names == [] then None
                            else Some(Insert(Lower(table.w), InsertInto, Columns(Bares(["id"] + names)), Params(1, n),
                                             Sets(Bares(names), 2)))
  {
    hide Closed, Lexes, ReadsItems, ReadInsert, ReadConflict, InsertBodyTokens, Lex;
    var all := Bares(["id"] + names);
    var columns, values := Join(NameTexts(all), ", "), Join(Placeholders(DOLLAR, 1, |all|), ", ");
    var tc := ColumnListReads(all, 1);
    var tv := PlaceholderListReads(DOLLAR, 1, |all|);
    var ins := Insert(Lower(table.w), InsertInto, Columns(all), Params(1, |all|), []);
    if names == [] {
      EmptyCloses();
      ClosedLexesToo("", []);
      assert Join(SetClauses(Bares(names), DOLLAR, 2), ", ") == "";
      ConflictLexes(table, columns, tc, values, tv, "", []);
      InsertTokensRead(table, InsertInto, columns, tc, Columns(all), values, tv, Params(1, |all|), 1, ON_CONFLICT + []);
      VerbReads(InsertInto, InsertBodyTokens(table, tc, tv) + (ON_CONFLICT + []));
      NoConflictTail(ins, 1);
    } else {
      var ts := SetNamesRead(names);
      ConflictLexes(table, columns, tc, values, tv, Join(SetClauses(Bares(names), DOLLAR, 2), ", "), ts);
      InsertTokensRead(table, InsertInto, columns, tc, Columns(all), values, tv, Params(1, |all|), 1, ON_CONFLICT + ts);
      VerbReads(InsertInto, InsertBodyTokens(table, tc, tv) + (ON_CONFLICT + ts));
      ConflictTail(ins, ts, Sets(Bares(names), 2), 1, 1);
    }
  }

  lemma SetNamesRead(names: seq<string>) returns (ts: seq<Token>)
    requires GoodNames(Bares(["id"] + names)) && names != []
    ensures ReadsList(Join(SetClauses(Bares(names), DOLLAR, 2), ", "), ts, Sets(Bares(names), 2), 1, 1)
  {
    hide Closed, Lexes, ReadsItems, GoodName;
    forall i | 0 <= i < |names| ensures GoodName(Bares(names)[i]) {
      assert Bares(["id"] + names)[i + 1] == Bares(names)[i];
    }
    ts := SetClauseListReads(Bares(names), DOLLAR, 2);
  }

  // ---------------------------------------------------------------- blanks and fixed words

  predicate Blanks(s: string) {
    forall i :: 0 <= i < |s| ==> IsBlank(s[i])
  }

  lemma {:induction false} BlanksClose(s: string)
    requires Blanks(s)
    ensures Closed(s, [])
  {
    hide Closed;
    if s == "" {
      EmptyCloses();
    } else {
      BlankCloses(s[0]);
      BlanksClose(s[1..]);
      var none: seq<Token> := [];
      ClosedClosed([s[0]], none, s[1..], none);
      assert [s[0]] + s[1..] == s && none + none == none;
    }
  }

  /** Words, each followed by its own blanks. */
  function Layout(ws: seq<string>, gaps: seq<string>): string
    requires |ws| == |gaps|
  {
    if ws == [] then "" else ws[0] + gaps[0] + Layout(ws[1..], gaps[1..])
  }

  lemma {:induction false} LayoutCloses(ws: seq<string>, gaps: seq<string>)
    requires |ws| == |gaps|
    requires forall i :: 0 <= i < |ws| ==> IsWord(ws[i]) && Blanks(gaps[i]) && gaps[i] != ""
    ensures Closed(Layout(ws, gaps), Words(ws))
  {
    hide Closed, Lexes;
    if ws == [] {
      EmptyCloses();
    } else {
      WordLexes(ws[0]);
      BlanksClose(gaps[0]);
      LexesClosed(ws[0], [Word(ws[0])], gaps[0], []);
      LayoutCloses(ws[1..], gaps[1..]);
      ClosedClosed(ws[0] + gaps[0], [Word(ws[0])] + [], Layout(ws[1..], gaps[1..]), Words(ws[1..]));
      assert [Word(ws[0])] + [] + Words(ws[1..]) == Words(ws);
    }
  }

  lemma LayoutStep(w: string, gap: string, ws: seq<string>, gaps: seq<string>)
    requires |ws| == |gaps|
    ensures Layout([w] + ws, [gap] + gaps) == w + gap + Layout(ws, gaps)
  {
    assert ([w] + ws)[1..] == ws && ([gap] + gaps)[1..] == gaps;
  }

  // ---------------------------------------------------------------- the parts of a MERGE

  /** SELECT ? AS [id] , ? AS [a], ? AS [b]: the source row, one parameter for each column. */
  function SourceText(names: seq<string>): string {
    if names == [] then "? AS [id] "
    else SourceText(names[..|names| - 1]) + (", ? AS " + NameText(Bracketed(names[|names| - 1])))
  }

  function SourceTokens(name: string): seq<Token> {
    [Sym('?'), Word("AS")] + NameTokens(Bracketed(name))
  }

  function SourceItem(name: string, k: nat): Item {
    Item(Param(k), None, Some(Lower(name)))
  }

  function SourceItems(names: seq<string>): (its: seq<Item>)
    ensures |its| == |names| && forall i :: 0 <= i < |its| ==> its[i] == SourceItem(names[i], i + 1)
  {
    seq(|names|, i requires 0 <= i < |names| => SourceItem(names[i], i + 1))
  }

  predicate AllWords(names: seq<string>) {
    forall i :: 0 <= i < |names| ==> IsWord(names[i])
  }

  lemma SourceItemReads(name: string, k: nat)
    requires IsWord(name)
    ensures Reads(SourceTokens(name), SourceItem(name, k), k, k + 1)
  {
    hide Reads, ReadsOperand, Lexes;
    PlaceholderReads(Marks, k);
    AliasReads([Sym('?')], Param(k), Bracketed(name), k, k + 1);
    assert [Sym('?')] + [Word("AS")] == [Sym('?'), Word("AS")];
  }

  lemma AliasCloses(name: string)
    requires IsWord(name)
    ensures Closed("? AS " + NameText(Bracketed(name)), SourceTokens(name))
  {
    hide Closed, Lexes;
    SymCloses('?');
    KeywordCloses("AS");
    ClosedClosed("?", [Sym('?')], " " + "AS" + " ", [Word("AS")]);
    BracketsClose(name);
    ClosedClosed("?" + (" " + "AS" + " "), [Sym('?')] + [Word("AS")], NameText(Bracketed(name)),
                 NameTokens(Bracketed(name)));
    assert "?" + (" " + "AS" + " ") == "? AS ";
    assert [Sym('?')] + [Word("AS")] == [Sym('?'), Word("AS")];
  }

  lemma BracketsClose(name: string)
    requires IsWord(name)
    ensures Closed(NameText(Bracketed(name)), NameTokens(Bracketed(name)))
  {
    hide Closed, Lexes;
    SymCloses('[');
    SymCloses(']');
    WordLexes(name);
    Sandwich("[", [Sym('[')], name, [Word(name)], "]", [Sym(']')]);
    assert [Sym('[')] + [Word(name)] + [Sym(']')] == NameTokens(Bracketed(name));
  }

  lemma {:induction false} JoinTokensAppend(tss: seq<seq<Token>>, t: seq<Token>)
    requires tss != []
    ensures JoinTokens(tss + [t]) == JoinTokens(tss) + [Sym(',')] + t
  {
    if |tss| == 1 {
      assert (tss + [t])[1..] == [t];
    } else {
      JoinTokensAppend(tss[1..], t);
      assert (tss + [t])[1..] == tss[1..] + [t];
      assert tss[0] + [Sym(',')] + (JoinTokens(tss[1..]) + [Sym(',')] + t)
          == tss[0] + [Sym(',')] + JoinTokens(tss[1..]) + [Sym(',')] + t;
    }
  }

  function SourceTokenLists(names: seq<string>): (tss: seq<seq<Token>>)
    ensures |tss| == |names| && forall i :: 0 <= i < |tss| ==> tss[i] == SourceTokens(names[i])
  {
    seq(|names|, i requires 0 <= i < |names| => SourceTokens(names[i]))
  }

  lemma {:induction false} SourceCloses(names: seq<string>)
    requires AllWords(names)
    ensures Closed(SourceText(names), JoinTokens(SourceTokenLists(["id"] + names)))
  {
    hide Closed, Lexes, SourceTokens, NameText;
    if names == [] {
      AliasCloses("id");
      BlankCloses(' ');
      IdInBrackets();
      ClosedClosed("? AS " + NameText(Bracketed("id")), SourceTokens("id"), " ", []);
      assert SourceTokens("id") + [] == SourceTokens("id");
      assert ["id"] + names == ["id"];
      assert SourceTokenLists(["id"]) == [SourceTokens("id")];
    } else {
      var k := |names| - 1;
      var before, name := names[..k], names[k];
      SourceCloses(before);
      CommaCloses();
      AliasCloses(name);
      var tss := SourceTokenLists(["id"] + before);
      ClosedClosed(", ", [Sym(',')], "? AS " + NameText(Bracketed(name)), SourceTokens(name));
      ClosedClosed(SourceText(before), JoinTokens(tss), ", " + ("? AS " + NameText(Bracketed(name))),
                   [Sym(',')] + SourceTokens(name));
      CommaAs(NameText(Bracketed(name)));
      JoinTokensAppend(tss, SourceTokens(name));
      assert JoinTokens(tss) + ([Sym(',')] + SourceTokens(name)) == JoinTokens(tss) + [Sym(',')] + SourceTokens(name);
      assert SourceTokenLists(["id"] + names) == tss + [SourceTokens(name)];
    }
  }

  lemma CommaAs(s: string)
    ensures ", " + ("? AS " + s) == ", ? AS " + s
  {
  }

  lemma IdInBrackets()
    ensures "? AS " + NameText(Bracketed("id")) + " " == "? AS [id] "
  {
    assert NameText(Bracketed("id")) == "[id]";
  }

  lemma SourceReads(names: seq<string>) returns (ts: seq<Token>)
    requires AllWords(names)
    ensures Closed(SourceText(names), ts) && ReadsItems(ts, SourceItems(["id"] + names), 1, |names| + 2)
  {
    hide Closed, Lexes, Reads, ReadsItems, SourceTokens, SourceText, JoinTokens;
    var all := ["id"] + names;
    var tss := SourceTokenLists(all);
    var ns: seq<nat> := seq<nat>(|all| + 1, i requires 0 <= i => i + 1);
    ts := JoinTokens(tss);
    SourceCloses(names);
    forall i | 0 <= i < |all| ensures Reads(tss[i], SourceItems(all)[i], ns[i], ns[i + 1]) {
      assert IsWord("id");
      SourceItemReads(all[i], i + 1);
    }
    JoinedItems(tss, SourceItems(all), ns);
  }

  /** source.[name] */
  function MemberText(name: string): string {
    "source." + NameText(Bracketed(name))
  }

  function MemberTokens(table: string, name: string): seq<Token> {
    [Word(table), Sym('.')] + NameTokens(Bracketed(name))
  }

  function MemberOf(name: string): Operand {
    Member("source", Lower(name))
  }

  lemma MemberCloses(table: string, name: string)
    requires IsWord(table) && IsWord(name)
    ensures Closed(table + "." + NameText(Bracketed(name)), MemberTokens(table, name))
  {
    hide Closed, Lexes, NameText;
    WordLexes(table);
    SymCloses('.');
    LexesClosed(table, [Word(table)], ".", [Sym('.')]);
    BracketsClose(name);
    ClosedClosed(table + ".", [Word(table)] + [Sym('.')], NameText(Bracketed(name)), NameTokens(Bracketed(name)));
    assert [Word(table)] + [Sym('.')] == [Word(table), Sym('.')];
  }

  lemma TargetAndSource()
    ensures IsIdent("target") && IsIdent("source") && Lower("target") == "target" && Lower("source") == "source"
  {
    assert Upper("target") == "TARGET" && Upper("source") == "SOURCE";
    forall i | 0 <= i < |RESERVED| ensures RESERVED[i] != "TARGET" && RESERVED[i] != "SOURCE" {
      assert RESERVED[i][0] == 'T' ==> RESERVED[i] == "THEN" || RESERVED[i] == "TABLE";
      assert RESERVED[i][0] == 'S' ==> RESERVED[i] == "SET" || RESERVED[i] == "SELECT";
    }
  }

  lemma MemberItem(name: string, n: nat)
    requires IsWord(name)
    ensures Lexes(MemberText(name), MemberTokens("source", name))
    ensures ReadsOperand(MemberTokens("source", name), MemberOf(name), n, n)
  {
    hide Closed, Lexes, ReadsOperand, NameText;
    TargetAndSource();
    MemberCloses("source", name);
    assert "source" + "." == "source.";
    ClosedLexesToo(MemberText(name), MemberTokens("source", name));
    MemberReads("source", Bracketed(name), n);
  }

  function MemberTexts(names: seq<string>): (ts: seq<string>)
    ensures |ts| == |names| && forall i :: 0 <= i < |ts| ==> ts[i] == MemberText(names[i])
  {
    seq(|names|, i requires 0 <= i < |names| => MemberText(names[i]))
  }

  function Members(names: seq<string>): (its: seq<Item>)
    ensures |its| == |names| && forall i :: 0 <= i < |its| ==> its[i] == Plain(MemberOf(names[i]))
  {
    seq(|names|, i requires 0 <= i < |names| => Plain(MemberOf(names[i])))
  }

  lemma MemberListReads(names: seq<string>, n: nat) returns (ts: seq<Token>)
    requires names != [] && AllWords(names)
    ensures ReadsList(Join(MemberTexts(names), ", "), ts, Members(names), n, n)
  {
    hide Lexes, Reads, ReadsItems, JoinTokens, MemberText, MemberTokens, MemberOf, ReadsOperand;
    var tss := seq(|names|, i requires 0 <= i < |names| => MemberTokens("source", names[i]));
    var ns: seq<nat> := seq(|names| + 1, i => n);
    forall i | 0 <= i < |names|
      ensures Lexes(MemberTexts(names)[i], tss[i]) && Reads(tss[i], Members(names)[i], ns[i], ns[i + 1])
    {
      MemberItem(names[i], n);
      PlainReads(tss[i], MemberOf(names[i]), n, n);
    }
    ts := JoinTokens(tss);
    PrintedListReads(MemberTexts(names), tss, Members(names), ns);
  }

  /** [name] = source.[name] */
  function MergeSets(names: seq<string>): (ts: seq<string>)
    ensures |ts| == |names|
    ensures forall i :: 0 <= i < |ts| ==> ts[i] == NameText(Bracketed(names[i])) + " = " + MemberText(names[i])
  {
    seq(|names|, i requires 0 <= i < |names| => NameText(Bracketed(names[i])) + " = " + MemberText(names[i]))
  }

  function MergeSetItems(names: seq<string>): (its: seq<Item>)
    ensures |its| == |names| && forall i :: 0 <= i < |its| ==>
            its[i] == Equate(Col(Lower(names[i])), MemberOf(names[i]))
  {
    seq(|names|, i requires 0 <= i < |names| => Equate(Col(Lower(names[i])), MemberOf(names[i])))
  }

  function MergeSetTokens(name: string): seq<Token> {
    NameTokens(Bracketed(name)) + [Sym('=')] + MemberTokens("source", name)
  }

  lemma MergeSetItem(name: string, n: nat)
    requires IsWord(name)
    ensures Lexes(NameText(Bracketed(name)) + " = " + MemberText(name), MergeSetTokens(name))
    ensures Reads(MergeSetTokens(name), Equate(Col(Lower(name)), MemberOf(name)), n, n)
  {
    hide Closed, Lexes, Reads, ReadsOperand, MemberText, MemberTokens, MemberOf;
    NameLexes(Bracketed(name));
    ColumnReads(Bracketed(name), n);
    MemberItem(name, n);
    EquateLexes(NameText(Bracketed(name)), NameTokens(Bracketed(name)), MemberText(name), MemberTokens("source", name));
    EquateReads(NameTokens(Bracketed(name)), Col(Lower(name)), MemberTokens("source", name), MemberOf(name), n, n, n);
  }

  lemma MergeSetsRead(names: seq<string>, n: nat) returns (ts: seq<Token>)
    requires names != [] && AllWords(names)
    ensures ReadsList(Join(MergeSets(names), ", "), ts, MergeSetItems(names), n, n)
  {
    hide Lexes, Reads, ReadsItems, JoinTokens, MemberText, MergeSetTokens, MemberOf, NameText;
    var tss := seq(|names|, i requires 0 <= i < |names| => MergeSetTokens(names[i]));
    var ns: seq<nat> := seq(|names| + 1, i => n);
    forall i | 0 <= i < |names|
      ensures Lexes(MergeSets(names)[i], tss[i]) && Reads(tss[i], MergeSetItems(names)[i], ns[i], ns[i + 1])
    {
      MergeSetItem(names[i], n);
    }
    ts := JoinTokens(tss);
    PrintedListReads(MergeSets(names), tss, MergeSetItems(names), ns);
  }
}
