/** SQL Server's MERGE as a whole: its text, its tokens, and the statement it is. */
module MergeTexts {
  import opened Outcomes
  import opened Text
  import opened Sql
  import opened Statements
  import opened UpsertTexts

  const MERGE_TEXT := "\n\t\tMERGE "
  const USING_TEXT := " AS target\n\t\tUSING (SELECT "
  const ON_TEXT := ") AS source\n\t\tON "
  const ID_MATCH := "target.[id] = source.[id]"
  const UPDATE_TEXT := "\n\t\tWHEN MATCHED THEN\n\t\t\tUPDATE SET "
  const INSERT_TEXT := "\n\t\tWHEN NOT MATCHED THEN\n\t\t\tINSERT ("

  function Brackets(ws: seq<string>): (names: seq<Name>)
    ensures |names| == |ws| && forall i :: 0 <= i < |ws| ==> names[i] == Bracketed(ws[i])
  {
    seq(|ws|, i requires 0 <= i < |ws| => Bracketed(ws[i]))
  }

  /** The query Insert prints for the fields names of a table. */
  function MergeText(table: string, source: string, sets: string, columns: string, values: string): string {
    MERGE_TEXT + NameText(Bracketed(table)) + USING_TEXT + source + ON_TEXT + ID_MATCH + UPDATE_TEXT + sets
    + INSERT_TEXT + columns + ") VALUES (" + values + ");"
  }

  // ---------------------------------------------------------------- fixed parts

  lemma MergeCloses()
    ensures Closed(MERGE_TEXT, [Word("MERGE")])
  {
    hide Closed;
    BlanksClose("\n\t\t");
    LayoutCloses(["MERGE"], [" "]);
    LayoutStep("MERGE", " ", [], []);
    ClosedClosed("\n\t\t", [], Layout(["MERGE"], [" "]), Words(["MERGE"]));
    assert ["MERGE"] + [] == ["MERGE"] && [" "] + [] == [" "];
    assert "\n\t\t" + Layout(["MERGE"], [" "]) == MERGE_TEXT;
    assert [] + Words(["MERGE"]) == [Word("MERGE")];
  }

  lemma Layout2(v: string, g: string, w: string, h: string)
    ensures Layout([v, w], [g, h]) == v + g + (w + h)
  {
    LayoutStep(w, h, [], []);
    LayoutStep(v, g, [w], [h]);
    assert [w] + [] == [w] && [h] + [] == [h] && [v] + [w] == [v, w] && [g] + [h] == [g, h];
    assert w + h + "" == w + h;
  }

  lemma Layout3(u: string, f: string, v: string, g: string, w: string, h: string)
    ensures Layout([u, v, w], [f, g, h]) == u + f + (v + g + (w + h))
  {
    Layout2(v, g, w, h);
    LayoutStep(u, f, [v, w], [g, h]);
    assert [u] + [v, w] == [u, v, w] && [f] + [g, h] == [f, g, h];
  }

  lemma UsingText()
    ensures " " + Layout(["AS", "target", "USING"], [" ", "\n\t\t", " "]) == " AS target\n\t\tUSING "
  {
    Layout3("AS", " ", "target", "\n\t\t", "USING", " ");
    hide Layout;
  }

  lemma OnText()
    ensures " " + Layout(["AS", "source", "ON"], [" ", "\n\t\t", " "]) == " AS source\n\t\tON "
  {
    Layout3("AS", " ", "source", "\n\t\t", "ON", " ");
    hide Layout;
  }

  lemma UsingWords()
    ensures Closed(" AS target\n\t\tUSING ", [Word("AS"), Word("target"), Word("USING")])
  {
    hide Closed;
    BlanksClose(" ");
    var ws, gaps := ["AS", "target", "USING"], [" ", "\n\t\t", " "];
    LayoutCloses(ws, gaps);
    UsingText();
    ClosedClosed(" ", [], Layout(ws, gaps), Words(ws));
    assert [] + Words(ws) == [Word("AS"), Word("target"), Word("USING")];
  }

  lemma UsingCloses()
    ensures Closed(USING_TEXT, MERGE_USING)
  {
    hide Closed;
    UsingWords();
    SymCloses('(');
    KeywordCloses("SELECT");
    ClosedClosed("(", [Sym('(')], "SELECT" + " ", [Word("SELECT")]);
    ClosedClosed(" AS target\n\t\tUSING ", [Word("AS"), Word("target"), Word("USING")],
                 "(" + ("SELECT" + " "), [Sym('(')] + [Word("SELECT")]);
    assert " AS target\n\t\tUSING " + ("(" + ("SELECT" + " ")) == USING_TEXT;
    assert [Word("AS"), Word("target"), Word("USING")] + ([Sym('(')] + [Word("SELECT")]) == MERGE_USING;
  }

  lemma OnWords()
    ensures Closed(" AS source\n\t\tON ", [Word("AS"), Word("source"), Word("ON")])
  {
    hide Closed;
    BlanksClose(" ");
    var ws, gaps := ["AS", "source", "ON"], [" ", "\n\t\t", " "];
    LayoutCloses(ws, gaps);
    OnText();
    ClosedClosed(" ", [], Layout(ws, gaps), Words(ws));
    assert [] + Words(ws) == [Word("AS"), Word("source"), Word("ON")];
  }

  lemma OnCloses()
    ensures Closed(ON_TEXT, MERGE_ON)
  {
    hide Closed;
    SymCloses(')');
    OnWords();
    ClosedClosed(")", [Sym(')')], " AS source\n\t\tON ", [Word("AS"), Word("source"), Word("ON")]);
    assert ")" + " AS source\n\t\tON " == ON_TEXT;
    assert [Sym(')')] + [Word("AS"), Word("source"), Word("ON")] == MERGE_ON;
  }

  lemma WhenNot()
    ensures Closed("\n\t\tWHEN NOT ", [Word("WHEN"), Word("NOT")])
  {
    hide Closed;
    BlanksClose("\n\t\t");
    LayoutCloses(["WHEN", "NOT"], [" ", " "]);
    Layout2("WHEN", " ", "NOT", " ");
    ClosedClosed("\n\t\t", [], Layout(["WHEN", "NOT"], [" ", " "]), Words(["WHEN", "NOT"]));
    assert "\n\t\t" + Layout(["WHEN", "NOT"], [" ", " "]) == "\n\t\tWHEN NOT ";
    assert [] + Words(["WHEN", "NOT"]) == [Word("WHEN"), Word("NOT")];
  }

  lemma MatchedThen()
    ensures Closed("MATCHED THEN\n\t\t\t", [Word("MATCHED"), Word("THEN")])
  {
    hide Closed;
    LayoutCloses(["MATCHED", "THEN"], [" ", "\n\t\t\t"]);
    Layout2("MATCHED", " ", "THEN", "\n\t\t\t");
    assert Layout(["MATCHED", "THEN"], [" ", "\n\t\t\t"]) == "MATCHED THEN\n\t\t\t";
    assert Words(["MATCHED", "THEN"]) == [Word("MATCHED"), Word("THEN")];
  }

  lemma WhenMatched()
    ensures Closed("\n\t\tWHEN MATCHED THEN\n\t\t\t", [Word("WHEN"), Word("MATCHED"), Word("THEN")])
  {
    hide Closed;
    BlanksClose("\n\t\t");
    MatchedThen();
    KeywordCloses("WHEN");
    ClosedClosed("\n\t\t", [], "WHEN" + " ", [Word("WHEN")]);
    ClosedClosed("\n\t\t" + ("WHEN" + " "), [] + [Word("WHEN")], "MATCHED THEN\n\t\t\t",
                 [Word("MATCHED"), Word("THEN")]);
    WhenMatchedText();
    assert [] + [Word("WHEN")] + [Word("MATCHED"), Word("THEN")] == [Word("WHEN"), Word("MATCHED"), Word("THEN")];
  }

  lemma WhenMatchedText()
    ensures "\n\t\t" + ("WHEN" + " ") + "MATCHED THEN\n\t\t\t" == "\n\t\tWHEN MATCHED THEN\n\t\t\t"
  {
  }

  lemma UpdateCloses()
    ensures Closed(UPDATE_TEXT, MERGE_UPDATE)
  {
    hide Closed;
    WhenMatched();
    LayoutCloses(["UPDATE", "SET"], [" ", " "]);
    Layout2("UPDATE", " ", "SET", " ");
    ClosedClosed("\n\t\tWHEN MATCHED THEN\n\t\t\t", [Word("WHEN"), Word("MATCHED"), Word("THEN")],
                 Layout(["UPDATE", "SET"], [" ", " "]), Words(["UPDATE", "SET"]));
    assert "\n\t\tWHEN MATCHED THEN\n\t\t\t" + Layout(["UPDATE", "SET"], [" ", " "]) == UPDATE_TEXT;
    assert [Word("WHEN"), Word("MATCHED"), Word("THEN")] + Words(["UPDATE", "SET"]) == MERGE_UPDATE;
  }

  lemma InsertCloses()
    ensures Closed(INSERT_TEXT, MERGE_INSERT)
  {
    hide Closed;
    WhenNot();
    MatchedThen();
    ClosedClosed("\n\t\tWHEN NOT ", [Word("WHEN"), Word("NOT")], "MATCHED THEN\n\t\t\t",
                 [Word("MATCHED"), Word("THEN")]);
    KeywordCloses("INSERT");
    SymCloses('(');
    ClosedClosed("INSERT" + " ", [Word("INSERT")], "(", [Sym('(')]);
    ClosedClosed("\n\t\tWHEN NOT " + "MATCHED THEN\n\t\t\t",
                 [Word("WHEN"), Word("NOT")] + [Word("MATCHED"), Word("THEN")],
                 "INSERT" + " " + "(", [Word("INSERT")] + [Sym('(')]);
    assert "\n\t\tWHEN NOT " + "MATCHED THEN\n\t\t\t" + ("INSERT" + " " + "(") == INSERT_TEXT;
    assert [Word("WHEN"), Word("NOT")] + [Word("MATCHED"), Word("THEN")] + ([Word("INSERT")] + [Sym('(')]) ==
      MERGE_INSERT;
  }

  lemma EndCloses()
    ensures Closed(");", [Sym(')'), Sym(';')])
  {
    hide Closed;
    SymCloses(')');
    SymCloses(';');
    ClosedClosed(")", [Sym(')')], ";", [Sym(';')]);
    assert ")" + ";" == ");" && [Sym(')')] + [Sym(';')] == [Sym(')'), Sym(';')];
  }

  // ---------------------------------------------------------------- ON target.[id] = source.[id]

  const MATCH_ITEM := Equate(Member("target", "id"), Member("source", "id"))

  function MatchTokens(): seq<Token> {
    MemberTokens("target", "id") + [Sym('=')] + MemberTokens("source", "id")
  }

  lemma LowId()
    ensures IsWord("id") && Lower("id") == "id"
  {
  }

  lemma MemberOperand(table: string, name: string, n: nat)
    requires IsIdent(table) && IsWord(name)
    ensures ReadsOperand(MemberTokens(table, name), Member(Lower(table), Lower(name)), n, n)
  {
    hide ReadsOperand;
    MemberReads(table, Bracketed(name), n);
  }

  lemma MatchReads(n: nat)
    ensures Lexes(ID_MATCH, MatchTokens()) && Reads(MatchTokens(), MATCH_ITEM, n, n)
  {
    hide Closed, Lexes, Reads, ReadsOperand, MemberTokens, Lower;
    LowId();
    TargetAndSource();
    MemberCloses("target", "id");
    MemberCloses("source", "id");
    var a, b := "target" + "." + NameText(Bracketed("id")), "source" + "." + NameText(Bracketed("id"));
    ClosedLexesToo(a, MemberTokens("target", "id"));
    ClosedLexesToo(b, MemberTokens("source", "id"));
    EquateLexes(a, MemberTokens("target", "id"), b, MemberTokens("source", "id"));
    assert a + " = " + b == ID_MATCH;
    MemberOperand("target", "id", n);
    MemberOperand("source", "id", n);
    EquateReads(MemberTokens("target", "id"), Member("target", "id"), MemberTokens("source", "id"),
                Member("source", "id"), n, n, n);
  }

  // ---------------------------------------------------------------- the whole text

  /** The tokens of a MERGE from its variable parts. */
  function MergeTokens(table: string, ts: seq<Token>, tk: seq<Token>, tu: seq<Token>, tc: seq<Token>, tv: seq<Token>)
    : seq<Token>
  {
    [Word("MERGE")] + (NameTokens(Bracketed(table)) + (MERGE_USING + (ts + (MERGE_ON + (tk + (MERGE_UPDATE
      + (tu + (MERGE_INSERT + (tc + (VALUES_OPEN + (tv + [Sym(')'), Sym(';')])))))))))))
  }

  lemma MergeFrontCloses(table: string, source: string, ts: seq<Token>)
    requires IsWord(table) && Closed(source, ts)
    ensures Closed(MERGE_TEXT + NameText(Bracketed(table)) + USING_TEXT + source + ON_TEXT,
                   [Word("MERGE")] + NameTokens(Bracketed(table)) + MERGE_USING + ts + MERGE_ON)
  {
    hide Closed, NameText, NameTokens;
    MergeCloses();
    BracketsClose(table);
    UsingCloses();
    OnCloses();
    var n, tn := NameText(Bracketed(table)), NameTokens(Bracketed(table));
    ClosedClosed(MERGE_TEXT, [Word("MERGE")], n, tn);
    ClosedClosed(MERGE_TEXT + n, [Word("MERGE")] + tn, USING_TEXT, MERGE_USING);
    ClosedClosed(MERGE_TEXT + n + USING_TEXT, [Word("MERGE")] + tn + MERGE_USING, source, ts);
    ClosedClosed(MERGE_TEXT + n + USING_TEXT + source, [Word("MERGE")] + tn + MERGE_USING + ts, ON_TEXT, MERGE_ON);
  }

  lemma MergeBackCloses(front: string, tf: seq<Token>, sets: string, tu: seq<Token>, columns: string, tc: seq<Token>,
                        values: string, tv: seq<Token>)
    requires Closed(front, tf) && Lexes(sets, tu) && Lexes(columns, tc) && Lexes(values, tv)
    ensures Closed(front + ID_MATCH + UPDATE_TEXT + sets + INSERT_TEXT + columns + ") VALUES (" + values + ");",
                   tf + MatchTokens() + MERGE_UPDATE + tu + MERGE_INSERT + tc + VALUES_OPEN + tv + [Sym(')'), Sym(';')])
  {
    hide Closed, Lexes, MatchTokens, Reads;
    MatchReads(0);
    UpdateCloses();
    InsertCloses();
    ValuesCloses();
    EndCloses();
    Sandwich(front, tf, ID_MATCH, MatchTokens(), UPDATE_TEXT, MERGE_UPDATE);
    var a, ta := front + ID_MATCH + UPDATE_TEXT, tf + MatchTokens() + MERGE_UPDATE;
    Sandwich(a, ta, sets, tu, INSERT_TEXT, MERGE_INSERT);
    var b, tb := a + sets + INSERT_TEXT, ta + tu + MERGE_INSERT;
    Sandwich(b, tb, columns, tc, ") VALUES (", VALUES_OPEN);
    Sandwich(b + columns + ") VALUES (", tb + tc + VALUES_OPEN, values, tv, ");", [Sym(')'), Sym(';')]);
  }

  lemma Regroup13<T>(a: seq<T>, b: seq<T>, c: seq<T>, d: seq<T>, e: seq<T>, f: seq<T>, g: seq<T>,
                     h: seq<T>, i: seq<T>, j: seq<T>, k: seq<T>, l: seq<T>, m: seq<T>)
    ensures (a + b + c + d + e) + f + g + h + i + j + k + l + m ==
            a + (b + (c + (d + (e + (f + (g + (h + (i + (j + (k + (l + m)))))))))))
  {
    var s := h + (i + (j + (k + (l + m))));
    assert (a + b + c + d + e) + f + g + h + i + j + k + l + m == (a + b + c + d + e + f + g) + s;
    assert (a + b + c + d + e + f + g) + s == a + (b + (c + (d + (e + (f + (g + s))))));
  }

  lemma MergeLexes(table: string, source: string, ts: seq<Token>, sets: string, tu: seq<Token>,
                   columns: string, tc: seq<Token>, values: string, tv: seq<Token>)
    requires IsWord(table) && Closed(source, ts) && Lexes(sets, tu) && Lexes(columns, tc) && Lexes(values, tv)
    ensures Lex(MergeText(table, source, sets, columns, values)) == MergeTokens(table, ts, MatchTokens(), tu, tc, tv)
  {
    hide Closed, Lexes, MatchTokens, NameText, NameTokens, Lex;
    MergeFrontCloses(table, source, ts);
    var front := MERGE_TEXT + NameText(Bracketed(table)) + USING_TEXT + source + ON_TEXT;
    var tf := [Word("MERGE")] + NameTokens(Bracketed(table)) + MERGE_USING + ts + MERGE_ON;
    MergeBackCloses(front, tf, sets, tu, columns, tc, values, tv);
    var back := tf + MatchTokens() + MERGE_UPDATE + tu + MERGE_INSERT + tc + VALUES_OPEN + tv + [Sym(')'), Sym(';')];
    ClosedWhole(front + ID_MATCH + UPDATE_TEXT + sets + INSERT_TEXT + columns + ") VALUES (" + values + ");", back);
    Regroup13([Word("MERGE")], NameTokens(Bracketed(table)), MERGE_USING, ts, MERGE_ON, MatchTokens(), MERGE_UPDATE, tu,
              MERGE_INSERT, tc, VALUES_OPEN, tv, [Sym(')'), Sym(';')]);
  }

  // ---------------------------------------------------------------- reading it

  lemma TailReads(t: string, source: seq<Item>, on: Item, sets: seq<Item>, tc: seq<Token>, cols: seq<Item>,
                  tv: seq<Token>, vals: seq<Item>, n: nat)
    requires ReadsItems(tc, cols, n, n) && ReadsItems(tv, vals, n, n)
    ensures var end := [Sym(')'), Sym(';')]; var r := tc + (VALUES_OPEN + (tv + end));
            && ReadItems(r, n) == Some((cols, VALUES_OPEN + (tv + end), n))
            && Skip(VALUES_OPEN + (tv + end), VALUES_OPEN) == Some(tv + end)
            && ReadItems(tv + end, n) == Some((vals, end, n))
  {
    hide ReadItems;
    var end := [Sym(')'), Sym(';')];
    assert (VALUES_OPEN + (tv + end))[0] == Sym(')');
    SkipHead(VALUES_OPEN, tv + end);
  }

  lemma OnItemReads(n: nat, rest: seq<Token>)
    ensures ReadItem(MatchTokens() + (MERGE_UPDATE + rest), n) == Some((MATCH_ITEM, MERGE_UPDATE + rest, n))
  {
    hide Lexes, ReadItem, MatchTokens;
    MatchReads(n);
    assert (MERGE_UPDATE + rest)[0] == Word("WHEN");
    assert ReadsBefore(MatchTokens(), MATCH_ITEM, n, n, MERGE_UPDATE + rest);
  }

  lemma NoSets(rest: seq<Token>, n: nat)
    ensures ReadItems([] + (MERGE_INSERT + rest), n) == None
  {
    var ts := [] + (MERGE_INSERT + rest);
    assert ts[0] == Word("WHEN");
    assert Upper("WHEN") == "WHEN" == RESERVED[12];
  }

  /** Reading after the ON clause. */
  function ReadBranches(t: string, source: seq<Item>, on: Item, ts: seq<Token>, n: nat): Option<Statement> {
    var r :- Skip(ts, MERGE_UPDATE);
    var (sets, r, n) :- ReadItems(r, n);
    var r :- Skip(r, MERGE_INSERT);
    var (cols, r, n) :- ReadItems(r, n);
    var r :- Skip(r, [Sym(')'), Word("VALUES"), Sym('(')]);
    var (vals, r, n) :- ReadItems(r, n);
    if r == [Sym(')'), Sym(';')] then Some(Merge(t, source, on, sets, cols, vals)) else None
  }

  lemma BranchesRead(t: string, source: seq<Item>, on: Item, tu: seq<Token>, sets: seq<Item>, tc: seq<Token>,
                     cols: seq<Item>, tv: seq<Token>, vals: seq<Item>, n: nat)
    requires tu == [] || ReadsItems(tu, sets, n, n)
    requires ReadsItems(tc, cols, n, n) && ReadsItems(tv, vals, n, n)
    ensures ReadBranches(t, source, on, MERGE_UPDATE
                         + (tu + (MERGE_INSERT + (tc + (VALUES_OPEN + (tv + [Sym(')'), Sym(';')]))))), n)
            == if tu == [] then None else Some(Merge(t, source, on, sets, cols, vals))
  {
    hide ReadItems;
    var end := [Sym(')'), Sym(';')];
    var r := tc + (VALUES_OPEN + (tv + end));
    SkipHead(MERGE_UPDATE, tu + (MERGE_INSERT + r));
    SkipHead(MERGE_INSERT, r);
    TailReads(t, source, on, sets, tc, cols, tv, vals, n);
    if tu == [] {
      NoSets(r, n);
    } else {
      assert (MERGE_INSERT + r)[0] == Word("WHEN");
      assert ReadItems(tu + (MERGE_INSERT + r), n) == Some((sets, MERGE_INSERT + r, n));
    }
  }

  lemma MergeHeadReads(table: string, ts: seq<Token>, source: seq<Item>, n: nat, rest: seq<Token>)
    requires IsWord(table) && ReadsItems(ts, source, 1, n)
    ensures ReadStatement([Word("MERGE")] + (NameTokens(Bracketed(table))
                                             + (MERGE_USING + (ts
                                                               + (MERGE_ON + (MatchTokens()
                                                                              + (MERGE_UPDATE + rest)))))))
            == ReadBranches(Lower(table), source, MATCH_ITEM, MERGE_UPDATE + rest, n)
  {
    hide ReadItems, MatchTokens, ReadItem;
    var r4 := MatchTokens() + (MERGE_UPDATE + rest);
    var r3 := MERGE_ON + r4;
    var r2 := MERGE_USING + (ts + r3);
    var r1 := NameTokens(Bracketed(table)) + r2;
    MergeDispatch(r1);
    NameReads(Bracketed(table), r2);
    SkipHead(MERGE_USING, ts + r3);
    assert r3[0] == Sym(')');
    assert ReadItems(ts + r3, 1) == Some((source, r3, n));
    SkipHead(MERGE_ON, r4);
    OnItemReads(n, rest);
  }

  lemma MergeDispatch(body: seq<Token>)
    ensures ReadStatement([Word("MERGE")] + body) == ReadMerge(body)
  {
    hide ReadMerge;
    assert ([Word("MERGE")] + body)[0] == Word("MERGE") && ([Word("MERGE")] + body)[1..] == body;
  }

  lemma AllIdWords(names: seq<string>)
    requires AllWords(names)
    ensures AllWords(["id"] + names)
  {
    LowId();
  }

  /** The printed MERGE: its source row holds the parameters under the names of their columns,
      and both branches take each column from the source column of the same name. Without a
      column to set it is not a statement. */
  lemma MergeParses(table: string, names: seq<string>)
    requires IsWord(table) && AllWords(names)
    ensures var all := ["id"] + names;
            Parse(MergeText(table, SourceText(names), Join(MergeSets(names), ", "),
                            Join(NameTexts(Brackets(all)), ", "), Join(MemberTexts(all), ", ")))
            == if names == [] then None
               else Some(Merge(Lower(table), SourceItems(all), MATCH_ITEM, MergeSetItems(names),
                               Columns(Brackets(all)), Members(all)))
  {
    hide Closed, Lexes, ReadsItems, MergeText, MatchTokens, SourceText, Lex, ReadStatement, ReadBranches, IsWord;
    var all, n := ["id"] + names, |names| + 2;
    AllIdWords(names);
    var ts := SourceReads(names);
    var tc := ColumnListReads(Brackets(all), n);
    var tv := MemberListReads(all, n);
    var tu: seq<Token> := [];
    if names == [] {
      EmptyCloses();
      ClosedLexesToo("", []);
      assert Join(MergeSets(names), ", ") == "";
    } else {
      tu := MergeSetsRead(names, n);
      NotEmpty(tu, MergeSetItems(names), n);
    }
    MergeLexes(table, SourceText(names), ts, Join(MergeSets(names), ", "), tu, Join(NameTexts(Brackets(all)), ", "),
               tc, Join(MemberTexts(all), ", "), tv);
    MergeHeadReads(table, ts, SourceItems(all), n,
                   tu + (MERGE_INSERT + (tc + (VALUES_OPEN + (tv + [Sym(')'), Sym(';')])))));
    BranchesRead(Lower(table), SourceItems(all), MATCH_ITEM, tu, MergeSetItems(names), tc, Columns(Brackets(all)), tv,
                 Members(all), n);
  }

  lemma NotEmpty(ts: seq<Token>, its: seq<Item>, n: nat)
    requires ReadsItems(ts, its, n, n)
    ensures ts != []
  {
    assert ReadItems(ts + [], n) == Some((its, [], n));
    assert ts + [] == ts;
  }
}
