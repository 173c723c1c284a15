/** The statement texts the adapters build, and the statement each of them is read as. */
module Statements {
  import opened Outcomes
  import opened Text
  import opened Sql

  // ---------------------------------------------------------------- placeholders

  /** The placeholder functions the adapters pass around: "?" whatever the index, or the index
      after a fixed character ($1, :1). */
  datatype Style = Marks | Numbers(c: char)

  const DOLLAR := Numbers('$')
  const COLON := Numbers(':')

  predicate IsStyle(style: Style) {
    style == Marks || style == DOLLAR || style == COLON
  }

  function Placeholder(style: Style, k: nat): string {
    match style
    case Marks => "?"
    case Numbers(c) => [c] + Decimal(k)
  }

  function PlaceholderTokens(style: Style, k: nat): seq<Token> {
    match style
    case Marks => [Sym('?')]
    case Numbers(c) => [Sym(c), Word(Decimal(k))]
  }

  /** The reader's parameter count just before the k-th placeholder. */
  function CountBefore(style: Style, k: nat): nat {
    if style == Marks then k else 1
  }

  // ---------------------------------------------------------------- reading operands

  predicate OperandEnds(rest: seq<Token>) {
    rest == [] || rest[0] != Sym('.')
  }

  ghost predicate OperandBefore(tk: seq<Token>, op: Operand, n: nat, m: nat, rest: seq<Token>) {
    ReadOperand(tk + rest, n) == Some((op, rest, m))
  }

  ghost predicate ReadsOperand(tk: seq<Token>, op: Operand, n: nat, m: nat) {
    forall rest: seq<Token> {:trigger OperandBefore(tk, op, n, m, rest)} ::
      OperandEnds(rest) ==> OperandBefore(tk, op, n, m, rest)
  }

  /** A name as the adapters print it: bare, or in brackets. */
  datatype Name = Bare(w: string) | Bracketed(w: string)

  function NameText(name: Name): string {
    match name
    case Bare(w) => w
    case Bracketed(w) => "[" + w + "]"
  }

  function NameTokens(name: Name): seq<Token> {
    match name
    case Bare(w) => [Word(w)]
    case Bracketed(w) => [Sym('['), Word(w), Sym(']')]
  }

  predicate GoodName(name: Name) {
    IsWord(name.w) && (name.Bare? ==> IsIdent(name.w))
  }

  lemma GoodBare(w: string)
    requires IsIdent(w)
    ensures GoodName(Bare(w)) && NameText(Bare(w)) == w
  {
  }

  lemma NameReads(name: Name, rest: seq<Token>)
    requires GoodName(name)
    ensures ReadName(NameTokens(name) + rest) == Some((Lower(name.w), rest))
  {
    assert (NameTokens(name) + rest)[|NameTokens(name)|..] == rest;
  }

  lemma NameLexes(name: Name)
    requires GoodName(name)
    ensures Lexes(NameText(name), NameTokens(name))
  {
    hide Closed, Lexes;
    WordLexes(name.w);
    if name.Bracketed? {
      SymCloses('[');
      SymCloses(']');
      ClosedLexes("[", [Sym('[')], name.w, [Word(name.w)]);
      assert [Sym('[')] + [Word(name.w)] == [Sym('['), Word(name.w)];
      LexesClosed("[" + name.w, [Sym('['), Word(name.w)], "]", [Sym(']')]);
      assert [Sym('['), Word(name.w)] + [Sym(']')] == NameTokens(name);
      ClosedLexesToo(NameText(name), NameTokens(name));
    }
  }

  lemma ColumnReads(name: Name, n: nat)
    requires GoodName(name)
    ensures ReadsOperand(NameTokens(name), Col(Lower(name.w)), n, n)
  {
    forall rest: seq<Token> | OperandEnds(rest)
      ensures OperandBefore(NameTokens(name), Col(Lower(name.w)), n, n, rest)
    {
      NameReads(name, rest);
    }
  }

  /** table.name, as in source.[a]. */
  lemma MemberReads(table: string, name: Name, n: nat)
    requires IsIdent(table) && GoodName(name)
    ensures ReadsOperand([Word(table), Sym('.')] + NameTokens(name), Member(Lower(table), Lower(name.w)), n, n)
  {
    var tk := [Word(table), Sym('.')] + NameTokens(name);
    forall rest: seq<Token> | OperandEnds(rest)
      ensures OperandBefore(tk, Member(Lower(table), Lower(name.w)), n, n, rest)
    {
      NameReads(name, rest);
      assert (tk + rest)[1..][1..] == NameTokens(name) + rest;
    }
  }

  lemma PlaceholderReads(style: Style, k: nat)
    requires IsStyle(style)
    ensures Lexes(Placeholder(style, k), PlaceholderTokens(style, k))
    ensures ReadsOperand(PlaceholderTokens(style, k), Param(k), CountBefore(style, k), CountBefore(style, k + 1))
  {
    var tk := PlaceholderTokens(style, k);
    match style {
      case Marks =>
        SymCloses('?');
        assert ['?'] == "?";
        ClosedLexesToo("?", [Sym('?')]);
      case Numbers(c) =>
        SymCloses(c);
        WordLexes(Decimal(k));
        ClosedLexes([c], [Sym(c)], Decimal(k), [Word(Decimal(k))]);
        assert [Sym(c)] + [Word(Decimal(k))] == PlaceholderTokens(style, k);
        DecimalRoundTrip(k);
    }
    forall rest: seq<Token> | OperandEnds(rest)
      ensures OperandBefore(tk, Param(k), CountBefore(style, k), CountBefore(style, k + 1), rest)
    {
      assert (tk + rest)[|tk|..] == rest;
    }
  }

  // ---------------------------------------------------------------- reading items

  function Plain(op: Operand): Item {
    Item(op, None, None)
  }

  function Equate(lhs: Operand, rhs: Operand): Item {
    Item(lhs, Some(rhs), None)
  }

  lemma PlainReads(tk: seq<Token>, op: Operand, n: nat, m: nat)
    requires ReadsOperand(tk, op, n, m)
    ensures Reads(tk, Plain(op), n, m)
  {
    forall rest: seq<Token> | ItemEnds(rest)
      ensures ReadsBefore(tk, Plain(op), n, m, rest)
    {
      assert OperandBefore(tk, op, n, m, rest);
    }
  }

  lemma EquateReads(tl: seq<Token>, lhs: Operand, tr: seq<Token>, rhs: Operand, n: nat, m: nat, k: nat)
    requires ReadsOperand(tl, lhs, n, m) && ReadsOperand(tr, rhs, m, k)
    ensures Reads(tl + [Sym('=')] + tr, Equate(lhs, rhs), n, k)
  {
    var tk := tl + [Sym('=')] + tr;
    forall rest: seq<Token> | ItemEnds(rest)
      ensures ReadsBefore(tk, Equate(lhs, rhs), n, k, rest)
    {
      var tail := [Sym('=')] + (tr + rest);
      assert tk + rest == tl + tail;
      assert OperandBefore(tl, lhs, n, m, tail);
      assert tail[1..] == tr + rest;
      assert OperandBefore(tr, rhs, m, k, rest);
    }
  }

  lemma AliasReads(tk: seq<Token>, op: Operand, name: Name, n: nat, m: nat)
    requires ReadsOperand(tk, op, n, m) && GoodName(name)
    ensures Reads(tk + [Word("AS")] + NameTokens(name), Item(op, None, Some(Lower(name.w))), n, m)
  {
    var all := tk + [Word("AS")] + NameTokens(name);
    forall rest: seq<Token> | ItemEnds(rest)
      ensures ReadsBefore(all, Item(op, None, Some(Lower(name.w))), n, m, rest)
    {
      var tail := [Word("AS")] + (NameTokens(name) + rest);
      assert all + rest == tk + tail;
      assert OperandBefore(tk, op, n, m, tail);
      assert tail[1..] == NameTokens(name) + rest;
      NameReads(name, rest);
    }
  }

  lemma EquateLexes(a: string, ta: seq<Token>, b: string, tb: seq<Token>)
    requires Lexes(a, ta) && Lexes(b, tb)
    ensures Lexes(a + " = " + b, ta + [Sym('=')] + tb)
  {
    hide Closed, Lexes;
    BlankCloses(' ');
    SymCloses('=');
    ClosedClosed(" ", [], "=", [Sym('=')]);
    ClosedClosed(" " + "=", [] + [Sym('=')], " ", []);
    assert " " + "=" + " " == " = " && [] + [Sym('=')] + [] == [Sym('=')];
    LexesClosed(a, ta, " = ", [Sym('=')]);
    ClosedLexes(a + " = ", ta + [Sym('=')], b, tb);
  }

  // ---------------------------------------------------------------- lists

  function NameTexts(names: seq<Name>): seq<string> {
    seq(|names|, i requires 0 <= i < |names| => NameText(names[i]))
  }

  function Bares(ws: seq<string>): (names: seq<Name>)
    ensures |names| == |ws| && forall i :: 0 <= i < |ws| ==> names[i] == Bare(ws[i])
  {
    seq(|ws|, i requires 0 <= i < |ws| => Bare(ws[i]))
  }

  predicate GoodNames(names: seq<Name>) {
    forall i :: 0 <= i < |names| ==> GoodName(names[i])
  }

  function Columns(names: seq<Name>): (its: seq<Item>)
    ensures |its| == |names| && forall i :: 0 <= i < |its| ==> its[i] == Plain(Col(Lower(names[i].w)))
  {
    seq(|names|, i requires 0 <= i < |names| => Plain(Col(Lower(names[i].w))))
  }

  /** The placeholders lo, lo+1, .. of a statement, count of them. */
  function Placeholders(style: Style, lo: nat, count: nat): (ps: seq<string>)
    ensures |ps| == count && forall i :: 0 <= i < count ==> ps[i] == Placeholder(style, lo + i)
  {
    seq(count, i requires 0 <= i < count => Placeholder(style, lo + i))
  }

  function Params(lo: nat, count: nat): (its: seq<Item>)
    ensures |its| == count && forall i :: 0 <= i < count ==> its[i] == Plain(Param(lo + i))
  {
    seq(count, i requires 0 <= i < count => Plain(Param(lo + i)))
  }

  /** name = placeholder, for each name in turn. */
  function SetClauses(names: seq<Name>, style: Style, lo: nat): (cs: seq<string>)
    ensures |cs| == |names|
    ensures forall i :: 0 <= i < |cs| ==> cs[i] == NameText(names[i]) + " = " + Placeholder(style, lo + i)
  {
    seq(|names|, i requires 0 <= i < |names| => NameText(names[i]) + " = " + Placeholder(style, lo + i))
  }

  function Sets(names: seq<Name>, lo: nat): (its: seq<Item>)
    ensures |its| == |names|
    ensures forall i :: 0 <= i < |its| ==> its[i] == Equate(Col(Lower(names[i].w)), Param(lo + i))
  {
    seq(|names|, i requires 0 <= i < |names| => Equate(Col(Lower(names[i].w)), Param(lo + i)))
  }

  /** What a printed list turns into: its tokens lex, and its items read. */
  ghost predicate ReadsList(text: string, ts: seq<Token>, its: seq<Item>, n: nat, m: nat) {
    Lexes(text, ts) && ReadsItems(ts, its, n, m)
  }

  ghost predicate ReadsItems(ts: seq<Token>, its: seq<Item>, n: nat, m: nat) {
    forall rest: seq<Token> {:trigger ReadItems(ts + rest, n)} ::
      ItemEnds(rest) && (rest == [] || rest[0] != Sym(',')) ==> ReadItems(ts + rest, n) == Some((its, rest, m))
  }

  lemma JoinedItems(tss: seq<seq<Token>>, its: seq<Item>, ns: seq<nat>)
    requires ListOf(tss, its, ns)
    ensures ReadsItems(JoinTokens(tss), its, ns[0], ns[|its|])
  {
    hide ReadItems, Reads;
    forall rest: seq<Token> | ItemEnds(rest) && (rest == [] || rest[0] != Sym(','))
      ensures ReadItems(JoinTokens(tss) + rest, ns[0]) == Some((its, rest, ns[|its|]))
    {
      ListReads(tss, its, ns, rest);
    }
  }

  lemma PrintedListReads(parts: seq<string>, tss: seq<seq<Token>>, its: seq<Item>, ns: seq<nat>)
    requires |parts| == |tss| && ListOf(tss, its, ns)
    requires forall i :: 0 <= i < |parts| ==> Lexes(parts[i], tss[i])
    ensures ReadsList(Join(parts, ", "), JoinTokens(tss), its, ns[0], ns[|its|])
  {
    hide Lexes, Reads, ReadsItems;
    JoinLexes(parts, tss);
    JoinedItems(tss, its, ns);
  }

  lemma ColumnListReads(names: seq<Name>, n: nat) returns (ts: seq<Token>)
    requires names != [] && GoodNames(names)
    ensures ReadsList(Join(NameTexts(names), ", "), ts, Columns(names), n, n)
  {
    hide Lexes, Reads, ReadsItems, JoinTokens;
    var tss := seq(|names|, i requires 0 <= i < |names| => NameTokens(names[i]));
    var ns: seq<nat> := seq(|names| + 1, i => n);
    forall i | 0 <= i < |names|
      ensures Lexes(NameTexts(names)[i], tss[i]) && Reads(tss[i], Columns(names)[i], ns[i], ns[i + 1])
    {
      NameLexes(names[i]);
      ColumnReads(names[i], n);
      PlainReads(tss[i], Col(Lower(names[i].w)), n, n);
    }
    ts := JoinTokens(tss);
    PrintedListReads(NameTexts(names), tss, Columns(names), ns);
  }

  lemma PlaceholderItem(style: Style, k: nat)
    requires IsStyle(style)
    ensures Lexes(Placeholder(style, k), PlaceholderTokens(style, k))
    ensures Reads(PlaceholderTokens(style, k), Plain(Param(k)), CountBefore(style, k), CountBefore(style, k + 1))
  {
    hide Lexes, Reads, ReadsOperand;
    PlaceholderReads(style, k);
    PlainReads(PlaceholderTokens(style, k), Param(k), CountBefore(style, k), CountBefore(style, k + 1));
  }

  function Counts(style: Style, lo: nat, count: nat): (ns: seq<nat>)
    ensures |ns| == count + 1 && forall i :: 0 <= i <= count ==> ns[i] == CountBefore(style, lo + i)
  {
    seq<nat>(count + 1, i requires 0 <= i => CountBefore(style, lo + i))
  }

  lemma PlaceholderListReads(style: Style, lo: nat, count: nat) returns (ts: seq<Token>)
    requires IsStyle(style) && count > 0
    ensures ReadsList(Join(Placeholders(style, lo, count), ", "), ts, Params(lo, count),
                      CountBefore(style, lo), CountBefore(style, lo + count))
  {
    hide Lexes, Reads, ReadsItems, JoinTokens;
    var tss := seq(count, i requires 0 <= i < count => PlaceholderTokens(style, lo + i));
    var ns := Counts(style, lo, count);
    forall i | 0 <= i < count
      ensures Lexes(Placeholders(style, lo, count)[i], tss[i])
      ensures Reads(tss[i], Params(lo, count)[i], ns[i], ns[i + 1])
    {
      PlaceholderItem(style, lo + i);
    }
    ts := JoinTokens(tss);
    PrintedListReads(Placeholders(style, lo, count), tss, Params(lo, count), ns);
  }

  function SetClauseTokens(name: Name, style: Style, k: nat): seq<Token> {
    NameTokens(name) + [Sym('=')] + PlaceholderTokens(style, k)
  }

  lemma SetClauseItem(name: Name, style: Style, k: nat)
    requires IsStyle(style) && GoodName(name)
    ensures Lexes(NameText(name) + " = " + Placeholder(style, k), SetClauseTokens(name, style, k))
    ensures Reads(SetClauseTokens(name, style, k), Equate(Col(Lower(name.w)), Param(k)),
                  CountBefore(style, k), CountBefore(style, k + 1))
  {
    hide Lexes, Reads, ReadsOperand;
    var n := CountBefore(style, k);
    NameLexes(name);
    ColumnReads(name, n);
    PlaceholderReads(style, k);
    EquateLexes(NameText(name), NameTokens(name), Placeholder(style, k), PlaceholderTokens(style, k));
    EquateReads(NameTokens(name), Col(Lower(name.w)), PlaceholderTokens(style, k), Param(k),
                n, n, CountBefore(style, k + 1));
  }

  lemma SetClauseListReads(names: seq<Name>, style: Style, lo: nat) returns (ts: seq<Token>)
    requires IsStyle(style) && names != [] && GoodNames(names)
    ensures ReadsList(Join(SetClauses(names, style, lo), ", "), ts, Sets(names, lo),
                      CountBefore(style, lo), CountBefore(style, lo + |names|))
  {
    hide Lexes, Reads, ReadsItems, JoinTokens;
    var tss := seq(|names|, i requires 0 <= i < |names| => SetClauseTokens(names[i], style, lo + i));
    var ns := Counts(style, lo, |names|);
    forall i | 0 <= i < |names|
      ensures Lexes(SetClauses(names, style, lo)[i], tss[i])
      ensures Reads(tss[i], Sets(names, lo)[i], ns[i], ns[i + 1])
    {
      SetClauseItem(names[i], style, lo + i);
    }
    ts := JoinTokens(tss);
    PrintedListReads(SetClauses(names, style, lo), tss, Sets(names, lo), ns);
  }

  // ---------------------------------------------------------------- fixed text

  /** A blank, then words each followed by a blank. */
  lemma SpacedCloses(ws: seq<string>)
    requires forall i :: 0 <= i < |ws| ==> IsWord(ws[i])
    ensures Closed(" " + Phrase(ws), Words(ws))
  {
    hide Closed, Lexes;
    BlankCloses(' ');
    PhraseCloses(ws);
    ClosedClosed(" ", [], Phrase(ws), Words(ws));
    assert [] + Words(ws) == Words(ws);
  }

  lemma OpenCloses()
    ensures Closed(" (", [Sym('(')])
  {
    hide Closed, Lexes;
    BlankCloses(' ');
    SymCloses('(');
    ClosedClosed(" ", [], "(", [Sym('(')]);
    assert " " + "(" == " (" && [] + [Sym('(')] == [Sym('(')];
  }

  lemma ValuesCloses()
    ensures Closed(") VALUES (", [Sym(')'), Word("VALUES"), Sym('(')])
  {
    hide Closed, Lexes;
    SymCloses(')');
    SymCloses('(');
    SpacedCloses(["VALUES"]);
    ClosedClosed(")", [Sym(')')], " " + Phrase(["VALUES"]), Words(["VALUES"]));
    ClosedClosed(")" + (" " + Phrase(["VALUES"])), [Sym(')')] + Words(["VALUES"]), "(", [Sym('(')]);
    assert ")" + (" " + Phrase(["VALUES"])) + "(" == ") VALUES (";
    assert [Sym(')')] + Words(["VALUES"]) + [Sym('(')] == [Sym(')'), Word("VALUES"), Sym('(')];
  }

  lemma LexesWhole(text: string, ts: seq<Token>)
    requires Lexes(text, ts)
    ensures Lex(text) == ts
  {
    assert Gives(text, ts, "");
    assert text + "" == text;
    assert ts + [] == ts;
  }

  // ---------------------------------------------------------------- INSERT

  /** table (columns) VALUES (placeholders) */
  function InsertBody(table: string, columns: seq<string>, placeholders: seq<string>): string {
    table + " (" + Join(columns, ", ") + ") VALUES (" + Join(placeholders, ", ") + ")"
  }

  function InsertBodyTokens(table: Name, tc: seq<Token>, tv: seq<Token>): seq<Token> {
    NameTokens(table) + [Sym('(')] + tc + [Sym(')'), Word("VALUES"), Sym('(')] + tv + [Sym(')')]
  }

  lemma InsertBodyLexes(table: Name, columns: string, tc: seq<Token>, values: string, tv: seq<Token>)
    requires GoodName(table) && Lexes(columns, tc) && Lexes(values, tv)
    ensures Closed(NameText(table) + " (" + columns + ") VALUES (" + values + ")", InsertBodyTokens(table, tc, tv))
  {
    hide Closed, Lexes;
    NameLexes(table);
    OpenCloses();
    ValuesCloses();
    SymCloses(')');
    LexesClosed(NameText(table), NameTokens(table), " (", [Sym('(')]);
    ClosedLexes(NameText(table) + " (", NameTokens(table) + [Sym('(')], columns, tc);
    var a, ta := NameText(table) + " (" + columns, NameTokens(table) + [Sym('(')] + tc;
    LexesClosed(a, ta, ") VALUES (", [Sym(')'), Word("VALUES"), Sym('(')]);
    ClosedLexes(a + ") VALUES (", ta + [Sym(')'), Word("VALUES"), Sym('(')], values, tv);
    LexesClosed(a + ") VALUES (" + values, ta + [Sym(')'), Word("VALUES"), Sym('(')] + tv, ")", [Sym(')')]);
  }

  lemma SkipHead(head: seq<Token>, rest: seq<Token>)
    ensures Skip(head + rest, head) == Some(rest)
  {
    assert (head + rest)[|head|..] == rest;
  }

  const VALUES_OPEN := [Sym(')'), Word("VALUES"), Sym('(')]

  lemma InsertBodySplit(table: Name, tc: seq<Token>, tv: seq<Token>, tail: seq<Token>)
    ensures InsertBodyTokens(table, tc, tv) + tail ==
            NameTokens(table) + ([Sym('(')] + (tc + (VALUES_OPEN + (tv + ([Sym(')')] + tail)))))
  {
  }

  /** Token level: the body followed by tail. */
  lemma InsertBodyReads(table: Name, verb: Verb, tc: seq<Token>, cols: seq<Item>,
                        tv: seq<Token>, vals: seq<Item>, n: nat, m: nat, tail: seq<Token>)
    requires GoodName(table)
    requires ReadItems(tc + (VALUES_OPEN + (tv + ([Sym(')')] + tail))), 1)
             == Some((cols, VALUES_OPEN + (tv + ([Sym(')')] + tail)), n))
    requires ReadItems(tv + ([Sym(')')] + tail), n) == Some((vals, [Sym(')')] + tail, m))
    ensures ReadInsert(InsertBodyTokens(table, tc, tv) + tail, verb) ==
            if tail == [] then Some(Insert(Lower(table.w), verb, cols, vals, []))
            else ReadConflict(Insert(Lower(table.w), verb, cols, vals, []), tail, m)
  {
    var r3 := [Sym(')')] + tail;
    var r2 := VALUES_OPEN + (tv + r3);
    var r1 := [Sym('(')] + (tc + r2);
    InsertBodySplit(table, tc, tv, tail);
    NameReads(table, r1);
    SkipHead([Sym('(')], tc + r2);
    SkipHead(VALUES_OPEN, tv + r3);
    SkipHead([Sym(')')], tail);
  }

  function VerbWords(verb: Verb): seq<string> {
    match verb
    case InsertOrReplace => ["INSERT", "OR", "REPLACE", "INTO"]
    case ReplaceInto => ["REPLACE", "INTO"]
    case InsertInto => ["INSERT", "INTO"]
  }

  function VerbText(verb: Verb): string {
    match verb
    case InsertOrReplace => "INSERT OR REPLACE INTO "
    case ReplaceInto => "REPLACE INTO "
    case InsertInto => "INSERT INTO "
  }

  lemma PhraseStep(w: string, ws: seq<string>)
    ensures Phrase([w] + ws) == w + " " + Phrase(ws)
  {
    assert ([w] + ws)[1..] == ws;
  }

  lemma PhraseOne(w: string)
    ensures Phrase([w]) == w + " "
  {
    PhraseStep(w, []);
    assert [w] + [] == [w];
  }

  lemma PhraseTwo(v: string, w: string)
    ensures Phrase([v, w]) == v + " " + (w + " ")
  {
    PhraseOne(w);
    PhraseStep(v, [w]);
    assert [v] + [w] == [v, w];
  }

  lemma VerbTextIsPhrase(verb: Verb)
    ensures VerbText(verb) == Phrase(VerbWords(verb))
  {
    match verb {
      case InsertInto =>
        PhraseTwo("INSERT", "INTO");
      case ReplaceInto =>
        PhraseTwo("REPLACE", "INTO");
      case InsertOrReplace =>
        PhraseTwo("REPLACE", "INTO");
        PhraseStep("OR", ["REPLACE", "INTO"]);
        PhraseStep("INSERT", ["OR", "REPLACE", "INTO"]);
        assert ["OR"] + ["REPLACE", "INTO"] == ["OR", "REPLACE", "INTO"];
        assert ["INSERT"] + ["OR", "REPLACE", "INTO"] == ["INSERT", "OR", "REPLACE", "INTO"];
    }
  }

  function InsertText(verb: Verb, table: string, columns: seq<string>, placeholders: seq<string>): string {
    VerbText(verb) + InsertBody(table, columns, placeholders)
  }

  lemma VerbReads(verb: Verb, body: seq<Token>)
    ensures ReadStatement(Words(VerbWords(verb)) + body) == ReadInsert(body, verb)
  {
    var ts := Words(VerbWords(verb)) + body;
    assert ts[0] == Word(VerbWords(verb)[0]) && ts[1] == Word(VerbWords(verb)[1]);
    if verb.InsertOrReplace? {
      assert ts[..4] == [Word("INSERT"), Word("OR"), Word("REPLACE"), Word("INTO")];
      assert ts[4..] == body;
    } else {
      assert ts[..2] == Words(VerbWords(verb));
      assert ts[2..] == body;
    }
  }

  lemma ClosedWhole(text: string, ts: seq<Token>)
    requires Closed(text, ts)
    ensures Lex(text) == ts
  {
    assert Gives(text, ts, "");
    assert text + "" == text;
    assert ts + [] == ts;
  }

  lemma InsertLexes(verb: Verb, table: Name, columns: string, tc: seq<Token>, values: string, tv: seq<Token>)
    requires GoodName(table) && Lexes(columns, tc) && Lexes(values, tv)
    ensures Closed(VerbText(verb) + (NameText(table) + " (" + columns + ") VALUES (" + values + ")"),
                   Words(VerbWords(verb)) + InsertBodyTokens(table, tc, tv))
  {
    hide Closed, Lexes;
    InsertBodyLexes(table, columns, tc, values, tv);
    VerbTextIsPhrase(verb);
    PhraseCloses(VerbWords(verb));
    ClosedClosed(VerbText(verb), Words(VerbWords(verb)),
                 NameText(table) + " (" + columns + ") VALUES (" + values + ")", InsertBodyTokens(table, tc, tv));
  }

  lemma InsertTokensRead(table: Name, verb: Verb, columns: string, tc: seq<Token>, cols: seq<Item>,
                         values: string, tv: seq<Token>, vals: seq<Item>, m: nat, tail: seq<Token>)
    requires GoodName(table)
    requires ReadsList(columns, tc, cols, 1, 1) && ReadsList(values, tv, vals, 1, m)
    ensures ReadInsert(InsertBodyTokens(table, tc, tv) + tail, verb) ==
            if tail == [] then Some(Insert(Lower(table.w), verb, cols, vals, []))
            else ReadConflict(Insert(Lower(table.w), verb, cols, vals, []), tail, m)
  {
    var r := VALUES_OPEN + (tv + ([Sym(')')] + tail));
    assert r[0] == Sym(')');
    assert ReadItems(tc + r, 1) == Some((cols, r, 1));
    assert ([Sym(')')] + tail)[0] == Sym(')');
    assert ReadItems(tv + ([Sym(')')] + tail), 1) == Some((vals, [Sym(')')] + tail, m));
    InsertBodyReads(table, verb, tc, cols, tv, vals, 1, m, tail);
  }

  lemma InsertTextParses(verb: Verb, table: Name, columns: string, tc: seq<Token>, cols: seq<Item>,
                         values: string, tv: seq<Token>, vals: seq<Item>, m: nat)
    requires GoodName(table) && ReadsList(columns, tc, cols, 1, 1) && ReadsList(values, tv, vals, 1, m)
    ensures Parse(VerbText(verb) + (NameText(table) + " (" + columns + ") VALUES (" + values + ")"))
            == Some(Insert(Lower(table.w), verb, cols, vals, []))
  {
    hide Closed, Lexes, ReadsItems, ReadInsert, InsertBodyTokens, ReadStatement;
    InsertLexes(verb, table, columns, tc, values, tv);
    var body := InsertBodyTokens(table, tc, tv);
    ClosedWhole(VerbText(verb) + (NameText(table) + " (" + columns + ") VALUES (" + values + ")"),
                Words(VerbWords(verb)) + body);
    VerbReads(verb, body);
    InsertTokensRead(table, verb, columns, tc, cols, values, tv, vals, m, []);
    assert body + [] == body;
  }

  /** The printed INSERT is one statement in which the i-th column goes with the i-th
      parameter, whichever placeholder style it was printed in. */
  lemma InsertParses(verb: Verb, table: Name, names: seq<Name>, style: Style)
    requires GoodName(table) && GoodNames(names) && names != [] && IsStyle(style)
    ensures Parse(InsertText(verb, NameText(table), NameTexts(names), Placeholders(style, 1, |names|)))
            == Some(Insert(Lower(table.w), verb, Columns(names), Params(1, |names|), []))
  {
    hide Closed, Lexes, ReadsItems;
    var tc := ColumnListReads(names, 1);
    var tv := PlaceholderListReads(style, 1, |names|);
    InsertTextParses(verb, table, Join(NameTexts(names), ", "), tc, Columns(names),
                     Join(Placeholders(style, 1, |names|), ", "), tv, Params(1, |names|),
                       CountBefore(style, 1 + |names|));
  }

  // ---------------------------------------------------------------- UPDATE, SELECT, DELETE

  lemma Sandwich(a: string, ta: seq<Token>, b: string, tb: seq<Token>, c: string, tc: seq<Token>)
    requires Closed(a, ta) && Lexes(b, tb) && Closed(c, tc) && c != "" && Breaks(c)
    ensures Closed(a + b + c, ta + tb + tc)
  {
    hide Closed, Lexes;
    ClosedLexes(a, ta, b, tb);
    LexesClosed(a + b, ta + tb, c, tc);
  }

  /** " WORD " */
  lemma KeywordCloses(w: string)
    requires IsWord(w)
    ensures Closed(w + " ", [Word(w)]) && Closed(" " + w + " ", [Word(w)])
  {
    hide Closed, Lexes;
    SpacedCloses([w]);
    PhraseCloses([w]);
    PhraseStep(w, []);
    assert [w] + [] == [w];
    assert Phrase([w]) == w + " ";
    assert " " + (w + " ") == " " + w + " ";
    assert Words([w]) == [Word(w)];
  }

  lemma KeywordTexts()
    ensures Closed("UPDATE ", [Word("UPDATE")]) && Closed(" SET ", [Word("SET")])
    ensures Closed(" WHERE ", [Word("WHERE")]) && Closed(" FROM ", [Word("FROM")])
    ensures Closed("SELECT ", [Word("SELECT")])
    ensures Closed("DELETE FROM ", [Word("DELETE"), Word("FROM")])
  {
    KeywordCloses("UPDATE");
    assert "UPDATE" + " " == "UPDATE ";
    KeywordCloses("SET");
    assert " " + "SET" + " " == " SET ";
    KeywordCloses("WHERE");
    assert " " + "WHERE" + " " == " WHERE ";
    KeywordCloses("FROM");
    assert " " + "FROM" + " " == " FROM ";
    KeywordCloses("SELECT");
    assert "SELECT" + " " == "SELECT ";
    KeywordCloses("DELETE");
    ClosedClosed("DELETE" + " ", [Word("DELETE")], "FROM" + " ", [Word("FROM")]);
    assert "DELETE" + " " + ("FROM" + " ") == "DELETE FROM ";
    assert [Word("DELETE")] + [Word("FROM")] == [Word("DELETE"), Word("FROM")];
  }

  lemma DispatchUpdate(body: seq<Token>)
    ensures ReadStatement([Word("UPDATE")] + body) == ReadUpdate(body)
  {
    assert ([Word("UPDATE")] + body)[0] == Word("UPDATE") && ([Word("UPDATE")] + body)[1..] == body;
  }

  lemma DispatchSelect(body: seq<Token>)
    ensures ReadStatement([Word("SELECT")] + body) == ReadSelect(body)
  {
    assert ([Word("SELECT")] + body)[0] == Word("SELECT") && ([Word("SELECT")] + body)[1..] == body;
  }

  lemma DispatchDelete(body: seq<Token>)
    ensures ReadStatement([Word("DELETE"), Word("FROM")] + body) == ReadDelete(body)
  {
    var d := [Word("DELETE"), Word("FROM")] + body;
    assert d[0] == Word("DELETE") && d[1] == Word("FROM") && d[2..] == body;
  }

  /** Six pieces in a row, grouped to the right. */
  lemma Regroup(a: seq<Token>, b: seq<Token>, c: seq<Token>, d: seq<Token>, e: seq<Token>, f: seq<Token>)
    ensures a + b + c + d + e + f == a + (b + (c + (d + (e + f))))
  {
  }

  function Condition(key: string, placeholder: string): string {
    key + " = " + placeholder
  }

  function UpdateText(table: string, clauses: seq<string>, cond: string): string {
    "UPDATE " + table + " SET " + Join(clauses, ", ") + " WHERE " + cond
  }

  function SelectText(columns: seq<string>, table: string, cond: string): string {
    "SELECT " + Join(columns, ", ") + " FROM " + table + " WHERE " + cond
  }

  function DeleteText(table: string, cond: string): string {
    "DELETE FROM " + table + " WHERE " + cond
  }

  lemma UpdateLexes(table: Name, sets: string, ts: seq<Token>, cond: string, tk: seq<Token>)
    requires GoodName(table) && Lexes(sets, ts) && Lexes(cond, tk)
    ensures Lex("UPDATE " + NameText(table) + " SET " + sets + " WHERE " + cond) ==
            [Word("UPDATE")] + (NameTokens(table) + ([Word("SET")] + (ts + ([Word("WHERE")] + tk))))
  {
    hide Closed, Lexes;
    KeywordTexts();
    Regroup([Word("UPDATE")], NameTokens(table), [Word("SET")], ts, [Word("WHERE")], tk);
    NameLexes(table);
    Sandwich("UPDATE ", [Word("UPDATE")], NameText(table), NameTokens(table), " SET ", [Word("SET")]);
    var a, ta := "UPDATE " + NameText(table) + " SET ", [Word("UPDATE")] + NameTokens(table) + [Word("SET")];
    Sandwich(a, ta, sets, ts, " WHERE ", [Word("WHERE")]);
    ClosedLexes(a + sets + " WHERE ", ta + ts + [Word("WHERE")], cond, tk);
    LexesWhole(a + sets + " WHERE " + cond, ta + ts + [Word("WHERE")] + tk);
  }

  lemma SelectLexes(columns: string, ts: seq<Token>, table: Name, cond: string, tk: seq<Token>)
    requires GoodName(table) && Lexes(columns, ts) && Lexes(cond, tk)
    ensures Lex("SELECT " + columns + " FROM " + NameText(table) + " WHERE " + cond) ==
            [Word("SELECT")] + (ts + ([Word("FROM")] + (NameTokens(table) + ([Word("WHERE")] + tk))))
  {
    hide Closed, Lexes;
    KeywordTexts();
    Regroup([Word("SELECT")], ts, [Word("FROM")], NameTokens(table), [Word("WHERE")], tk);
    NameLexes(table);
    Sandwich("SELECT ", [Word("SELECT")], columns, ts, " FROM ", [Word("FROM")]);
    var a, ta := "SELECT " + columns + " FROM ", [Word("SELECT")] + ts + [Word("FROM")];
    Sandwich(a, ta, NameText(table), NameTokens(table), " WHERE ", [Word("WHERE")]);
    ClosedLexes(a + NameText(table) + " WHERE ", ta + NameTokens(table) + [Word("WHERE")], cond, tk);
    LexesWhole(a + NameText(table) + " WHERE " + cond, ta + NameTokens(table) + [Word("WHERE")] + tk);
  }

  lemma DeleteLexes(table: Name, cond: string, tk: seq<Token>)
    requires GoodName(table) && Lexes(cond, tk)
    ensures Lex("DELETE FROM " + NameText(table) + " WHERE " + cond) ==
            [Word("DELETE"), Word("FROM")] + (NameTokens(table) + ([Word("WHERE")] + tk))
  {
    hide Closed, Lexes;
    KeywordTexts();
    NameLexes(table);
    Sandwich("DELETE FROM ", [Word("DELETE"), Word("FROM")], NameText(table), NameTokens(table), " WHERE ",
             [Word("WHERE")]);
    ClosedLexes("DELETE FROM " + NameText(table) + " WHERE ",
                [Word("DELETE"), Word("FROM")] + NameTokens(table) + [Word("WHERE")], cond, tk);
    LexesWhole("DELETE FROM " + NameText(table) + " WHERE " + cond,
               [Word("DELETE"), Word("FROM")] + NameTokens(table) + [Word("WHERE")] + tk);
  }

  /** A condition read to the end of the statement. */
  ghost predicate ReadsCondition(cond: string, tk: seq<Token>, it: Item, n: nat) {
    Lexes(cond, tk) && tk != [] && exists m: nat :: ReadItem(tk, n) == Some((it, [], m))
  }

  lemma ConditionReads(key: Name, style: Style, k: nat) returns (tk: seq<Token>)
    requires GoodName(key) && IsStyle(style)
    ensures ReadsCondition(Condition(NameText(key), Placeholder(style, k)), tk,
                           Equate(Col(Lower(key.w)), Param(k)), CountBefore(style, k))
  {
    tk := SetClauseTokens(key, style, k);
    SetClauseItem(key, style, k);
    assert ReadsBefore(tk, Equate(Col(Lower(key.w)), Param(k)), CountBefore(style, k), CountBefore(style, k + 1), []);
    assert tk + [] == tk;
  }

  lemma UpdateTokensRead(table: Name, sets: string, ts: seq<Token>, its: seq<Item>, n: nat,
                         cond: string, tk: seq<Token>, it: Item)
    requires GoodName(table) && ReadsList(sets, ts, its, 1, n) && ReadsCondition(cond, tk, it, n)
    ensures ReadUpdate(NameTokens(table) + ([Word("SET")] + (ts + ([Word("WHERE")] + tk))))
            == Some(Update(Lower(table.w), its, it))
  {
    var r3 := [Word("WHERE")] + tk;
    var r2 := [Word("SET")] + (ts + r3);
    var r1 := NameTokens(table) + r2;
    NameReads(table, r2);
    SkipHead([Word("SET")], ts + r3);
    assert r3[0] == Word("WHERE");
    assert ReadItems(ts + r3, 1) == Some((its, r3, n));
    SkipHead([Word("WHERE")], tk);
  }

  lemma SelectTokensRead(columns: string, ts: seq<Token>, its: seq<Item>, table: Name,
                         cond: string, tk: seq<Token>, it: Item)
    requires GoodName(table) && ReadsList(columns, ts, its, 1, 1) && ReadsCondition(cond, tk, it, 1)
    ensures ReadSelect(ts + ([Word("FROM")] + (NameTokens(table) + ([Word("WHERE")] + tk))))
            == Some(Select(its, Lower(table.w), it))
  {
    var r3 := [Word("WHERE")] + tk;
    var r2 := [Word("FROM")] + (NameTokens(table) + r3);
    var r1 := ts + r2;
    assert r2[0] == Word("FROM");
    assert ReadItems(ts + r2, 1) == Some((its, r2, 1));
    SkipHead([Word("FROM")], NameTokens(table) + r3);
    NameReads(table, r3);
    SkipHead([Word("WHERE")], tk);
  }

  lemma DeleteTokensRead(table: Name, cond: string, tk: seq<Token>, it: Item)
    requires GoodName(table) && ReadsCondition(cond, tk, it, 1)
    ensures ReadDelete(NameTokens(table) + ([Word("WHERE")] + tk))
            == Some(Delete(Lower(table.w), it))
  {
    var r2 := [Word("WHERE")] + tk;
    var r1 := NameTokens(table) + r2;
    NameReads(table, r2);
    SkipHead([Word("WHERE")], tk);
  }

  lemma UpdateTextParses(table: Name, sets: string, ts: seq<Token>, its: seq<Item>, n: nat,
                         cond: string, tk: seq<Token>, it: Item)
    requires GoodName(table) && ReadsList(sets, ts, its, 1, n) && ReadsCondition(cond, tk, it, n)
    ensures Parse("UPDATE " + NameText(table) + " SET " + sets + " WHERE " + cond)
            == Some(Update(Lower(table.w), its, it))
  {
    UpdateLexes(table, sets, ts, cond, tk);
    UpdateTokensRead(table, sets, ts, its, n, cond, tk, it);
    DispatchUpdate(NameTokens(table) + ([Word("SET")] + (ts + ([Word("WHERE")] + tk))));
  }

  /** The printed UPDATE, in either style, with its trailing condition on the key. */
  lemma UpdateParses(table: Name, names: seq<Name>, key: Name, style: Style)
    requires GoodName(table) && GoodNames(names) && GoodName(key) && IsStyle(style) && names != []
    ensures Parse(UpdateText(NameText(table), SetClauses(names, style, 1),
                             Condition(NameText(key), Placeholder(style, |names| + 1))))
            == Some(Update(Lower(table.w), Sets(names, 1), Equate(Col(Lower(key.w)), Param(|names| + 1))))
  {
    hide Lexes, ReadsItems, ReadsCondition;
    var ts := SetClauseListReads(names, style, 1);
    var tk := ConditionReads(key, style, |names| + 1);
    UpdateTextParses(table, Join(SetClauses(names, style, 1), ", "), ts, Sets(names, 1),
                     CountBefore(style, |names| + 1),
                     Condition(NameText(key), Placeholder(style, |names| + 1)), tk,
                     Equate(Col(Lower(key.w)), Param(|names| + 1)));
  }

  lemma NothingToSet(table: Name, tk: seq<Token>)
    requires GoodName(table)
    ensures ReadUpdate(NameTokens(table) + ([Word("SET")] + ([] + ([Word("WHERE")] + tk)))) == None
  {
    var r2 := [Word("WHERE")] + tk;
    assert [] + r2 == r2;
    NameReads(table, [Word("SET")] + r2);
    SkipHead([Word("SET")], r2);
    assert r2[0] == Word("WHERE");
    ReservedWords();
    assert ReadItems(r2, 1) == None;
  }

  /** Without a column to set, the printed UPDATE is not a statement at all. */
  lemma EmptyUpdateDoesNotParse(table: Name, key: Name, style: Style)
    requires GoodName(table) && GoodName(key) && IsStyle(style)
    ensures Parse(UpdateText(NameText(table), [], Condition(NameText(key), Placeholder(style, 1)))) == None
  {
    var tk := ConditionReads(key, style, 1);
    EmptyCloses();
    assert Lexes("", []);
    UpdateLexes(table, "", [], Condition(NameText(key), Placeholder(style, 1)), tk);
    NothingToSet(table, tk);
    DispatchUpdate(NameTokens(table) + ([Word("SET")] + ([] + ([Word("WHERE")] + tk))));
  }

  /** A text that starts with UPDATE is no CREATE TABLE either. */
  lemma EmptyUpdateStart(table: Name, key: Name, style: Style)
    requires GoodName(table) && GoodName(key) && IsStyle(style)
    ensures var ts := Lex(UpdateText(NameText(table), [], Condition(NameText(key), Placeholder(style, 1))));
            ts != [] && ts[0] == Word("UPDATE")
  {
    var tk := ConditionReads(key, style, 1);
    EmptyCloses();
    ClosedLexesToo("", []);
    UpdateLexes(table, "", [], Condition(NameText(key), Placeholder(style, 1)), tk);
  }

  lemma ReservedWords()
    ensures !IsIdent("WHERE") && !IsIdent("FROM")
  {
    assert Upper("WHERE") == "WHERE" == RESERVED[7];
    assert Upper("FROM") == "FROM" == RESERVED[9];
  }

  lemma SelectParses(names: seq<Name>, table: Name, key: Name, style: Style)
    requires GoodName(table) && GoodNames(names) && GoodName(key) && IsStyle(style) && names != []
    ensures Parse(SelectText(NameTexts(names), NameText(table), Condition(NameText(key), Placeholder(style, 1))))
            == Some(Select(Columns(names), Lower(table.w), Equate(Col(Lower(key.w)), Param(1))))
  {
    hide Lexes, ReadsItems, ReadsCondition;
    var columns, cond := Join(NameTexts(names), ", "), Condition(NameText(key), Placeholder(style, 1));
    var ts := ColumnListReads(names, 1);
    var tk := ConditionReads(key, style, 1);
    SelectLexes(columns, ts, table, cond, tk);
    SelectTokensRead(columns, ts, Columns(names), table, cond, tk, Equate(Col(Lower(key.w)), Param(1)));
    DispatchSelect(ts + ([Word("FROM")] + (NameTokens(table) + ([Word("WHERE")] + tk))));
  }

  lemma NoKey(ts: seq<Token>, its: seq<Item>, columns: string, table: Name, tk: seq<Token>)
    requires GoodName(table) && ReadsList(columns, ts, its, 1, 1) && tk != [] && tk[0] == Sym('=')
    ensures ReadSelect(ts + ([Word("FROM")] + (NameTokens(table) + ([Word("WHERE")] + tk)))) == None
  {
    var r3 := [Word("WHERE")] + tk;
    var r2 := [Word("FROM")] + (NameTokens(table) + r3);
    assert ReadItems(ts + r2, 1) == Some((its, r2, 1)) by {
      assert r2[0] == Word("FROM");
    }
    assert Skip(r2, [Word("FROM")]) == Some(NameTokens(table) + r3) by { SkipHead([Word("FROM")],
            NameTokens(table) + r3); }
    NameReads(table, r3);
    assert Skip(r3, [Word("WHERE")]) == Some(tk) by { SkipHead([Word("WHERE")], tk); }
    assert ReadItem(tk, 1) == None;
  }

  /** A key that names no column of the schema leaves the condition without a left side. */
  lemma KeylessSelectDoesNotParse(names: seq<Name>, table: Name, style: Style)
    requires GoodName(table) && GoodNames(names) && IsStyle(style) && names != []
    ensures Parse(SelectText(NameTexts(names), NameText(table), Condition("", Placeholder(style, 1)))) == None
  {
    var ts := ColumnListReads(names, 1);
    PlaceholderReads(style, 1);
    EmptyCloses();
    assert Lexes("", []);
    EquateLexes("", [], Placeholder(style, 1), PlaceholderTokens(style, 1));
    var tk := [Sym('=')] + PlaceholderTokens(style, 1);
    assert [] + [Sym('=')] + PlaceholderTokens(style, 1) == tk;
    SelectLexes(Join(NameTexts(names), ", "), ts, table, Condition("", Placeholder(style, 1)), tk);
    NoKey(ts, Columns(names), Join(NameTexts(names), ", "), table, tk);
    DispatchSelect(ts + ([Word("FROM")] + (NameTokens(table) + ([Word("WHERE")] + tk))));
  }

  lemma DeleteParses(table: Name, key: Name, style: Style)
    requires GoodName(table) && GoodName(key) && IsStyle(style)
    ensures Parse(DeleteText(NameText(table), Condition(NameText(key), Placeholder(style, 1))))
            == Some(Delete(Lower(table.w), Equate(Col(Lower(key.w)), Param(1))))
  {
    hide Lexes, ReadsItems, ReadsCondition;
    var cond := Condition(NameText(key), Placeholder(style, 1));
    var tk := ConditionReads(key, style, 1);
    DeleteLexes(table, cond, tk);
    DeleteTokensRead(table, cond, tk, Equate(Col(Lower(key.w)), Param(1)));
    DispatchDelete(NameTokens(table) + ([Word("WHERE")] + tk));
  }
}
