/** The SQL the adapters print, read back: a lexer, a statement grammar, and the facts that
    let a printed statement be read piece by piece. */
module Sql {
  import opened Outcomes
  import opened Text

  // ---------------------------------------------------------------- lexer

  datatype Token = Word(w: string) | Sym(c: char) | Quoted(s: string)

  predicate IsWordChar(c: char) {
    'a' <= c <= 'z' || 'A' <= c <= 'Z' || '0' <= c <= '9' || c == '_'
  }

  predicate IsBlank(c: char) {
    c == ' ' || c == '\t' || c == '\n'
  }

  function WordLength(s: string): (n: nat)
    ensures n <= |s|
    ensures forall i :: 0 <= i < n ==> IsWordChar(s[i])
    ensures n < |s| ==> !IsWordChar(s[n])
  {
    if s != "" && IsWordChar(s[0]) then 1 + WordLength(s[1..]) else 0
  }

  /** Characters before the first single quote. */
  function QuoteLength(s: string): (n: nat)
    ensures n <= |s|
    ensures forall i :: 0 <= i < n ==> s[i] != '\''
    ensures n < |s| ==> s[n] == '\''
  {
    if s != "" && s[0] != '\'' then 1 + QuoteLength(s[1..]) else 0
  }

  function Lex(s: string): seq<Token>
    decreases |s|
  {
    if s == "" then []
    else if IsBlank(s[0]) then Lex(s[1..])
    else if IsWordChar(s[0]) then
      var n := WordLength(s);
      [Word(s[..n])] + Lex(s[n..])
    else if s[0] == '\'' && QuoteLength(s[1..]) < |s| - 1 then
      var n := QuoteLength(s[1..]);
      [Quoted(s[1..n + 1])] + Lex(s[n + 2..])
    else [Sym(s[0])] + Lex(s[1..])
  }

  predicate Breaks(s: string) {
    s == "" || !IsWordChar(s[0])
  }

  /** In front of rest, the text a contributes exactly the tokens ts. */
  ghost predicate Gives(a: string, ts: seq<Token>, rest: string) {
    Lex(a + rest) == ts + Lex(rest)
  }

  /** a reads as ts whatever text follows it. */
  ghost predicate Closed(a: string, ts: seq<Token>) {
    forall rest: string {:trigger Gives(a, ts, rest)} :: Gives(a, ts, rest)
  }

  /** a reads as ts as long as the text after it does not go on with a word. */
  ghost predicate Lexes(a: string, ts: seq<Token>) {
    forall rest: string {:trigger Gives(a, ts, rest)} :: Breaks(rest) ==> Gives(a, ts, rest)
  }

  lemma ClosedLexesToo(a: string, ts: seq<Token>)
    requires Closed(a, ts)
    ensures Lexes(a, ts)
  {
    forall rest: string | Breaks(rest) ensures Gives(a, ts, rest) {
    }
  }

  predicate IsWord(w: string) {
    w != "" && forall i :: 0 <= i < |w| ==> IsWordChar(w[i])
  }

  lemma WordLexes(w: string)
    requires IsWord(w)
    ensures Lexes(w, [Word(w)])
  {
    forall rest: string | Breaks(rest)
      ensures Gives(w, [Word(w)], rest)
    {
      var s := w + rest;
      assert s[..|w|] == w && s[|w|..] == rest;
      assert s[0] == w[0];
      assert WordLength(s) >= |w|;
      assert WordLength(s) <= |w|;
    }
  }

  lemma BlankCloses(c: char)
    requires IsBlank(c)
    ensures Closed([c], [])
  {
    forall rest: string ensures Gives([c], [], rest) {
      assert ([c] + rest)[1..] == rest;
      assert [] + Lex(rest) == Lex(rest);
    }
  }

  lemma SymCloses(c: char)
    requires !IsBlank(c) && !IsWordChar(c) && c != '\''
    ensures Closed([c], [Sym(c)])
  {
    forall rest: string ensures Gives([c], [Sym(c)], rest) {
      assert ([c] + rest)[1..] == rest;
    }
  }

  lemma {:induction false} QuoteEnds(lit: string, rest: string)
    requires '\'' !in lit
    ensures QuoteLength(lit + ['\''] + rest) == |lit|
  {
    var s := lit + ['\''] + rest;
    if lit == "" {
      assert s[0] == '\'';
    } else {
      assert s[0] == lit[0];
      assert s[1..] == lit[1..] + ['\''] + rest;
      QuoteEnds(lit[1..], rest);
    }
  }

  lemma QuotedCloses(lit: string)
    requires '\'' !in lit
    ensures Closed(['\''] + lit + ['\''], [Quoted(lit)])
  {
    forall rest: string ensures Gives(['\''] + lit + ['\''], [Quoted(lit)], rest) {
      QuoteEnds(lit, rest);
      var body := lit + ['\''] + rest;
      var s := ['\''] + lit + ['\''] + rest;
      assert s == ['\''] + body;
      assert s[1..] == body;
      assert s[1..|lit| + 1] == lit && s[|lit| + 2..] == rest;
    }
  }

  lemma EmptyCloses()
    ensures Closed("", [])
  {
    forall rest: string ensures Gives("", [], rest) {
      assert "" + rest == rest;
      assert [] + Lex(rest) == Lex(rest);
    }
  }

  lemma GivesTwo(a: string, ta: seq<Token>, b: string, tb: seq<Token>, rest: string)
    requires Gives(a, ta, b + rest) && Gives(b, tb, rest)
    ensures Gives(a + b, ta + tb, rest)
  {
    assert a + b + rest == a + (b + rest);
    assert ta + tb + Lex(rest) == ta + (tb + Lex(rest));
  }

  lemma ClosedClosed(a: string, ta: seq<Token>, b: string, tb: seq<Token>)
    requires Closed(a, ta) && Closed(b, tb)
    ensures Closed(a + b, ta + tb)
  {
    forall rest: string ensures Gives(a + b, ta + tb, rest) {
      GivesTwo(a, ta, b, tb, rest);
    }
  }

  lemma ClosedLexes(a: string, ta: seq<Token>, b: string, tb: seq<Token>)
    requires Closed(a, ta) && Lexes(b, tb)
    ensures Lexes(a + b, ta + tb)
  {
    forall rest: string | Breaks(rest) ensures Gives(a + b, ta + tb, rest) {
      GivesTwo(a, ta, b, tb, rest);
    }
  }

  lemma LexesClosed(a: string, ta: seq<Token>, b: string, tb: seq<Token>)
    requires Lexes(a, ta) && Closed(b, tb) && b != "" && Breaks(b)
    ensures Closed(a + b, ta + tb)
  {
    forall rest: string ensures Gives(a + b, ta + tb, rest) {
      assert (b + rest)[0] == b[0];
      GivesTwo(a, ta, b, tb, rest);
    }
  }

  lemma LexesLexes(a: string, ta: seq<Token>, b: string, tb: seq<Token>)
    requires Lexes(a, ta) && Lexes(b, tb) && Breaks(b)
    ensures Lexes(a + b, ta + tb)
  {
    forall rest: string | Breaks(rest) ensures Gives(a + b, ta + tb, rest) {
      if b != "" { assert (b + rest)[0] == b[0]; } else { assert b + rest == rest; }
      GivesTwo(a, ta, b, tb, rest);
    }
  }

  function Words(ws: seq<string>): (ts: seq<Token>)
    ensures |ts| == |ws| && forall i :: 0 <= i < |ws| ==> ts[i] == Word(ws[i])
  {
    seq(|ws|, i requires 0 <= i < |ws| => Word(ws[i]))
  }

  /** Words, each followed by one blank: the fixed parts of the printed statements. */
  function Phrase(ws: seq<string>): string {
    if ws == [] then "" else ws[0] + " " + Phrase(ws[1..])
  }

  lemma {:induction false} PhraseCloses(ws: seq<string>)
    requires forall i :: 0 <= i < |ws| ==> IsWord(ws[i])
    ensures Closed(Phrase(ws), Words(ws))
  {
    hide Closed, Lexes;
    if ws == [] {
      EmptyCloses();
    } else {
      WordLexes(ws[0]);
      BlankCloses(' ');
      LexesClosed(ws[0], [Word(ws[0])], " ", []);
      PhraseCloses(ws[1..]);
      ClosedClosed(ws[0] + " ", [Word(ws[0])] + [], Phrase(ws[1..]), Words(ws[1..]));
      assert [Word(ws[0])] + [] + Words(ws[1..]) == Words(ws);
    }
  }

  function JoinTokens(tss: seq<seq<Token>>): seq<Token> {
    if |tss| == 0 then []
    else if |tss| == 1 then tss[0]
    else tss[0] + [Sym(',')] + JoinTokens(tss[1..])
  }

  lemma CommaCloses()
    ensures Closed(", ", [Sym(',')])
  {
    hide Closed, Lexes;
    SymCloses(',');
    BlankCloses(' ');
    ClosedClosed([','], [Sym(',')], [' '], []);
    assert [','] + [' '] == ", " && [Sym(',')] + [] == [Sym(',')];
  }

  lemma {:induction false} JoinLexes(parts: seq<string>, tss: seq<seq<Token>>)
    requires |parts| == |tss|
    requires forall i :: 0 <= i < |parts| ==> Lexes(parts[i], tss[i])
    ensures Lexes(Join(parts, ", "), JoinTokens(tss))
  {
    hide Closed, Lexes;
    if |parts| == 0 {
      EmptyCloses();
      ClosedLexesToo("", []);
    } else if |parts| > 1 {
      JoinLexes(parts[1..], tss[1..]);
      CommaCloses();
      LexesClosed(parts[0], tss[0], ", ", [Sym(',')]);
      ClosedLexes(parts[0] + ", ", tss[0] + [Sym(',')], Join(parts[1..], ", "), JoinTokens(tss[1..]));
    }
  }

  // ---------------------------------------------------------------- grammar

  /** Words no table or column may be called. */
  const RESERVED: seq<string> := [
    "INSERT", "INTO", "VALUES", "OR", "ON", "UPDATE", "SET", "WHERE", "SELECT", "FROM", "DELETE",
    "AS", "WHEN", "THEN", "NOT", "NULL", "DEFAULT", "UNIQUE", "PRIMARY", "CREATE", "TABLE",
    "AUTOINCREMENT"]

  /** A plain identifier: a word that does not start with a digit and is not reserved. */
  predicate IsIdent(w: string) {
    IsWord(w) && !('0' <= w[0] <= '9') && Upper(w) !in RESERVED
  }

  datatype Operand = Col(name: string) | Param(n: nat) | Member(table: string, name: string)

  /** One element of a comma-separated list: an operand, perhaps equated to another operand,
      perhaps given an alias. */
  datatype Item = Item(lhs: Operand, rhs: Option<Operand>, alias: Option<string>)

  /** The three ways of starting an INSERT. */
  datatype Verb = InsertOrReplace | ReplaceInto | InsertInto

  /** An upsert tail is an empty list when the statement has none. */
  datatype Statement =
    | Insert(table: string, verb: Verb, cols: seq<Item>, vals: seq<Item>, conflict: seq<Item>)
    | Update(table: string, sets: seq<Item>, cond: Item)
    | Select(cols: seq<Item>, table: string, cond: Item)
    | Delete(table: string, cond: Item)
    | Merge(table: string, source: seq<Item>, on: Item, sets: seq<Item>,
            cols: seq<Item>, vals: seq<Item>)

  function Skip(ts: seq<Token>, head: seq<Token>): (r: Option<seq<Token>>)
    ensures r.Some? ==> |r.value| + |head| == |ts|
  {
    if head <= ts then Some(ts[|head|..]) else None
  }

  /** A name, bare or in brackets. Names are case-insensitive: the reader folds them. */
  function ReadName(ts: seq<Token>): (r: Option<(string, seq<Token>)>)
    ensures r.Some? ==> |r.value.1| < |ts|
  {
    if ts != [] && ts[0].Word? then
      if IsIdent(ts[0].w) then Some((Lower(ts[0].w), ts[1..])) else None
    else if |ts| >= 3 && ts[0] == Sym('[') && ts[1].Word? && ts[2] == Sym(']') then
      Some((Lower(ts[1].w), ts[3..]))
    else None
  }

  /** An operand. A bare ? is the parameter after the last one read; $n and :n name theirs. */
  function ReadOperand(ts: seq<Token>, next: nat): (r: Option<(Operand, seq<Token>, nat)>)
    ensures r.Some? ==> |r.value.1| < |ts|
  {
    if ts != [] && ts[0] == Sym('?') then
      Some((Param(next), ts[1..], next + 1))
    else if |ts| >= 2 && (ts[0] == Sym('$') || ts[0] == Sym(':')) then
      if ts[1].Word? && IsNumeral(ts[1].w) then Some((Param(ReadDecimal(ts[1].w)), ts[2..], next))
      else None
    else
      var (w, r) :- ReadName(ts);
      if r != [] && r[0] == Sym('.') then
        var (m, r') :- ReadName(r[1..]);
        Some((Member(w, m), r', next))
      else Some((Col(w), r, next))
  }

  function ReadItem(ts: seq<Token>, next: nat): (r: Option<(Item, seq<Token>, nat)>)
    ensures r.Some? ==> |r.value.1| < |ts|
  {
    var (lhs, r, n) :- ReadOperand(ts, next);
    if r != [] && r[0] == Sym('=') then
      var (rhs, r', n') :- ReadOperand(r[1..], n);
      Some((Item(lhs, Some(rhs), None), r', n'))
    else if r != [] && r[0] == Word("AS") then
      var (a, r') :- ReadName(r[1..]);
      Some((Item(lhs, None, Some(a)), r', n))
    else Some((Item(lhs, None, None), r, n))
  }

  /** One or more items. */
  function ReadItems(ts: seq<Token>, next: nat): (r: Option<(seq<Item>, seq<Token>, nat)>)
    ensures r.Some? ==> |r.value.1| < |ts| && r.value.0 != []
    decreases |ts|
  {
    var (it, r, n) :- ReadItem(ts, next);
    if r != [] && r[0] == Sym(',') then
      var (rest, r', n') :- ReadItems(r[1..], n);
      Some(([it] + rest, r', n'))
    else Some(([it], r, n))
  }

  function ReadInsert(ts: seq<Token>, verb: Verb): Option<Statement> {
    var (t, r) :- ReadName(ts);
    var r :- Skip(r, [Sym('(')]);
    var (cols, r, n) :- ReadItems(r, 1);
    var r :- Skip(r, [Sym(')'), Word("VALUES"), Sym('(')]);
    var (vals, r, n) :- ReadItems(r, n);
    var r :- Skip(r, [Sym(')')]);
    if r == [] then Some(Insert(t, verb, cols, vals, []))
    else ReadConflict(Insert(t, verb, cols, vals, []), r, n)
  }

  function ReadConflict(ins: Statement, ts: seq<Token>, next: nat): Option<Statement>
    requires ins.Insert?
  {
    var r :- Skip(ts, ON_CONFLICT);
    var (sets, r, n) :- ReadItems(r, next);
    if r == [] then Some(ins.(conflict := sets)) else None
  }

  const ON_CONFLICT := [Word("ON"), Word("CONFLICT"), Sym('('), Word("id"), Sym(')'),
                        Word("DO"), Word("UPDATE"), Word("SET")]

  function ReadUpdate(ts: seq<Token>): Option<Statement> {
    var (t, r) :- ReadName(ts);
    var r :- Skip(r, [Word("SET")]);
    var (sets, r, n) :- ReadItems(r, 1);
    var r :- Skip(r, [Word("WHERE")]);
    var (cond, r, n) :- ReadItem(r, n);
    if r == [] then Some(Update(t, sets, cond)) else None
  }

  function ReadSelect(ts: seq<Token>): Option<Statement> {
    var (cols, r, n) :- ReadItems(ts, 1);
    var r :- Skip(r, [Word("FROM")]);
    var (t, r) :- ReadName(r);
    var r :- Skip(r, [Word("WHERE")]);
    var (cond, r, n) :- ReadItem(r, n);
    if r == [] then Some(Select(cols, t, cond)) else None
  }

  function ReadDelete(ts: seq<Token>): Option<Statement> {
    var (t, r) :- ReadName(ts);
    var r :- Skip(r, [Word("WHERE")]);
    var (cond, r, n) :- ReadItem(r, 1);
    if r == [] then Some(Delete(t, cond)) else None
  }

  const MERGE_USING := [Word("AS"), Word("target"), Word("USING"), Sym('('), Word("SELECT")]
  const MERGE_ON := [Sym(')'), Word("AS"), Word("source"), Word("ON")]
  const MERGE_UPDATE := [Word("WHEN"), Word("MATCHED"), Word("THEN"), Word("UPDATE"), Word("SET")]
  const MERGE_INSERT := [Word("WHEN"), Word("NOT"), Word("MATCHED"), Word("THEN"), Word("INSERT"), Sym('(')]

  function ReadMerge(ts: seq<Token>): Option<Statement> {
    var (t, r) :- ReadName(ts);
    var r :- Skip(r, MERGE_USING);
    var (source, r, n) :- ReadItems(r, 1);
    var r :- Skip(r, MERGE_ON);
    var (on, r, n) :- ReadItem(r, n);
    var r :- Skip(r, MERGE_UPDATE);
    var (sets, r, n) :- ReadItems(r, n);
    var r :- Skip(r, MERGE_INSERT);
    var (cols, r, n) :- ReadItems(r, n);
    var r :- Skip(r, [Sym(')'), Word("VALUES"), Sym('(')]);
    var (vals, r, n) :- ReadItems(r, n);
    if r == [Sym(')'), Sym(';')] then Some(Merge(t, source, on, sets, cols, vals)) else None
  }

  function ReadStatement(ts: seq<Token>): Option<Statement> {
    if [Word("INSERT"), Word("OR"), Word("REPLACE"), Word("INTO")] <= ts then ReadInsert(ts[4..], InsertOrReplace)
    else if [Word("REPLACE"), Word("INTO")] <= ts then ReadInsert(ts[2..], ReplaceInto)
    else if [Word("INSERT"), Word("INTO")] <= ts then ReadInsert(ts[2..], InsertInto)
    else if [Word("UPDATE")] <= ts then ReadUpdate(ts[1..])
    else if [Word("SELECT")] <= ts then ReadSelect(ts[1..])
    else if [Word("DELETE"), Word("FROM")] <= ts then ReadDelete(ts[2..])
    else if [Word("MERGE")] <= ts then ReadMerge(ts[1..])
    else None
  }

  /** The statement a text stands for, if it is one. */
  function Parse(text: string): Option<Statement> {
    ReadStatement(Lex(text))
  }

  // ---------------------------------------------------------------- reading what was printed

  /** Tokens that end an item. */
  predicate ItemEnds(rest: seq<Token>) {
    rest == [] || (rest[0] != Sym('=') && rest[0] != Sym('.') && rest[0] != Word("AS"))
  }

  ghost predicate ReadsBefore(tk: seq<Token>, it: Item, n: nat, m: nat, rest: seq<Token>) {
    ReadItem(tk + rest, n) == Some((it, rest, m))
  }

  /** tk is the item it; n and m are the parameters read before and after it. */
  ghost predicate Reads(tk: seq<Token>, it: Item, n: nat, m: nat) {
    forall rest: seq<Token> {:trigger ReadsBefore(tk, it, n, m, rest)} ::
      ItemEnds(rest) ==> ReadsBefore(tk, it, n, m, rest)
  }

  lemma LastReads(tk: seq<Token>, it: Item, n: nat, m: nat, rest: seq<Token>)
    requires ReadsBefore(tk, it, n, m, rest)
    requires rest == [] || rest[0] != Sym(',')
    ensures ReadItems(tk + rest, n) == Some(([it], rest, m))
  {
  }

  lemma FirstReads(tk: seq<Token>, it: Item, n: nat, m: nat, more: seq<Token>,
                   its: seq<Item>, rest: seq<Token>, k: nat)
    requires ReadsBefore(tk, it, n, m, [Sym(',')] + more)
    requires ReadItems(more, m) == Some((its, rest, k))
    ensures ReadItems(tk + ([Sym(',')] + more), n) == Some(([it] + its, rest, k))
  {
    assert ([Sym(',')] + more)[1..] == more;
  }

  lemma JoinTokensStep(tss: seq<seq<Token>>, rest: seq<Token>)
    requires |tss| > 1
    ensures JoinTokens(tss) + rest == tss[0] + ([Sym(',')] + (JoinTokens(tss[1..]) + rest))
  {
  }

  /** The i-th element is the item its[i], read when ns[i] parameters have been counted. */
  ghost predicate ListOf(tss: seq<seq<Token>>, its: seq<Item>, ns: seq<nat>) {
    && |tss| == |its| == |ns| - 1 && |tss| > 0
    && forall i :: 0 <= i < |its| ==> Reads(tss[i], its[i], ns[i], ns[i + 1])
  }

  /** A printed list is read back element by element. */
  lemma {:induction false} ListReads(tss: seq<seq<Token>>, its: seq<Item>, ns: seq<nat>, rest: seq<Token>)
    requires ListOf(tss, its, ns)
    requires ItemEnds(rest) && (rest == [] || rest[0] != Sym(','))
    ensures ReadItems(JoinTokens(tss) + rest, ns[0]) == Some((its, rest, ns[|its|]))
  {
    hide ReadItems, ReadItem, Lex;
    assert Reads(tss[0], its[0], ns[0], ns[1]);
    if |tss| == 1 {
      assert ReadsBefore(tss[0], its[0], ns[0], ns[1], rest);
      LastReads(tss[0], its[0], ns[0], ns[1], rest);
      assert its == [its[0]];
    } else {
      var more := JoinTokens(tss[1..]) + rest;
      JoinTokensStep(tss, rest);
      assert ReadItems(more, ns[1]) == Some((its[1..], rest, ns[|its|])) by {
        forall i | 0 <= i < |its| - 1
          ensures Reads(tss[1..][i], its[1..][i], ns[1..][i], ns[1..][i + 1])
        {
          assert Reads(tss[i + 1], its[i + 1], ns[i + 1], ns[i + 2]);
        }
        ListReads(tss[1..], its[1..], ns[1..], rest);
      }
      assert ReadsBefore(tss[0], its[0], ns[0], ns[1], [Sym(',')] + more);
      FirstReads(tss[0], its[0], ns[0], ns[1], more, its[1..], rest, ns[|its|]);
      assert [its[0]] + its[1..] == its;
    }
  }
}
