/** examples/ldapd: words, attributes and distinguished names as text. */
module LdapText {
  import opened Outcomes
  import opened Text

  /** unicode.IsSpace */
  predicate IsSpace(c: char) {
    || '\t' <= c <= '\r' || c == ' ' || c == '\U{0085}' || c == '\U{00A0}' || c == '\U{1680}'
    || '\U{2000}' <= c <= '\U{200A}' || c == '\U{2028}' || c == '\U{2029}' || c == '\U{202F}' || c == '\U{205F}'
       || c == '\U{3000}'
  }

  /** The code points of white space. */
  lemma SpaceCodes(c: char)
    ensures IsSpace(c) <==>
            c as int in {9, 10, 11, 12, 13, 32, 133, 160, 5760, 8192, 8193, 8194, 8195, 8196, 8197, 8198, 8199, 8200,
                         8201, 8202, 8232, 8233, 8239, 8287, 12288}
  {
  }

  predicate Solid(s: string) {
    forall i :: 0 <= i < |s| ==> !IsSpace(s[i])
  }

  /** The characters before the first space. */
  function WordEnd(s: string): (n: nat)
    ensures n <= |s| && Solid(s[..n]) && (n < |s| ==> IsSpace(s[n]))
  {
    if s == "" || IsSpace(s[0]) then 0 else 1 + WordEnd(s[1..])
  }

  /** strings.Fields: the maximal runs without spaces. */
  function Fields(s: string): (ws: seq<string>)
    ensures forall i :: 0 <= i < |ws| ==> ws[i] != "" && Solid(ws[i])
    decreases |s|
  {
    if s == "" then []
    else if IsSpace(s[0]) then Fields(s[1..])
    else [s[..WordEnd(s)]] + Fields(s[WordEnd(s)..])
  }

  /** The characters before the first occurrence of a separator. */
  function Until(s: string, sep: char): (n: nat)
    ensures n <= |s| && sep !in s[..n] && (n < |s| ==> s[n] == sep)
  {
    if s == "" || s[0] == sep then 0 else 1 + Until(s[1..], sep)
  }

  /** strings.SplitN(s, sep, 2) */
  function SplitTwo(s: string, sep: char): seq<string> {
    var n := Until(s, sep);
    if n == |s| then [s] else [s[..n], s[n + 1..]]
  }

  /** Everything after the first comma. */
  function GetParentDN(dn: string): string {
    var parts := SplitTwo(dn, ',');
    if |parts| == 2 then parts[1] else ""
  }

  /** The attributes of a list of words; the last one wins. */
  function AttributesOf(parts: seq<string>): map<string, string> {
    if parts == [] then map[]
    else
      var before := AttributesOf(parts[..|parts| - 1]);
      var kv := SplitTwo(parts[|parts| - 1], '=');
      if |kv| == 2 then before[kv[0] := kv[1]] else before
  }

  method ParseAttributes(attributesStr: string) returns (attributes: map<string, string>)
    ensures attributes == AttributesOf(Fields(attributesStr))
  {
    attributes := map[];
    var parts := Fields(attributesStr);
    for k := 0 to |parts|
      invariant attributes == AttributesOf(parts[..k])
    {
      assert parts[..k + 1][..k] == parts[..k];
      var kv := SplitTwo(parts[k], '=');
      if |kv| == 2 {
        attributes := attributes[kv[0] := kv[1]];
      }
    }
    assert parts[..|parts|] == parts;
  }

  // ---------------------------------------------------------------- printing and reading back

  function Print(pairs: seq<(string, string)>): (ws: seq<string>)
    ensures |ws| == |pairs| && forall i :: 0 <= i < |ws| ==> ws[i] == pairs[i].0 + "=" + pairs[i].1
  {
    seq(|pairs|, i requires 0 <= i < |pairs| => pairs[i].0 + "=" + pairs[i].1)
  }

  /** The map of a list of pairs, later ones winning. */
  function MapOf(pairs: seq<(string, string)>): map<string, string> {
    if pairs == [] then map[] else MapOf(pairs[..|pairs| - 1])[pairs[|pairs| - 1].0 := pairs[|pairs| - 1].1]
  }

  /** Keys without spaces or '=', values without spaces. */
  predicate Printable(pairs: seq<(string, string)>) {
    forall i :: 0 <= i < |pairs| ==> Solid(pairs[i].0) && '=' !in pairs[i].0 && Solid(pairs[i].1)
  }

  lemma {:induction false} WordEndsAt(w: string, rest: string)
    requires Solid(w) && (rest == "" || IsSpace(rest[0]))
    ensures WordEnd(w + rest) == |w|
  {
    if w == "" {
      assert w + rest == rest;
    } else {
      assert (w + rest)[0] == w[0] && (w + rest)[1..] == w[1..] + rest;
      WordEndsAt(w[1..], rest);
    }
  }

  lemma FieldsOfWord(w: string, rest: string)
    requires Solid(w) && w != "" && (rest == "" || IsSpace(rest[0]))
    ensures Fields(w + rest) == [w] + Fields(rest)
  {
    WordEndsAt(w, rest);
    assert (w + rest)[0] == w[0];
    assert (w + rest)[..|w|] == w && (w + rest)[|w|..] == rest;
  }

  /** Joining words with blanks and splitting again gives the words back. */
  lemma {:induction false} FieldsOfJoin(ws: seq<string>)
    requires forall i :: 0 <= i < |ws| ==> ws[i] != "" && Solid(ws[i])
    ensures Fields(Join(ws, " ")) == ws
  {
    if |ws| == 0 {
    } else if |ws| == 1 {
      FieldsOfWord(ws[0], "");
      assert ws[0] + "" == ws[0];
    } else {
      var rest := " " + Join(ws[1..], " ");
      assert ws[0] + " " + Join(ws[1..], " ") == ws[0] + rest;
      FieldsOfWord(ws[0], rest);
      assert rest[1..] == Join(ws[1..], " ");
      FieldsOfJoin(ws[1..]);
    }
  }

  lemma {:induction false} UntilAt(k: string, sep: char, rest: string)
    requires sep !in k
    ensures Until(k + [sep] + rest, sep) == |k|
  {
    var s := k + [sep] + rest;
    if k == "" {
      assert s[0] == sep;
    } else {
      assert s[0] == k[0] && s[1..] == k[1..] + [sep] + rest;
      UntilAt(k[1..], sep, rest);
    }
  }

  lemma SplitPair(k: string, v: string)
    requires '=' !in k
    ensures SplitTwo(k + "=" + v, '=') == [k, v]
  {
    UntilAt(k, '=', v);
    var s := k + "=" + v;
    assert s == k + ['='] + v;
    assert s[..|k|] == k && s[|k| + 1..] == v;
  }

  lemma {:induction false} NowhereFound(s: string, sep: char)
    requires sep !in s
    ensures Until(s, sep) == |s|
  {
    if s != "" { NowhereFound(s[1..], sep); }
  }

  /** The parent of a name is what comes after its first comma; a name without one has none. */
  lemma ParentOfName(first: string, rest: string)
    requires ',' !in first
    ensures GetParentDN(first + "," + rest) == rest && GetParentDN(first) == ""
  {
    var dn := first + "," + rest;
    UntilAt(first, ',', rest);
    assert dn == first + [','] + rest && dn[|first| + 1..] == rest;
    NowhereFound(first, ',');
  }

  /** A word without '=' says nothing. */
  lemma WordIgnored(ws: seq<string>, w: string)
    requires '=' !in w
    ensures AttributesOf(ws + [w]) == AttributesOf(ws)
  {
    NowhereFound(w, '=');
    assert (ws + [w])[..|ws|] == ws;
  }

  /** Parsing undoes printing, for every list of pairs; a key given twice keeps its last value. */
  lemma {:induction false} ParseUndoesPrint(pairs: seq<(string, string)>)
    requires Printable(pairs)
    ensures AttributesOf(Fields(Join(Print(pairs), " "))) == MapOf(pairs)
  {
    forall i | 0 <= i < |pairs| ensures Print(pairs)[i] != "" && Solid(Print(pairs)[i]) {
    }
    FieldsOfJoin(Print(pairs));
    PairsParse(pairs);
  }

  lemma {:induction false} PairsParse(pairs: seq<(string, string)>)
    requires Printable(pairs)
    ensures AttributesOf(Print(pairs)) == MapOf(pairs)
  {
    if pairs != [] {
      var k := |pairs| - 1;
      PairsParse(pairs[..k]);
      assert Print(pairs)[..k] == Print(pairs[..k]);
      SplitPair(pairs[k].0, pairs[k].1);
    }
  }

  /** Any listing of a map reads back as that map. */
  lemma ListingReadsBack(m: map<string, string>, pairs: seq<(string, string)>)
    requires Printable(pairs) && (forall i :: 0 <= i < |pairs| ==> pairs[i].0 in m && m[pairs[i].0] == pairs[i].1)
    requires forall k <- m :: exists i :: 0 <= i < |pairs| && pairs[i].0 == k
    ensures AttributesOf(Fields(Join(Print(pairs), " "))) == m
  {
    ParseUndoesPrint(pairs);
    MapOfListing(m, pairs);
  }

  lemma {:induction false} MapOfListing(m: map<string, string>, pairs: seq<(string, string)>)
    requires forall i :: 0 <= i < |pairs| ==> pairs[i].0 in m && m[pairs[i].0] == pairs[i].1
    ensures forall k <- MapOf(pairs) :: k in m && MapOf(pairs)[k] == m[k]
    ensures forall i :: 0 <= i < |pairs| ==> pairs[i].0 in MapOf(pairs)
  {
    if pairs != [] {
      MapOfListing(m, pairs[..|pairs| - 1]);
      assert forall i :: 0 <= i < |pairs| - 1 ==> pairs[..|pairs| - 1][i] == pairs[i];
    }
  }
}
