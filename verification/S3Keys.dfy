/** storage/s3: the key layout. A table's objects live under <prefix>tables/<table>/objects/. */
module S3Keys {

  function ObjectKey(prefix: string, table: string, id: string): string {
    prefix + "tables/" + table + "/objects/" + id + ".json"
  }

  function TablePrefix(prefix: string, table: string): string {
    prefix + "tables/" + table + "/objects/"
  }

  function MetadataKey(prefix: string, table: string): string {
    prefix + "tables/" + table + "/_metadata.json"
  }

  function SchemaKey(prefix: string): string {
    prefix + "_schema.json"
  }

  /** The keys of one bucket, spelled out. */
  lemma KeyTexts()
    ensures ObjectKey("app/", "users", "u1") == "app/tables/users/objects/u1.json"
    ensures TablePrefix("app/", "users") == "app/tables/users/objects/"
    ensures MetadataKey("app/", "users") == "app/tables/users/_metadata.json"
    ensures SchemaKey("app/") == "app/_schema.json"
  {
    assert "app/" + "tables/" == "app/tables/";
    assert "app/tables/" + "users" == "app/tables/users";
    assert "app/tables/users" + "/objects/" == "app/tables/users/objects/";
    assert "app/tables/users/objects/" + "u1" == "app/tables/users/objects/u1";
  }

  predicate SlashFree(s: string) {
    '/' !in s
  }

  // ---------------------------------------------------------------- cutting keys apart

  lemma CutFront(p: string, a: string, b: string)
    ensures p + a == p + b <==> a == b
    ensures p + a <= p + b <==> a <= b
  {
    assert (p + a)[|p|..] == a && (p + b)[|p|..] == b;
    if p + a <= p + b {
      assert (p + b)[..|p + a|][|p|..] == a;
      assert b[..|a|] == (p + b)[|p|..|p + a|];
    }
    if a <= b {
      assert (p + b)[..|p + a|] == p + a;
    }
  }

  lemma CutBack(a: string, b: string, e: string)
    ensures a + e == b + e <==> a == b
  {
    if a + e == b + e {
      assert |a| == |b|;
      assert (a + e)[..|a|] == a && (b + e)[..|b|] == b;
    }
  }

  /** The part of a text before its first slash. */
  function FirstPart(s: string): string {
    if s == "" || s[0] == '/' then "" else [s[0]] + FirstPart(s[1..])
  }

  lemma {:induction false} FirstPartOf(a: string, x: string, y: string)
    requires SlashFree(a) && x != "" && x[0] == '/'
    ensures FirstPart(a + x + y) == a
  {
    if a == "" {
      assert (a + x + y)[0] == x[0];
    } else {
      FirstPartOf(a[1..], x, y);
      assert (a + x + y)[0] == a[0] && (a + x + y)[1..] == a[1..] + x + y;
      assert [a[0]] + a[1..] == a;
    }
  }

  /** Two texts that start with a slash-free part and a slash agree on that part. */
  lemma SameFirstPart(a: string, b: string, x: string, y: string)
    requires SlashFree(a) && SlashFree(b)
    requires x != "" && y != "" && x[0] == '/' && y[0] == '/'
    requires a + x <= b + y || b + y <= a + x
    ensures a == b
  {
    var s, t := a + x, b + y;
    var more := if s <= t then t[|s|..] else "";
    var less := if s <= t then "" else s[|t|..];
    assert s + more == t + less;
    FirstPartOf(a, x, more);
    FirstPartOf(b, y, less);
  }

  lemma ObjectKeySplits(prefix: string, table: string, id: string)
    ensures ObjectKey(prefix, table, id) == (prefix + "tables/") + (table + ("/objects/" + (id + ".json")))
    ensures ObjectKey(prefix, table, id) == TablePrefix(prefix, table) + (id + ".json")
  {
    var p := prefix + "tables/";
    assert p + table + "/objects/" + id + ".json" == p + (table + ("/objects/" + (id + ".json")));
  }

  lemma TablePrefixSplits(prefix: string, table: string)
    ensures TablePrefix(prefix, table) == (prefix + "tables/") + (table + "/objects/")
  {
    var p := prefix + "tables/";
    assert p + table + "/objects/" == p + (table + "/objects/");
  }

  lemma MetadataKeySplits(prefix: string, table: string)
    ensures MetadataKey(prefix, table) == (prefix + "tables/") + (table + "/_metadata.json")
  {
    var p := prefix + "tables/";
    assert p + table + "/_metadata.json" == p + (table + "/_metadata.json");
  }

  // ---------------------------------------------------------------- what the layout promises

  /** For table names without a slash, and any ids, the object keys are injective. */
  lemma KeysInjective(prefix: string, t: string, i: string, u: string, j: string)
    requires SlashFree(t) && SlashFree(u) && ObjectKey(prefix, t, i) == ObjectKey(prefix, u, j)
    ensures t == u && i == j
  {
    ObjectKeySplits(prefix, t, i);
    ObjectKeySplits(prefix, u, j);
    var x, y := "/objects/" + (i + ".json"), "/objects/" + (j + ".json");
    CutFront(prefix + "tables/", t + x, u + y);
    SameFirstPart(t, u, x, y);
    CutFront(t, x, y);
    CutFront("/objects/", i + ".json", j + ".json");
    CutBack(i, j, ".json");
  }

  /** No object key is the schema key, whatever the table name. */
  lemma NeverTheSchema(prefix: string, t: string, i: string)
    ensures ObjectKey(prefix, t, i) != SchemaKey(prefix)
  {
    ObjectKeySplits(prefix, t, i);
    var rest := t + ("/objects/" + (i + ".json"));
    assert (prefix + "tables/") + rest == prefix + ("tables/" + rest);
    CutFront(prefix, "tables/" + rest, "_schema.json");
    assert ("tables/" + rest)[0] == 't';
  }

  lemma NeverMetadata(prefix: string, t: string, i: string, u: string)
    requires SlashFree(t) && SlashFree(u)
    ensures ObjectKey(prefix, t, i) != MetadataKey(prefix, u)
  {
    ObjectKeySplits(prefix, t, i);
    MetadataKeySplits(prefix, u);
    var x, y := "/objects/" + (i + ".json"), "/_metadata.json";
    CutFront(prefix + "tables/", t + x, u + y);
    CutFront(t, x, y);
    assert x[1] == 'o' && y[1] == '_';
    if t + x == u + y {
      SameFirstPart(t, u, x, y);
    }
  }

  /** The listing prefix of a table matches exactly that table's object keys. */
  lemma PrefixMatches(prefix: string, t: string, u: string, i: string)
    requires SlashFree(t) && SlashFree(u)
    ensures TablePrefix(prefix, t) <= ObjectKey(prefix, u, i) <==> t == u
  {
    TablePrefixSplits(prefix, t);
    ObjectKeySplits(prefix, u, i);
    ObjectKeySplits(prefix, t, i);
    var x := "/objects/" + (i + ".json");
    CutFront(prefix + "tables/", t + "/objects/", u + x);
    if t + "/objects/" <= u + x {
      SameFirstPart(t, u, "/objects/", x);
    }
  }

  lemma PrefixMissesTheRest(prefix: string, t: string, u: string)
    requires SlashFree(t) && SlashFree(u)
    ensures !(TablePrefix(prefix, t) <= MetadataKey(prefix, u)) && !(TablePrefix(prefix, t) <= SchemaKey(prefix))
  {
    TablePrefixSplits(prefix, t);
    MetadataKeySplits(prefix, u);
    CutFront(prefix + "tables/", t + "/objects/", u + "/_metadata.json");
    CutFront(t, "/objects/", "/_metadata.json");
    assert "/objects/"[1] == 'o' && "/_metadata.json"[1] == '_';
    if t + "/objects/" <= u + "/_metadata.json" {
      SameFirstPart(t, u, "/objects/", "/_metadata.json");
    }
    var rest := t + "/objects/";
    assert (prefix + "tables/") + rest == prefix + ("tables/" + rest);
    CutFront(prefix, "tables/" + rest, "_schema.json");
    assert ("tables/" + rest)[0] == 't';
  }

  // ---------------------------------------------------------------- any table name

  /** One table's directory is inside the other's. */
  predicate Nested(t: string, u: string) {
    t + "/objects/" <= u + "/objects/" || u + "/objects/" <= t + "/objects/"
  }

  lemma KeysCut(prefix: string, t: string, i: string, u: string, j: string)
    ensures ObjectKey(prefix, t, i) == ObjectKey(prefix, u, j) <==> t + "/objects/" + i == u + "/objects/" + j
  {
    var p := prefix + "tables/";
    assert ObjectKey(prefix, t, i) == p + (t + "/objects/" + i + ".json") by { ObjectKeySplits(prefix, t, i); }
    assert ObjectKey(prefix, u, j) == p + (u + "/objects/" + j + ".json") by { ObjectKeySplits(prefix, u, j); }
    CutFront(p, t + "/objects/" + i + ".json", u + "/objects/" + j + ".json");
    CutBack(t + "/objects/" + i, u + "/objects/" + j, ".json");
  }

  /** Two tables can have an object key in common exactly when one's directory is inside the
      other's. */
  lemma CollideIffNested(prefix: string, t: string, u: string)
    ensures (exists i: string, j: string :: ObjectKey(prefix, t, i) == ObjectKey(prefix, u, j)) <==> Nested(t, u)
  {
    var a, b := t + "/objects/", u + "/objects/";
    if i: string, j: string :| ObjectKey(prefix, t, i) == ObjectKey(prefix, u, j) {
      KeysCut(prefix, t, i, u, j);
      assert a + i == b + j;
      if |a| <= |b| {
        assert a == (b + j)[..|a|] == b[..|a|];
      } else {
        assert b == (a + i)[..|b|] == a[..|b|];
      }
    }
    if a <= b {
      var i := b[|a|..];
      assert a + i == b == b + "";
      KeysCut(prefix, t, i, u, "");
    } else if b <= a {
      var j := a[|b|..];
      assert b + j == a == a + "";
      KeysCut(prefix, t, "", u, j);
    }
  }

  /** With slashes in a table name, two different objects can share a key. */
  lemma SharedKey(prefix: string)
    ensures ObjectKey(prefix, "a", "b/objects/c") == ObjectKey(prefix, "a/objects/b", "c")
  {
    KeysCut(prefix, "a", "b/objects/c", "a/objects/b", "c");
    assert "a" + "/objects/" + "b/objects/c" == "a/objects/b/objects/c";
    assert "a/objects/b" + "/objects/" + "c" == "a/objects/b/objects/c";
  }
}
