/** storage/s3: a store of objects on a flat bucket. Calls to the service may fail; a failed
    upload or deletion may or may not have happened. */
module S3Store {
  import opened Outcomes
  import opened Values
  import opened Common
  import opened S3Keys

  // ---------------------------------------------------------------- the bucket

  /** What lies under a key: a stored object (fields as JSON gives them back), or the schema and
      table files. A zero time is no time. */
  datatype Doc =
    | ObjectDoc(id: string, tableName: string, fields: map<string, Value>, createdAt: Option<int>,
                updatedAt: Option<int>)
    | Other

  type Docs = map<string, Doc>

  datatype Fetch = Missing | Got(doc: Doc) | Fault

  class Bucket {
    var docs: Docs
    const reliable: bool

    constructor (reliable: bool)
      ensures docs == map[] && this.reliable == reliable
    {
      docs, this.reliable := map[], reliable;
    }

    method Get(key: string) returns (r: Fetch)
      ensures reliable ==> r != Fault
      ensures r.Missing? ==> key !in docs
      ensures r.Got? ==> key in docs && r.doc == docs[key]
    {
      var fails := *;
      if fails && !reliable {
        return Fault;
      }
      return if key in docs then Got(docs[key]) else Missing;
    }

    method Put(key: string, doc: Doc) returns (ok: bool)
      modifies this
      ensures reliable ==> ok
      ensures docs == old(docs)[key := doc] || (!ok && docs == old(docs))
    {
      var fails, lost := *, *;
      if !(fails && lost && !reliable) {
        docs := docs[key := doc];
      }
      return !fails || reliable;
    }

    method Delete(key: string) returns (ok: bool)
      modifies this
      ensures reliable ==> ok
      ensures docs == old(docs) - {key} || (!ok && docs == old(docs))
    {
      var fails, lost := *, *;
      if !(fails && lost && !reliable) {
        docs := docs - {key};
      }
      return !fails || reliable;
    }
  }

  // ---------------------------------------------------------------- the map it stands for

  /** Objects by table and id. */
  type Store = map<(string, string), map<string, Value>>

  /** Every document lies under the key built from what it says it is, and no table name has a
      slash. */
  ghost predicate Tidy(prefix: string, docs: Docs) {
    forall k <- docs :: TidyAt(prefix, k, docs[k])
  }

  ghost predicate TidyAt(prefix: string, k: string, doc: Doc) {
    match doc
    case ObjectDoc(id, t, _, _, _) => SlashFree(t) && k == ObjectKey(prefix, t, id)
    case Other => k == SchemaKey(prefix) || exists u :: SlashFree(u) && k == MetadataKey(prefix, u)
  }

  function PairsOf(docs: Docs): set<(string, string)> {
    set k | k in docs && docs[k].ObjectDoc? :: (docs[k].tableName, docs[k].id)
  }

  ghost function Contents(prefix: string, docs: Docs): (s: Store)
    requires Tidy(prefix, docs)
    ensures s.Keys == PairsOf(docs)
  {
    map p | p in PairsOf(docs) :: FieldsAt(prefix, docs, p)
  }

  ghost function FieldsAt(prefix: string, docs: Docs, p: (string, string)): map<string, Value>
    requires Tidy(prefix, docs) && p in PairsOf(docs)
  {
    var k :| k in docs && docs[k].ObjectDoc? && (docs[k].tableName, docs[k].id) == p;
    docs[k].fields
  }

  /** Looking a key up is looking the pair up. */
  lemma KeyIsPair(prefix: string, docs: Docs, t: string, i: string)
    requires Tidy(prefix, docs) && SlashFree(t)
    ensures var k := ObjectKey(prefix, t, i); var s := Contents(prefix, docs);
            && (k in docs <==> (t, i) in s)
            && (k in docs ==>
                  docs[k].ObjectDoc? && docs[k].tableName == t && docs[k].id == i && s[(t, i)] == docs[k].fields)
  {
    var k := ObjectKey(prefix, t, i);
    if k in docs {
      assert TidyAt(prefix, k, docs[k]);
      DocAtKey(prefix, t, i, docs[k]);
      assert (docs[k].tableName, docs[k].id) in PairsOf(docs);
    }
    if (t, i) in PairsOf(docs) {
      var k' :| k' in docs && docs[k'].ObjectDoc? && (docs[k'].tableName, docs[k'].id) == (t, i);
      assert TidyAt(prefix, k', docs[k']);
      UniquePair(prefix, docs, t, i);
    }
  }

  lemma DocAtKey(prefix: string, t: string, i: string, doc: Doc)
    requires SlashFree(t) && TidyAt(prefix, ObjectKey(prefix, t, i), doc)
    ensures doc.ObjectDoc? && doc.tableName == t && doc.id == i
  {
    match doc {
      case ObjectDoc(id, u, _, _, _) => KeysInjective(prefix, t, i, u, id);
      case Other =>
        NeverTheSchema(prefix, t, i);
        forall u | SlashFree(u) ensures ObjectKey(prefix, t, i) != MetadataKey(prefix, u) {
          NeverMetadata(prefix, t, i, u);
        }
    }
  }

  lemma UniquePair(prefix: string, docs: Docs, t: string, i: string)
    requires Tidy(prefix, docs) && (t, i) in PairsOf(docs)
    ensures var k := ObjectKey(prefix, t, i);
            k in docs && docs[k].ObjectDoc? && FieldsAt(prefix, docs, (t, i)) == docs[k].fields
    ensures var k := ObjectKey(prefix, t, i); docs[k].tableName == t && docs[k].id == i
  {
    forall k | k in docs && docs[k].ObjectDoc? && (docs[k].tableName, docs[k].id) == (t, i)
      ensures k == ObjectKey(prefix, t, i)
    {
      assert TidyAt(prefix, k, docs[k]);
    }
  }

  lemma SameStore(a: Store, b: Store)
    requires a.Keys == b.Keys && forall p <- a :: a[p] == b[p]
    ensures a == b
  {
  }

  /** Writing an object under its key stores its fields under its pair. */
  lemma PutStores(prefix: string, docs: Docs, doc: Doc)
    requires Tidy(prefix, docs) && doc.ObjectDoc? && SlashFree(doc.tableName)
    ensures var after := docs[ObjectKey(prefix, doc.tableName, doc.id) := doc];
            Tidy(prefix, after) && Contents(prefix, after) == Contents(prefix,
                                                                       docs)[(doc.tableName, doc.id) := doc.fields]
  {
    hide TidyAt, ObjectKey, SlashFree;
    var k, p := ObjectKey(prefix, doc.tableName, doc.id), (doc.tableName, doc.id);
    var after := docs[k := doc];
    assert TidyAt(prefix, k, doc) by { WrittenTidy(prefix, doc); }
    assert Tidy(prefix, after);
    forall q: (string, string) ensures q in PairsOf(after) <==> q == p || q in PairsOf(docs) {
      PairAfterPut(prefix, docs, doc, q);
    }
    forall q | q in Contents(prefix, after)
      ensures Contents(prefix, after)[q] == Contents(prefix, docs)[p := doc.fields][q]
    {
      UniquePair(prefix, after, q.0, q.1);
      if q != p {
        UniquePair(prefix, docs, q.0, q.1);
      }
    }
    SameStore(Contents(prefix, after), Contents(prefix, docs)[p := doc.fields]);
  }

  lemma WrittenTidy(prefix: string, doc: Doc)
    requires doc.ObjectDoc? && SlashFree(doc.tableName)
    ensures TidyAt(prefix, ObjectKey(prefix, doc.tableName, doc.id), doc)
  {
  }

  lemma PairAfterPut(prefix: string, docs: Docs, doc: Doc, q: (string, string))
    requires Tidy(prefix, docs) && doc.ObjectDoc? && SlashFree(doc.tableName)
    ensures var k := ObjectKey(prefix, doc.tableName, doc.id);
            q in PairsOf(docs[k := doc]) <==> q == (doc.tableName, doc.id) || q in PairsOf(docs)
  {
    var k := ObjectKey(prefix, doc.tableName, doc.id);
    var after := docs[k := doc];
    if q == (doc.tableName, doc.id) {
      assert after[k].ObjectDoc?;
    } else if q in PairsOf(docs) {
      UniquePair(prefix, docs, q.0, q.1);
      var k' := ObjectKey(prefix, q.0, q.1);
      assert TidyAt(prefix, k', docs[k']);
      if k in docs {
        assert TidyAt(prefix, k, docs[k]);
        DocAtKey(prefix, doc.tableName, doc.id, docs[k]);
      }
      assert k' in after && after[k'] == docs[k'];
    }
  }

  lemma DeleteForgets(prefix: string, docs: Docs, t: string, i: string)
    requires Tidy(prefix, docs) && SlashFree(t)
    ensures var after := docs - {ObjectKey(prefix, t, i)};
            Tidy(prefix, after) && Contents(prefix, after) == Contents(prefix, docs) - {(t, i)}
  {
    hide TidyAt, ObjectKey, SlashFree;
    var k := ObjectKey(prefix, t, i);
    var after := docs - {k};
    forall q: (string, string) ensures q in PairsOf(after) <==> q != (t, i) && q in PairsOf(docs) {
      PairAfterDelete(prefix, docs, t, i, q);
    }
    forall q | q in Contents(prefix, after) ensures Contents(prefix, after)[q] == Contents(prefix, docs)[q] {
      UniquePair(prefix, after, q.0, q.1);
      UniquePair(prefix, docs, q.0, q.1);
    }
    SameStore(Contents(prefix, after), Contents(prefix, docs) - {(t, i)});
  }

  lemma PairAfterDelete(prefix: string, docs: Docs, t: string, i: string, q: (string, string))
    requires Tidy(prefix, docs) && SlashFree(t)
    ensures q in PairsOf(docs - {ObjectKey(prefix, t, i)}) <==> q != (t, i) && q in PairsOf(docs)
  {
    var k := ObjectKey(prefix, t, i);
    var after := docs - {k};
    if q in PairsOf(after) {
      var k' :| k' in after && after[k'].ObjectDoc? && (after[k'].tableName, after[k'].id) == q;
      assert TidyAt(prefix, k', docs[k']);
      assert docs[k'].ObjectDoc?;
    }
    if q != (t, i) && q in PairsOf(docs) {
      UniquePair(prefix, docs, q.0, q.1);
      var k' := ObjectKey(prefix, q.0, q.1);
      assert TidyAt(prefix, k', docs[k']);
      if k == k' { DocAtKey(prefix, t, i, docs[k]); }
      assert k' in after;
    }
  }

  lemma OtherChangesNothing(prefix: string, docs: Docs, k: string)
    requires Tidy(prefix, docs) && TidyAt(prefix, k, Other)
    ensures Tidy(prefix, docs[k := Other]) && Contents(prefix, docs[k := Other]) == Contents(prefix, docs)
  {
    var after := docs[k := Other];
    assert forall k' :: k' in docs && docs[k'].ObjectDoc? ==> k' != k by {
      forall k' | k' in docs && docs[k'].ObjectDoc? ensures k' != k {
        assert TidyAt(prefix, k', docs[k']);
        if k' == k { DocAtKey(prefix, docs[k'].tableName, docs[k'].id, Other); }
      }
    }
    forall q: (string, string) ensures q in PairsOf(after) <==> q in PairsOf(docs) {
      if q in PairsOf(docs) {
        UniquePair(prefix, docs, q.0, q.1);
        assert after[ObjectKey(prefix, q.0, q.1)].ObjectDoc?;
      }
    }
    forall q | q in Contents(prefix, docs) ensures Contents(prefix, after)[q] == Contents(prefix, docs)[q] {
      UniquePair(prefix, after, q.0, q.1);
      UniquePair(prefix, docs, q.0, q.1);
    }
    SameStore(Contents(prefix, after), Contents(prefix, docs));
  }

  // ---------------------------------------------------------------- the adapter

  /** A value after a trip through JSON. */
  type Codec = Value -> Value

  function Normed(norm: Codec, fields: map<string, Value>): map<string, Value> {
    map n | n in fields :: norm(fields[n])
  }

  ghost predicate CanMarshal(marshal: Marshal, fields: map<string, Value>) {
    forall n <- fields :: marshal(fields[n]).Some?
  }

  function Concat(pages: seq<seq<string>>): seq<string> {
    if pages == [] then [] else Concat(pages[..|pages| - 1]) + pages[|pages| - 1]
  }

  /** The keys of one page and of pages in parts. */
  lemma ConcatOne(page: seq<string>)
    ensures Concat([]) == [] && Concat([page]) == page
  {
    assert [page][..0] == [] && Concat([]) + page == page;
  }

  lemma {:induction false} ConcatParts(a: seq<seq<string>>, b: seq<seq<string>>)
    ensures Concat(a + b) == Concat(a) + Concat(b)
  {
    if b == [] {
      assert a + b == a;
    } else {
      var k := |b| - 1;
      assert (a + b)[..|a| + k] == a + b[..k];
      ConcatParts(a, b[..k]);
    }
  }

  predicate HasSuffix(s: string, e: string) {
    |e| <= |s| && s[|s| - |e|..] == e
  }

  /** The document under k can be fetched and has the field. */
  predicate Hit(docs: Docs, fetchable: string -> bool, show: Value -> string, key: string, value: string, k: string) {
    && HasSuffix(k, ".json") && fetchable(k) && k in docs && docs[k].ObjectDoc?
    && key in docs[k].fields && show(docs[k].fields[key]) == value
  }

  function FirstHit(docs: Docs, fetchable: string -> bool, show: Value -> string, key: string, value: string,
                    keys: seq<string>)
    : (r: Option<string>)
    ensures r.Some? ==> Hit(docs, fetchable, show, key, value, r.value) && r.value in keys
    ensures r == None ==> forall k <- keys :: !Hit(docs, fetchable, show, key, value, k)
  {
    if keys == [] then None
    else if Hit(docs, fetchable, show, key, value, keys[0]) then Some(keys[0])
    else FirstHit(docs, fetchable, show, key, value, keys[1..])
  }

  /** A hit is a document under a key that ends in .json, that can be fetched and holds the value;
      the first has none before it, and there is none without one. */
  lemma {:induction false} FirstHitMeans(docs: Docs, fetchable: string -> bool, show: Value -> string, key: string,
                                         value: string, keys: seq<string>, i: nat)
    requires i < |keys|
    ensures var k := keys[i];
            var hit := && |k| >= 5 && k[|k| - 5..] == ".json" && fetchable(k) && k in docs && docs[k].ObjectDoc?
                       && key in docs[k].fields && show(docs[k].fields[key]) == value;
            && (hit ==> FirstHit(docs, fetchable, show, key, value, keys).Some?)
            && (FirstHit(docs, fetchable, show, key, value, keys) == Some(k) ==> hit)
            && (hit && (forall j :: 0 <= j < i ==> !Hit(docs, fetchable, show, key, value, keys[j])) ==>
                  FirstHit(docs, fetchable, show, key, value, keys) == Some(k))
  {
    if i > 0 {
      FirstHitMeans(docs, fetchable, show, key, value, keys[1..], i - 1);
      assert forall j :: 0 <= j < i - 1 ==> keys[1..][j] == keys[j + 1];
    }
  }

  lemma {:induction false} FirstHitAppend(docs: Docs, fetchable: string -> bool, show: Value -> string, key: string,
                                          value: string, a: seq<string>, b: seq<string>)
    ensures FirstHit(docs, fetchable, show, key, value, a + b) ==
            var r := FirstHit(docs, fetchable, show, key, value, a);
            if r.Some? then r else FirstHit(docs, fetchable, show, key, value, b)
  {
    hide Hit;
    if a == [] {
      assert a + b == b;
    } else {
      assert (a + b)[1..] == a[1..] + b;
      FirstHitAppend(docs, fetchable, show, key, value, a[1..], b);
    }
  }

  function ToObject(doc: Doc): Object
    requires doc.ObjectDoc?
  {
    Object(doc.tableName, doc.id, doc.fields)
  }

  class S3Storage {
    var client: Bucket?
    var prefix: string
    const marshal: Marshal
    const norm: Codec
    const show: Value -> string

    constructor (client: Bucket, prefix: string, marshal: Marshal, norm: Codec, show: Value -> string)
      ensures this.client == client && this.prefix == prefix
      ensures this.marshal == marshal && this.norm == norm && this.show == show
    {
      this.client, this.prefix, this.marshal, this.norm, this.show := client, prefix, marshal, norm, show;
    }

    /** Writes the schema file and one file for each table, in any order of the tables. */
    method CreateTables(tables: set<string>) returns (ok: bool)
      modifies client
      ensures client == null ==> !ok
      ensures client != null && Tidy(prefix, old(client.docs)) && (forall t <- tables :: SlashFree(t)) ==>
                Tidy(prefix, client.docs) && Contents(prefix, client.docs) == Contents(prefix, old(client.docs))
      ensures client != null && client.reliable ==> ok
      ensures ok ==> SchemaKey(prefix) in client.docs && forall t <- tables :: MetadataKey(prefix, t) in client.docs
    {
      if client == null {
        return false;
      }
      ghost var tidy := Tidy(prefix, client.docs) && forall t <- tables :: SlashFree(t);
      if tidy {
        OtherChangesNothing(prefix, client.docs, SchemaKey(prefix));
      }
      ok := client.Put(SchemaKey(prefix), Other);
      if !ok {
        return false;
      }
      var rest := tables;
      while rest != {}
        invariant rest <= tables
        invariant tidy ==>
                    Tidy(prefix, client.docs) && Contents(prefix, client.docs) == Contents(prefix, old(client.docs))
        invariant SchemaKey(prefix) in client.docs && forall t <- tables - rest :: MetadataKey(prefix, t) in client.docs
        decreases rest
      {
        var t :| t in rest;
        if tidy {
          OtherChangesNothing(prefix, client.docs, MetadataKey(prefix, t));
        }
        ok := client.Put(MetadataKey(prefix, t), Other);
        if !ok {
          return false;
        }
        rest := rest - {t};
      }
      return true;
    }

    /** Insert: check whether the key is there, then upload. */
    method Insert(obj: Object, now: int, later: int) returns (out: Outcome<bool>)
      modifies client
      ensures client == null ==> out == Err(NotConnected)
      ensures client != null ==>
                var k := ObjectKey(prefix, obj.tableName, obj.id); var was := old(client.docs);
                var doc := ObjectDoc(obj.id, obj.tableName, Normed(norm, obj.fields), Some(now),
                                     if k in was then Some(later) else None);
                && !out.Panic?
                && (out.Ok? ==> CanMarshal(marshal, obj.fields) && out == Ok(k !in was) && client.docs == was[k := doc])
                && (out.Err? ==> client.docs == was || client.docs == was[k := doc])
                && (client.reliable ==> out == if CanMarshal(marshal, obj.fields) then Ok(k !in was)
                    else Err(CannotMarshal))
                && (!CanMarshal(marshal, obj.fields) ==> client.docs == was)
    {
      if client == null {
        return Err(NotConnected);
      }
      var k := ObjectKey(prefix, obj.tableName, obj.id);
      var found := client.Get(k);
      if found.Fault? {
        return Err(Storage);
      }
      var created := found.Missing?;
      var encodes := Encodes(obj.fields);
      if !encodes {
        return Err(CannotMarshal);
      }
      var ok := client.Put(k, ObjectDoc(obj.id, obj.tableName, Normed(norm, obj.fields), Some(now),
                                        if created then None else Some(later)));
      return if ok then Ok(created) else Err(Storage);
    }

    /** json.MarshalIndent succeeds. */
    method Encodes(fields: map<string, Value>) returns (ok: bool)
      ensures ok <==> CanMarshal(marshal, fields)
    {
      var rest := fields.Keys;
      while rest != {}
        invariant rest <= fields.Keys
        invariant forall n <- fields :: n !in rest ==> marshal(fields[n]).Some?
        decreases rest
      {
        var n :| n in rest;
        if marshal(fields[n]) == None {
          return false;
        }
        rest := rest - {n};
      }
      return true;
    }

    /** Update: false if the key is not there, else upload; the creation time is not carried over. */
    method Update(obj: Object, now: int) returns (out: Outcome<bool>)
      modifies client
      ensures client == null ==> out == Err(NotConnected)
      ensures client != null ==>
                var k := ObjectKey(prefix, obj.tableName, obj.id); var was := old(client.docs);
                var doc := ObjectDoc(obj.id, obj.tableName, Normed(norm, obj.fields), None, Some(now));
                && !out.Panic?
                && (out == Ok(false) ==> k !in was && client.docs == was)
                && (out == Ok(true) ==> k in was && CanMarshal(marshal, obj.fields) && client.docs == was[k := doc])
                && (out.Err? ==> client.docs == was || (k in was && client.docs == was[k := doc]))
                && (client.reliable ==> out == if k !in was then Ok(false) else if CanMarshal(marshal, obj.fields)
                    then Ok(true) else Err(CannotMarshal))
                && (!CanMarshal(marshal, obj.fields) ==> client.docs == was)
    {
      if client == null {
        return Err(NotConnected);
      }
      var k := ObjectKey(prefix, obj.tableName, obj.id);
      var found := client.Get(k);
      match found {
        case Missing => return Ok(false);
        case Fault => return Err(Storage);
        case Got(_) =>
      }
      var encodes := Encodes(obj.fields);
      if !encodes {
        return Err(CannotMarshal);
      }
      var ok := client.Put(k, ObjectDoc(obj.id, obj.tableName, Normed(norm, obj.fields), None, Some(now)));
      return if ok then Ok(true) else Err(Storage);
    }

    method FindByID(tblName: string, id: string) returns (out: Outcome<Option<Object>>)
      ensures client == null ==> out == Err(NotConnected)
      ensures client != null ==>
                var k := ObjectKey(prefix, tblName, id);
                && (out == Ok(None) ==> k !in client.docs)
                && (out.Ok? && out.value.Some? ==>
                    k in client.docs && client.docs[k].ObjectDoc? && out.value.value == ToObject(client.docs[k]))
                && (client.reliable && (k in client.docs ==> client.docs[k].ObjectDoc?) ==> out.Ok?)
    {
      if client == null {
        return Err(NotConnected);
      }
      var found := client.Get(ObjectKey(prefix, tblName, id));
      match found {
        case Missing => return Ok(None);
        case Fault => return Err(Storage);
        case Got(doc) => return if doc.ObjectDoc? then Ok(Some(ToObject(doc))) else Err(Storage);
      }
    }

    method DeleteByID(tblName: string, id: string) returns (out: Outcome<bool>)
      modifies client
      ensures client == null ==> out == Err(NotConnected)
      ensures client != null ==>
                var k := ObjectKey(prefix, tblName, id); var was := old(client.docs);
                && !out.Panic?
                && (out == Ok(false) ==> k !in was && client.docs == was)
                && (out == Ok(true) ==> k in was && client.docs == was - {k})
                && (out.Err? ==> client.docs == was || client.docs == was - {k})
                && (client.reliable ==> out == Ok(k in was))
    {
      if client == null {
        return Err(NotConnected);
      }
      var k := ObjectKey(prefix, tblName, id);
      var found := client.Get(k);
      match found {
        case Missing => return Ok(false);
        case Fault => return Err(Storage);
        case Got(_) =>
      }
      var ok := client.Delete(k);
      return if ok then Ok(true) else Err(Storage);
    }

    /** The paged scan: pages is what the paginator yields, and pageFault the page, if any, whose
        listing fails; fetchable says which documents can be read. The first hit ends the scan. */
    method FindByKey(tblName: string, key: string, value: string, pages: seq<seq<string>>, pageFault: Option<nat>,
                     fetchable: string -> bool)
      returns (out: Outcome<Option<Object>>)
      requires pageFault.Some? ==> pageFault.value < |pages|
      ensures client == null ==> out == Err(NotConnected)
      ensures client != null ==>
                var listed := Concat(if pageFault.Some? then pages[..pageFault.value] else pages);
                match FirstHit(client.docs, fetchable, show, key, value, listed)
                case Some(k) =>
                  var doc := client.docs[k];
                  out == Ok(Some(Object(doc.tableName, doc.id, doc.fields)))
                case None => out == if pageFault.Some? then Err(Storage) else Ok(None)
    {
      if client == null {
        return Err(NotConnected);
      }
      ghost var docs := client.docs;
      for p := 0 to |pages|
        invariant pageFault.Some? ==> p <= pageFault.value
        invariant FirstHit(docs, fetchable, show, key, value, Concat(pages[..p])) == None
      {
        if pageFault == Some(p) {
          return Err(Storage);
        }
        NextPage(docs, fetchable, key, value, pages, p);
        for i := 0 to |pages[p]|
          invariant FirstHit(docs, fetchable, show, key, value, pages[p][..i]) == None
        {
          var k := pages[p][i];
          NextKey(docs, fetchable, key, value, pages[p], i);
          if HasSuffix(k, ".json") {
            if !fetchable(k) || k !in client.docs || !client.docs[k].ObjectDoc? {
              continue;
            }
            var doc := client.docs[k];
            if key in doc.fields {
              if show(doc.fields[key]) == value {
                HitHere(docs, fetchable, key, value, pages, p, i, if pageFault.Some? then pages[..pageFault.value]
                        else pages);
                return Ok(Some(ToObject(doc)));
              }
            }
          }
        }
        assert pages[p][..|pages[p]|] == pages[p];
      }
      assert pages[..|pages|] == pages;
      return Ok(None);
    }

    lemma NextPage(docs: Docs, fetchable: string -> bool, key: string, value: string, pages: seq<seq<string>>, p: nat)
      requires p < |pages| && FirstHit(docs, fetchable, show, key, value, Concat(pages[..p])) == None
      ensures FirstHit(docs, fetchable, show, key, value, Concat(pages[..p + 1])) ==
              FirstHit(docs, fetchable, show, key, value, pages[p])
    {
      assert pages[..p + 1][..p] == pages[..p];
      FirstHitAppend(docs, fetchable, show, key, value, Concat(pages[..p]), pages[p]);
    }

    lemma NextKey(docs: Docs, fetchable: string -> bool, key: string, value: string, keys: seq<string>, i: nat)
      requires i < |keys| && FirstHit(docs, fetchable, show, key, value, keys[..i]) == None
      ensures FirstHit(docs, fetchable, show, key, value, keys[..i + 1]) ==
              if Hit(docs, fetchable, show, key, value, keys[i]) then Some(keys[i]) else None
      ensures Hit(docs, fetchable, show, key, value, keys[i]) ==>
              FirstHit(docs, fetchable, show, key, value, keys) == Some(keys[i])
    {
      assert keys[..i + 1] == keys[..i] + [keys[i]];
      FirstHitAppend(docs, fetchable, show, key, value, keys[..i], [keys[i]]);
      assert keys == keys[..i + 1] + keys[i + 1..];
      FirstHitAppend(docs, fetchable, show, key, value, keys[..i + 1], keys[i + 1..]);
    }

    lemma HitHere(docs: Docs, fetchable: string -> bool, key: string, value: string, pages: seq<seq<string>>, p: nat,
                  i: nat, all: seq<seq<string>>)
      requires p < |pages| && i < |pages[p]| && p < |all| && all[..p] == pages[..p] && all[p] == pages[p]
      requires FirstHit(docs, fetchable, show, key, value, Concat(pages[..p])) == None
      requires FirstHit(docs, fetchable, show, key, value, pages[p]) == Some(pages[p][i])
      ensures FirstHit(docs, fetchable, show, key, value, Concat(all)) == Some(pages[p][i])
    {
      NextPage(docs, fetchable, key, value, all, p);
      LaterPages(docs, fetchable, key, value, all, p + 1);
    }

    lemma {:induction false} LaterPages(docs: Docs, fetchable: string -> bool, key: string, value: string,
                                        all: seq<seq<string>>, p: nat)
      requires p <= |all| && FirstHit(docs, fetchable, show, key, value, Concat(all[..p])).Some?
      ensures FirstHit(docs, fetchable, show, key, value, Concat(all)) ==
              FirstHit(docs, fetchable, show, key, value, Concat(all[..p]))
      decreases |all| - p
    {
      if p == |all| {
        assert all[..p] == all;
      } else {
        assert all[..p + 1][..p] == all[..p];
        FirstHitAppend(docs, fetchable, show, key, value, Concat(all[..p]), all[p]);
        LaterPages(docs, fetchable, key, value, all, p + 1);
      }
    }
  }
}
