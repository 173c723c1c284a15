/** Whole runs of the S3 adapter, and what its paged scan finds. */
module S3Runs {
  import opened Outcomes
  import opened Values
  import opened Common
  import opened S3Keys
  import opened S3Store

  // ---------------------------------------------------------------- runs

  datatype Command =
    | InsertCmd(obj: Object, now: int, later: int)
    | UpdateCmd(obj: Object, now: int)
    | DeleteCmd(table: string, id: string)
    | FindCmd(table: string, id: string)

  datatype Reply = Flag(flag: Outcome<bool>) | Fetched(found: Outcome<Option<Object>>)

  function PairOf(cmd: Command): (string, string) {
    match cmd
    case InsertCmd(obj, _, _) => (obj.tableName, obj.id)
    case UpdateCmd(obj, _) => (obj.tableName, obj.id)
    case DeleteCmd(t, i) => (t, i)
    case FindCmd(t, i) => (t, i)
  }

  /** One command on the map from (table, id) to fields. */
  ghost function Step(marshal: Marshal, norm: Codec, s: Store, cmd: Command): (Store, Reply) {
    var p := PairOf(cmd);
    match cmd
    case InsertCmd(obj, _, _) =>
      if CanMarshal(marshal, obj.fields) then (s[p := Normed(norm, obj.fields)], Flag(Ok(p !in s)))
        else (s, Flag(Err(CannotMarshal)))
    case UpdateCmd(obj, _) =>
      if p !in s then (s, Flag(Ok(false)))
      else if CanMarshal(marshal, obj.fields) then (s[p := Normed(norm, obj.fields)], Flag(Ok(true)))
      else (s, Flag(Err(CannotMarshal)))
    case DeleteCmd(_, _) => (s - {p}, Flag(Ok(p in s)))
    case FindCmd(t, i) => (s, Fetched(Ok(if p in s then Some(Object(t, i, s[p])) else None)))
  }

  ghost function Run(marshal: Marshal, norm: Codec, s: Store, cmds: seq<Command>): (r: (Store, seq<Reply>))
    ensures |r.1| == |cmds|
  {
    if cmds == [] then (s, [])
    else
      var k := |cmds| - 1;
      var (before, replies) := Run(marshal, norm, s, cmds[..k]);
      var (after, reply) := Step(marshal, norm, before, cmds[k]);
      (after, replies + [reply])
  }

  lemma RunOneMore(marshal: Marshal, norm: Codec, s: Store, cmds: seq<Command>, k: nat, before: Store,
                   replies: seq<Reply>, after: Store, reply: Reply)
    requires k < |cmds| && (before, replies) == Run(marshal, norm, s, cmds[..k])
    requires (after, reply) == Step(marshal, norm, before, cmds[k])
    ensures (after, replies + [reply]) == Run(marshal, norm, s, cmds[..k + 1])
  {
    hide Step;
    assert cmds[..k + 1][..k] == cmds[..k] && cmds[..k + 1][k] == cmds[k];
  }

  /** One call of the adapter is one step of the map. */
  method Perform(s: S3Storage, cmd: Command) returns (reply: Reply)
    requires s.client != null && s.client.reliable && Tidy(s.prefix, s.client.docs) && SlashFree(PairOf(cmd).0)
    modifies s.client
    ensures Tidy(s.prefix, s.client.docs)
    ensures (Contents(s.prefix, s.client.docs), reply) ==
            Step(s.marshal, s.norm, Contents(s.prefix, old(s.client.docs)), cmd)
  {
    hide TidyAt, Contents, ObjectKey, SlashFree, Tidy, CanMarshal, Normed;
    ghost var docs := s.client.docs;
    KeyIsPair(s.prefix, docs, PairOf(cmd).0, PairOf(cmd).1);
    match cmd {
      case InsertCmd(obj, now, later) =>
        ghost var k := ObjectKey(s.prefix, obj.tableName, obj.id);
        PutStores(s.prefix, docs, ObjectDoc(obj.id, obj.tableName, Normed(s.norm, obj.fields), Some(now),
                                            if k in docs then Some(later) else None));
        var out := s.Insert(obj, now, later);
        return Flag(out);
      case UpdateCmd(obj, now) =>
        PutStores(s.prefix, docs, ObjectDoc(obj.id, obj.tableName, Normed(s.norm, obj.fields), None, Some(now)));
        var out := s.Update(obj, now);
        return Flag(out);
      case DeleteCmd(t, i) =>
        DeleteForgets(s.prefix, docs, t, i);
        NothingToForget(Contents(s.prefix, docs), (t, i));
        var out := s.DeleteByID(t, i);
        return Flag(out);
      case FindCmd(t, i) =>
        var out := s.FindByID(t, i);
        FoundIs(s.prefix, docs, t, i, out);
        return Fetched(out);
    }
  }

  lemma FoundIs(prefix: string, docs: Docs, t: string, i: string, out: Outcome<Option<Object>>)
    requires Tidy(prefix, docs) && SlashFree(t) && out.Ok?
    requires var k := ObjectKey(prefix, t, i);
             && (out == Ok(None) ==> k !in docs)
             && (out.value.Some? ==> k in docs && docs[k].ObjectDoc? && out.value.value == ToObject(docs[k]))
    ensures var s := Contents(prefix, docs); out == Ok(if (t, i) in s then Some(Object(t, i, s[(t, i)])) else None)
  {
    hide Tidy, Contents, ObjectKey, SlashFree;
    KeyIsPair(prefix, docs, t, i);
  }

  lemma NothingToForget(s: Store, p: (string, string))
    ensures p !in s ==> s - {p} == s
  {
  }

  /** Any run of the adapter on a reliable bucket gives the replies of the map from (table, id) to
      fields and ends with its contents. */
  method Drive(s: S3Storage, cmds: seq<Command>) returns (replies: seq<Reply>)
    requires s.client != null && s.client.reliable && Tidy(s.prefix, s.client.docs)
    requires forall i :: 0 <= i < |cmds| ==> SlashFree(PairOf(cmds[i]).0)
    modifies s.client
    ensures Tidy(s.prefix, s.client.docs)
    ensures (Contents(s.prefix, s.client.docs), replies) ==
            Run(s.marshal, s.norm, Contents(s.prefix, old(s.client.docs)), cmds)
  {
    hide Tidy, Contents, Step;
    replies := [];
    ghost var start := Contents(s.prefix, s.client.docs);
    for k := 0 to |cmds|
      invariant Tidy(s.prefix, s.client.docs)
      invariant (Contents(s.prefix, s.client.docs), replies) == Run(s.marshal, s.norm, start, cmds[..k])
    {
      ghost var before := Contents(s.prefix, s.client.docs);
      var reply := Perform(s, cmds[k]);
      RunOneMore(s.marshal, s.norm, start, cmds, k, before, replies, Contents(s.prefix, s.client.docs), reply);
      replies := replies + [reply];
    }
    assert cmds[..|cmds|] == cmds;
  }

  /** Operations on other pairs, and lookups, leave a pair alone. */
  lemma {:induction false} RunLeavesOthers(marshal: Marshal, norm: Codec, s: Store, cmds: seq<Command>,
                                           p: (string, string))
    requires forall i :: 0 <= i < |cmds| ==> cmds[i].FindCmd? || PairOf(cmds[i]) != p
    ensures var after := Run(marshal, norm, s, cmds).0; (p in after <==> p in s) && (p in s ==> after[p] == s[p])
  {
    if cmds != [] {
      var k := |cmds| - 1;
      RunLeavesOthers(marshal, norm, s, cmds[..k], p);
    }
  }

  // ---------------------------------------------------------------- what was written is found

  /** Command i is a write that succeeded. */
  ghost predicate Wrote(marshal: Marshal, norm: Codec, s: Store, cmds: seq<Command>, i: nat) {
    && i < |cmds| && (cmds[i].InsertCmd? || cmds[i].UpdateCmd?)
    && var reply := Run(marshal, norm, s, cmds).1[i];
       reply.Flag? && reply.flag.Ok? && (cmds[i].UpdateCmd? ==> reply.flag.value)
  }

  lemma {:induction false} ReplyIsOfStep(marshal: Marshal, norm: Codec, s: Store, cmds: seq<Command>, i: nat)
    requires i < |cmds|
    ensures Run(marshal, norm, s, cmds).1[i] == Step(marshal, norm, Run(marshal, norm, s, cmds[..i]).0, cmds[i]).1
  {
    hide Step;
    var k := |cmds| - 1;
    if i < k {
      ReplyIsOfStep(marshal, norm, s, cmds[..k], i);
      assert cmds[..k][..i] == cmds[..i];
    }
  }

  lemma {:induction false} RunSplits(marshal: Marshal, norm: Codec, s: Store, cmds: seq<Command>, i: nat)
    requires i <= |cmds|
    ensures Run(marshal, norm, s, cmds).0 == Run(marshal, norm, Run(marshal, norm, s, cmds[..i]).0, cmds[i..]).0
  {
    hide Step;
    var k := |cmds| - 1;
    if i == |cmds| {
      assert cmds[..i] == cmds;
    } else {
      RunSplits(marshal, norm, s, cmds[..k], i);
      assert cmds[..k][..i] == cmds[..i] && cmds[i..][..k - i] == cmds[..k][i..] && cmds[i..][k - i] == cmds[k];
    }
  }

  /** In any run, a lookup finds what the last successful write of its pair was given, whatever was
      done to other pairs in between. */
  lemma WrittenIsFound(marshal: Marshal, norm: Codec, s: Store, cmds: seq<Command>, i: nat, j: nat)
    requires Wrote(marshal, norm, s, cmds, i) && i < j < |cmds| && cmds[j].FindCmd?
    requires (cmds[j].table, cmds[j].id) == (cmds[i].obj.tableName, cmds[i].obj.id)
    requires forall k :: i < k < j ==> cmds[k].FindCmd? || PairOf(cmds[k]) != PairOf(cmds[j])
    ensures var reply, given := Run(marshal, norm, s, cmds).1[j], cmds[i].obj;
            && reply.Fetched? && reply.found.Ok? && reply.found.value.Some?
            && var o := reply.found.value.value;
               && o.tableName == given.tableName && o.id == given.id && o.fields.Keys == given.fields.Keys
               && forall n <- given.fields :: o.fields[n] == norm(given.fields[n])
  {
    ReplyIsOfStep(marshal, norm, s, cmds, i);
    ReplyIsOfStep(marshal, norm, s, cmds, j);
    var p := PairOf(cmds[j]);
    var before, after := Run(marshal, norm, s, cmds[..i]).0, Run(marshal, norm, s, cmds[..i + 1]).0;
    assert cmds[..i + 1][..i] == cmds[..i];
    assert after == Step(marshal, norm, before, cmds[i]).0;
    RunSplits(marshal, norm, s, cmds[..j], i + 1);
    assert cmds[..j][..i + 1] == cmds[..i + 1];
    RunLeavesOthers(marshal, norm, after, cmds[..j][i + 1..], p);
  }

  /** One Insert and then a lookup of the adapter, on any bucket that does not fail. */
  method InsertThenFind(s: S3Storage, obj: Object, now: int, later: int)
    returns (created: Outcome<bool>, found: Outcome<Option<Object>>)
    requires s.client != null && s.client.reliable
    modifies s.client
    ensures created.Ok? <==> forall n <- obj.fields :: s.marshal(obj.fields[n]).Some?
    ensures created.Ok? ==>
              && found.Ok? && found.value.Some?
              && var o := found.value.value;
                 && o.tableName == obj.tableName && o.id == obj.id && o.fields.Keys == obj.fields.Keys
                 && forall n <- obj.fields :: o.fields[n] == s.norm(obj.fields[n])
  {
    created := s.Insert(obj, now, later);
    found := s.FindByID(obj.tableName, obj.id);
  }

  /** One Update that finds its object, and then a lookup. */
  method UpdateThenFind(s: S3Storage, obj: Object, now: int)
    returns (updated: Outcome<bool>, found: Outcome<Option<Object>>)
    requires s.client != null && s.client.reliable
    modifies s.client
    ensures updated == Ok(true) ==>
              && found.Ok? && found.value.Some?
              && var o := found.value.value;
                 && o.tableName == obj.tableName && o.id == obj.id && o.fields.Keys == obj.fields.Keys
                 && forall n <- obj.fields :: o.fields[n] == s.norm(obj.fields[n])
  {
    updated := s.Update(obj, now);
    found := s.FindByID(obj.tableName, obj.id);
  }

  // ---------------------------------------------------------------- the paged scan

  /** The order of a listing: by character codes. */
  predicate Less(a: string, b: string) {
    b != "" && (a == "" || a[0] < b[0] || (a[0] == b[0] && Less(a[1..], b[1..])))
  }

  /** The texts are the same up to position i, where the first ends or has the smaller character. */
  predicate SmallerAt(a: string, b: string, i: nat) {
    i <= |a| && i < |b| && (forall k :: 0 <= k < i ==> a[k] == b[k]) && (i == |a| || a[i] < b[i])
  }

  lemma {:induction false} LessMeans(a: string, b: string)
    ensures Less(a, b) <==> exists i: nat :: SmallerAt(a, b, i)
  {
    assert SmallerAt(a, b, 0) <==> b != "" && (a == "" || a[0] < b[0]);
    if a != "" && b != "" {
      LessMeans(a[1..], b[1..]);
      if Less(a[1..], b[1..]) {
        var i: nat :| SmallerAt(a[1..], b[1..], i);
        SmallerLater(a, b, i);
      }
      if i: nat :| SmallerAt(a, b, i) && i > 0 {
        SmallerLater(a, b, i - 1);
      }
    }
  }

  lemma SmallerLater(a: string, b: string, i: nat)
    requires a != "" && b != ""
    ensures SmallerAt(a, b, i + 1) <==> a[0] == b[0] && SmallerAt(a[1..], b[1..], i)
  {
    if SmallerAt(a[1..], b[1..], i) && a[0] == b[0] {
      forall k | 0 <= k < i + 1 ensures a[k] == b[k] {
        assert k == 0 || a[1..][k - 1] == b[1..][k - 1];
      }
    }
  }

  /** The keys of the bucket under a prefix, in order. */
  ghost predicate IsListing(docs: Docs, under: string, listing: seq<string>) {
    && (forall k :: k in listing <==> k in docs && under <= k)
    && forall i, j :: 0 <= i < j < |listing| ==> Less(listing[i], listing[j])
  }

  /** The object of the table under id has the field. */
  ghost predicate HasField(s: Store, show: Value -> string, tbl: string, key: string, value: string, id: string) {
    (tbl, id) in s && key in s[(tbl, id)] && show(s[(tbl, id)][key]) == value
  }

  lemma {:induction false} FirstComesFirst(docs: Docs, fetchable: string -> bool, show: Value -> string, key: string,
                                           value: string, keys: seq<string>, k: string, k': string)
    requires forall i, j :: 0 <= i < j < |keys| ==> Less(keys[i], keys[j])
    requires FirstHit(docs, fetchable, show, key, value, keys) == Some(k)
    requires k' in keys && k' != k && Hit(docs, fetchable, show, key, value, k')
    ensures Less(k, k')
  {
    hide Hit, Less;
    if k == keys[0] {
      var i :| 0 <= i < |keys| && keys[i] == k';
    } else {
      assert k' != keys[0];
      FirstComesFirst(docs, fetchable, show, key, value, keys[1..], k, k');
    }
  }

  /** In a tidy bucket the keys listed for a table are its object keys, each with one object. */
  lemma ListedIsObject(prefix: string, docs: Docs, tbl: string, listing: seq<string>, k: string)
    requires Tidy(prefix, docs) && SlashFree(tbl) && IsListing(docs, TablePrefix(prefix, tbl), listing) && k in listing
    ensures k in docs && docs[k].ObjectDoc? && docs[k].tableName == tbl && k == ObjectKey(prefix, tbl, docs[k].id)
  {
    assert TidyAt(prefix, k, docs[k]);
    match docs[k] {
      case ObjectDoc(id, t, _, _, _) => PrefixMatches(prefix, tbl, t, id);
      case Other =>
        forall u | SlashFree(u) ensures !(TablePrefix(prefix, tbl) <= MetadataKey(prefix, u))
          && !(TablePrefix(prefix, tbl) <= SchemaKey(prefix))
        {
          PrefixMissesTheRest(prefix, tbl, u);
        }
        PrefixMissesTheRest(prefix, tbl, tbl);
    }
  }

  lemma ObjectIsListed(prefix: string, docs: Docs, tbl: string, listing: seq<string>, id: string)
    requires SlashFree(tbl) && IsListing(docs, TablePrefix(prefix, tbl), listing) && ObjectKey(prefix, tbl, id) in docs
    ensures ObjectKey(prefix, tbl, id) in listing && HasSuffix(ObjectKey(prefix, tbl, id), ".json")
  {
    PrefixMatches(prefix, tbl, tbl, id);
    var k := ObjectKey(prefix, tbl, id);
    assert k[|k| - 5..] == ".json";
  }

  /** A hit is an object of the table with the field, and the other way around when its document
      can be fetched. */
  lemma HitIsField(prefix: string, docs: Docs, fetchable: string -> bool, show: Value -> string, tbl: string,
                   key: string, value: string, listing: seq<string>, id: string)
    requires Tidy(prefix, docs) && SlashFree(tbl) && IsListing(docs, TablePrefix(prefix, tbl), listing)
    ensures var k := ObjectKey(prefix, tbl, id);
            k in listing && Hit(docs, fetchable, show, key, value, k) <==>
            HasField(Contents(prefix, docs), show, tbl, key, value, id) && fetchable(k)
  {
    hide Tidy, IsListing, ObjectKey, SlashFree;
    var k := ObjectKey(prefix, tbl, id);
    KeyIsPair(prefix, docs, tbl, id);
    if k in listing {
      ListedIsObject(prefix, docs, tbl, listing, k);
    }
    if k in docs {
      ObjectIsListed(prefix, docs, tbl, listing, id);
    }
  }

  /** The answer of FindByKey when the whole listing of the table is scanned: nothing exactly when
      no fetchable object of the table has the field, and otherwise the first that has, in key
      order. How the listing is cut into pages does not matter. */
  lemma ScanMeans(prefix: string, docs: Docs, fetchable: string -> bool, show: Value -> string, tbl: string,
                  key: string, value: string, listing: seq<string>)
    requires Tidy(prefix, docs) && SlashFree(tbl) && IsListing(docs, TablePrefix(prefix, tbl), listing)
    ensures var s := Contents(prefix, docs);
            match FirstHit(docs, fetchable, show, key, value, listing)
            case None => forall id :: HasField(s, show, tbl, key, value, id) ==> !fetchable(ObjectKey(prefix, tbl, id))
            case Some(k) =>
              && k in docs && docs[k].ObjectDoc? && docs[k].tableName == tbl && k == ObjectKey(prefix, tbl, docs[k].id)
              && HasField(s, show, tbl, key, value, docs[k].id) && docs[k].fields == s[(tbl, docs[k].id)]
              && forall id | id != docs[k].id && HasField(s, show, tbl, key, value, id) ::
                   fetchable(ObjectKey(prefix, tbl, id)) ==> Less(k, ObjectKey(prefix, tbl, id))
  {
    hide Tidy, Hit, HasField, ObjectKey, SlashFree, Less, TablePrefix;
    forall id
      ensures var k := ObjectKey(prefix, tbl, id);
              k in listing && Hit(docs, fetchable, show, key, value, k) <==>
              HasField(Contents(prefix, docs), show, tbl, key, value, id) && fetchable(k)
    {
      HitIsField(prefix, docs, fetchable, show, tbl, key, value, listing, id);
    }
    var r := FirstHit(docs, fetchable, show, key, value, listing);
    if r.Some? {
      var k := r.value;
      ListedIsObject(prefix, docs, tbl, listing, k);
      KeyIsPair(prefix, docs, tbl, docs[k].id);
      forall id | id != docs[k].id && HasField(Contents(prefix, docs), show, tbl, key, value, id)
        && fetchable(ObjectKey(prefix, tbl, id))
        ensures Less(k, ObjectKey(prefix, tbl, id))
      {
        OtherKey(prefix, tbl, docs[k].id, id);
        FirstComesFirst(docs, fetchable, show, key, value, listing, k, ObjectKey(prefix, tbl, id));
      }
    }
  }

  lemma OtherKey(prefix: string, tbl: string, i: string, j: string)
    requires SlashFree(tbl) && i != j
    ensures ObjectKey(prefix, tbl, i) != ObjectKey(prefix, tbl, j)
  {
    if ObjectKey(prefix, tbl, i) == ObjectKey(prefix, tbl, j) {
      KeysInjective(prefix, tbl, i, tbl, j);
    }
  }

  /** FindByKey on a bucket whose listing and documents can all be read, whatever the pages. */
  method Find(s: S3Storage, tblName: string, key: string, value: string, pages: seq<seq<string>>)
    returns (out: Outcome<Option<Object>>)
    requires s.client != null && Tidy(s.prefix, s.client.docs) && SlashFree(tblName)
    requires IsListing(s.client.docs, TablePrefix(s.prefix, tblName), Concat(pages))
    ensures out.Ok?
    ensures out == Ok(None) <==> forall id :: !HasField(Contents(s.prefix, s.client.docs), s.show, tblName, key, value,
                                                        id)
    ensures out != Ok(None) ==>
              var o := out.value.value; var store := Contents(s.prefix, s.client.docs);
              && o.tableName == tblName && HasField(store, s.show, tblName, key, value, o.id)
                 && o.fields == store[(tblName, o.id)]
              && forall id :: id != o.id && HasField(store, s.show, tblName, key, value, id) ==>
                   Less(ObjectKey(s.prefix, tblName, o.id), ObjectKey(s.prefix, tblName, id))
  {
    hide Tidy, Hit, HasField, ObjectKey, SlashFree, Less, TablePrefix, IsListing, Contents;
    ScanMeans(s.prefix, s.client.docs, k => true, s.show, tblName, key, value, Concat(pages));
    out := s.FindByKey(tblName, key, value, pages, None, k => true);
  }
}
