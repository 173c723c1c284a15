/** storage/common: the statement data and the typed cells shared by the SQL adapters. */
module Common {
  import opened Outcomes
  import opened Text
  import opened Values
  import opened Engine
  import opened Statements

  /** json.Marshal on one value; None when it fails. */
  type Marshal = Value -> Option<string>

  /** A possible order for ranging over a map with these keys. */
  ghost predicate RangeOrder(order: seq<string>, keys: set<string>) {
    Distinct(order) && (set n | n in order) == keys
  }

  /** Ranging over a map: any order of its keys, each once. */
  method RangeOver(keys: set<string>) returns (order: seq<string>)
    ensures RangeOrder(order, keys)
  {
    order := [];
    var rest := keys;
    while rest != {}
      invariant forall n :: n in keys <==> n in order || n in rest
      invariant forall n <- rest :: n !in order
      invariant Distinct(order)
      decreases rest
    {
      var name :| name in rest;
      order := order + [name];
      rest := rest - {name};
    }
    assert (set n | n in order) == keys;
  }

  lemma InRange(order: seq<string>, keys: set<string>)
    requires RangeOrder(order, keys)
    ensures forall n <- order :: n in keys
  {
    forall n | n in order ensures n in keys {
      assert n in (set k | k in order);
    }
  }

  /** Every finite set can be ranged over. */
  lemma {:induction false} AnyOrder(keys: set<string>) returns (order: seq<string>)
    ensures RangeOrder(order, keys)
    decreases keys
  {
    if keys == {} {
      order := [];
    } else {
      var name :| name in keys;
      var rest := AnyOrder(keys - {name});
      order := rest + [name];
      assert forall n :: n in (set k | k in rest) <==> n in rest;
      forall n ensures n in order <==> n in keys {
        assert n in rest <==> n in keys - {name};
        assert n in order <==> n in rest || n == name;
      }
      assert (set n | n in order) == keys;
    }
  }

  /** The names left when every spelling of id is skipped. */
  function NonId(order: seq<string>): seq<string> {
    if order == [] then []
    else
      var k := |order| - 1;
      if IsId(order[k]) then NonId(order[..k]) else NonId(order[..k]) + [order[k]]
  }

  lemma {:induction false} NonIdMembers(order: seq<string>)
    ensures forall n :: n in NonId(order) <==> n in order && !IsId(n)
    ensures Distinct(order) ==> Distinct(NonId(order))
  {
    if order != [] {
      var k := |order| - 1;
      NonIdMembers(order[..k]);
      assert order == order[..k] + [order[k]];
      if Distinct(order) {
        assert forall i :: 0 <= i < k ==> order[..k][i] == order[i] && order[i] != order[k];
      }
    }
  }

  predicate IsJson(f: ColumnData) {
    Lower(f.dataType) == "json"
  }

  /** What Insert stores for a field: the encoding of a JSON column, anything else as it is. */
  function Encode(marshal: Marshal, f: ColumnData, v: Value): Option<Value> {
    if IsJson(f) then
      match marshal(v) case Some(s) => Some(Str(s)) case None => None
    else Some(v)
  }

  lemma NonIdStep(order: seq<string>, k: nat)
    requires k < |order|
    ensures NonId(order[..k + 1]) == if IsId(order[k]) then NonId(order[..k]) else NonId(order[..k]) + [order[k]]
  {
    assert order[..k + 1][..k] == order[..k];
  }

  /** What would be stored for a field of the object; an error when there is no such column
      or the value cannot be encoded. */
  function StoredValue(marshal: Marshal, tbl: TableInfo, v: Value, n: string): Outcome<Value> {
    if n !in tbl.fields then Err(UnknownField(n))
    else
      match Encode(marshal, tbl.fields[n], v)
      case Some(w) => Ok(w)
      case None => Err(CannotMarshal)
  }

  predicate Covers(fields: map<string, Value>, names: seq<string>) {
    forall i :: 0 <= i < |names| ==> names[i] in fields
  }

  predicate Fits(marshal: Marshal, tbl: TableInfo, fields: map<string, Value>, names: seq<string>) {
    forall i :: 0 <= i < |names| ==> names[i] in fields && StoredValue(marshal, tbl, fields[names[i]], names[i]).Ok?
  }

  function Stored(marshal: Marshal, tbl: TableInfo, fields: map<string, Value>, names: seq<string>): (vs: seq<Value>)
    requires Fits(marshal, tbl, fields, names)
    ensures |vs| == |names|
    ensures forall i :: 0 <= i < |names| ==> vs[i] == StoredValue(marshal, tbl, fields[names[i]], names[i]).value
  {
    seq(|names|, i requires 0 <= i < |names| => StoredValue(marshal, tbl, fields[names[i]], names[i]).value)
  }

  /** The first error met when the fields are taken in this order. */
  function Fault(marshal: Marshal, tbl: TableInfo, fields: map<string, Value>, names: seq<string>): (r: Option<Reason>)
    requires Covers(fields, names)
    ensures r == None <==> Fits(marshal, tbl, fields, names)
  {
    if names == [] then None
    else
      var v := StoredValue(marshal, tbl, fields[names[0]], names[0]);
      if v.Err? then Some(v.reason) else Fault(marshal, tbl, fields, names[1..])
  }

  lemma {:induction false} FaultAt(marshal: Marshal, tbl: TableInfo, fields: map<string, Value>,
                                   names: seq<string>, k: nat, r: Reason)
    requires Covers(fields, names) && k < |names|
    requires Fits(marshal, tbl, fields, names[..k])
    requires StoredValue(marshal, tbl, fields[names[k]], names[k]) == Err(r)
    ensures Fault(marshal, tbl, fields, names) == Some(r)
  {
    if k > 0 {
      assert names[..k][0] == names[0];
      assert names[1..][..k - 1] == names[..k][1..];
      FaultAt(marshal, tbl, fields, names[1..], k - 1, r);
    }
  }

  lemma NonIdCovered(fields: map<string, Value>, order: seq<string>)
    requires RangeOrder(order, fields.Keys)
    ensures Covers(fields, NonId(order))
  {
    NonIdMembers(order);
    forall i | 0 <= i < |NonId(order)| ensures NonId(order)[i] in fields {
      assert NonId(order)[i] in (set n | n in order);
    }
  }

  lemma {:induction false} NonIdPrefix(order: seq<string>, k: nat)
    requires k <= |order|
    ensures NonId(order[..k]) <= NonId(order)
    decreases |order| - k
  {
    if k == |order| {
      assert order[..k] == order;
    } else {
      NonIdStep(order, k);
      NonIdPrefix(order, k + 1);
    }
  }

  lemma PlaceholdersStep(style: Style, n: nat)
    ensures Placeholders(style, 1, n + 1) == Placeholders(style, 1, n) + [Placeholder(style, n + 1)]
  {
  }

  lemma StoredStep(marshal: Marshal, tbl: TableInfo, fields: map<string, Value>, names: seq<string>, name: string,
                   v: Value)
    requires Fits(marshal, tbl, fields, names)
    requires name in fields && StoredValue(marshal, tbl, fields[name], name) == Ok(v)
    ensures Fits(marshal, tbl, fields, names + [name])
    ensures Stored(marshal, tbl, fields, names + [name]) == Stored(marshal, tbl, fields, names) + [v]
  {
  }

  /** A name about to be handled follows the names already handled. */
  lemma NextName(order: seq<string>, k: nat)
    requires k < |order| && !IsId(order[k])
    ensures var names := NonId(order[..k]); var all := NonId(order);
            |names| < |all| && all[..|names|] == names && all[|names|] == order[k]
  {
    NonIdStep(order, k);
    NonIdPrefix(order, k + 1);
  }

  /** Before the first field. */
  lemma NothingStored(marshal: Marshal, tbl: TableInfo, fields: map<string, Value>, id: string)
    ensures NonId([]) == [] && Fits(marshal, tbl, fields, []) && ["id"] + [] == ["id"]
    ensures [Str(id)] + Stored(marshal, tbl, fields, []) == [Str(id)]
    ensures forall style {:trigger Placeholder(style, 1)} :: Placeholders(style, 1, 1) == [Placeholder(style, 1)]
  {
  }

  lemma NoneFaulty(marshal: Marshal, tbl: TableInfo, fields: map<string, Value>, names: seq<string>)
    requires Covers(fields, names) && Fits(marshal, tbl, fields, names)
    ensures Fault(marshal, tbl, fields, names) == None
  {
  }

  // ---------------------------------------------------------------- what the loops list, by their guards

  /** The names are those of the object that are no spelling of id, each once. */
  ghost predicate OtherNames(fields: map<string, Value>, names: seq<string>) {
    && (forall n :: n in names <==> n in fields && Lower(n) != "id")
    && forall i, j :: 0 <= i < j < |names| ==> names[i] != names[j]
  }

  /** One value for each name: the encoding of the field in a column of type json, whatever its
      letters, and the field itself in any other. */
  ghost predicate ValuesOf(marshal: Marshal, tbl: TableInfo, fields: map<string, Value>, names: seq<string>,
                           values: seq<Value>)
  {
    |values| == |names| && forall i :: 0 <= i < |names| ==>
      var n := names[i];
      && n in fields && n in tbl.fields
      && (Lower(tbl.fields[n].dataType) == "json" ==>
            marshal(fields[n]).Some? && values[i] == Str(marshal(fields[n]).value))
      && (Lower(tbl.fields[n].dataType) != "json" ==> values[i] == fields[n])
  }

  /** Name k is the first that the schema does not have, or whose column is of type json and whose
      value cannot be encoded; that is the error. */
  ghost predicate FaultyAt(marshal: Marshal, tbl: TableInfo, fields: map<string, Value>, names: seq<string>, k: nat,
                           r: Reason)
  {
    && k < |names| && names[k] in fields
    && (forall i :: 0 <= i < k ==>
          && names[i] in tbl.fields && names[i] in fields
          && (Lower(tbl.fields[names[i]].dataType) == "json" ==> marshal(fields[names[i]]).Some?))
    && (if names[k] !in tbl.fields then r == UnknownField(names[k])
        else Lower(tbl.fields[names[k]].dataType) == "json" && marshal(fields[names[k]]) == None && r == CannotMarshal)
  }

  ghost predicate FirstFaulty(marshal: Marshal, tbl: TableInfo, fields: map<string, Value>, names: seq<string>,
                              r: Reason)
  {
    exists k: nat :: FaultyAt(marshal, tbl, fields, names, k, r)
  }

  lemma OthersListed(fields: map<string, Value>, order: seq<string>)
    requires RangeOrder(order, fields.Keys)
    ensures OtherNames(fields, NonId(order))
  {
    NonIdMembers(order);
    assert forall n :: n in order <==> n in (set m | m in order);
    hide Lower;
  }

  lemma StoredByGuard(marshal: Marshal, tbl: TableInfo, fields: map<string, Value>, names: seq<string>)
    requires Covers(fields, names)
    ensures Fault(marshal, tbl, fields, names) == None ==>
              Fits(marshal, tbl, fields, names)
              && ValuesOf(marshal, tbl, fields, names, Stored(marshal, tbl, fields, names))
  {
    hide Lower;
  }

  lemma {:induction false} FaultByGuard(marshal: Marshal, tbl: TableInfo, fields: map<string, Value>,
                                        names: seq<string>)
    requires Covers(fields, names) && Fault(marshal, tbl, fields, names).Some?
    ensures FirstFaulty(marshal, tbl, fields, names, Fault(marshal, tbl, fields, names).value)
  {
    hide Lower;
    var r := Fault(marshal, tbl, fields, names).value;
    var v := StoredValue(marshal, tbl, fields[names[0]], names[0]);
    if v.Err? {
      assert FaultyAt(marshal, tbl, fields, names, 0, r);
    } else {
      assert Covers(fields, names[1..]);
      FaultByGuard(marshal, tbl, fields, names[1..]);
      var k: nat :| FaultyAt(marshal, tbl, fields, names[1..], k, r);
      assert FaultyAt(marshal, tbl, fields, names, k + 1, r);
    }
  }

  /** What a loop over the fields promises of its values and its error. */
  ghost predicate ByTheGuards(marshal: Marshal, tbl: TableInfo, obj: Object, names: seq<string>, values: seq<Value>,
                              err: Option<Reason>)
  {
    && OtherNames(obj.fields, names)
    && (err == None ==>
          |values| > 0 && values[0] == Str(obj.id) && ValuesOf(marshal, tbl, obj.fields, names, values[1..]))
    && (err.Some? ==> FirstFaulty(marshal, tbl, obj.fields, names, err.value))
  }

  lemma LoopByTheGuards(marshal: Marshal, tbl: TableInfo, obj: Object, order: seq<string>, values: seq<Value>,
                        err: Option<Reason>)
    requires RangeOrder(order, obj.fields.Keys) && Covers(obj.fields, NonId(order))
    requires err == Fault(marshal, tbl, obj.fields, NonId(order))
    requires err == None ==> values == [Str(obj.id)] + Stored(marshal, tbl, obj.fields, NonId(order))
    ensures ByTheGuards(marshal, tbl, obj, NonId(order), values, err)
  {
    hide Fault, Stored, Fits, OtherNames, ValuesOf, FirstFaulty, RangeOrder, NonId, Covers;
    OthersListed(obj.fields, order);
    if err == None {
      StoredByGuard(marshal, tbl, obj.fields, NonId(order));
      assert values[1..] == Stored(marshal, tbl, obj.fields, NonId(order));
    } else {
      FaultByGuard(marshal, tbl, obj.fields, NonId(order));
    }
  }

  /** Columns, placeholders and values of an INSERT, for the fields in range order. */
  method PrepareInsertData(obj: Object, tbl: TableInfo, style: Style, marshal: Marshal, order: seq<string>)
    returns (columns: seq<string>, placeholders: seq<string>, values: seq<Value>, err: Option<Reason>)
    requires RangeOrder(order, obj.fields.Keys)
    ensures Covers(obj.fields, NonId(order))
    ensures err == Fault(marshal, tbl, obj.fields, NonId(order))
    ensures err == None ==>
              && columns == ["id"] + NonId(order)
              && placeholders == Placeholders(style, 1, |columns|)
              && values == [Str(obj.id)] + Stored(marshal, tbl, obj.fields, NonId(order))
    ensures ByTheGuards(marshal, tbl, obj, NonId(order), values, err)
  {
    hide NonId, Fits, Stored, Fault, Placeholders, Placeholder, IsId, IsJson, RangeOrder, Covers, ByTheGuards;
    NonIdCovered(obj.fields, order);
    NothingStored(marshal, tbl, obj.fields, obj.id);
    columns, placeholders, values := ["id"], [Placeholder(style, 1)], [Str(obj.id)];
    var paramIndex := 2;
    for k := 0 to |order|
      invariant Fits(marshal, tbl, obj.fields, NonId(order[..k]))
      invariant columns == ["id"] + NonId(order[..k]) && paramIndex == |columns| + 1
      invariant placeholders == Placeholders(style, 1, |columns|)
      invariant values == [Str(obj.id)] + Stored(marshal, tbl, obj.fields, NonId(order[..k]))
    {
      var name := order[k];
      ghost var names := NonId(order[..k]);
      NonIdStep(order, k);
      if IsId(name) {
        continue;
      }
      NextName(order, k);
      PlaceholdersStep(style, |columns|);
      columns := columns + [name];
      placeholders := placeholders + [Placeholder(style, paramIndex)];
      if name !in tbl.fields {
        err := Some(UnknownField(name));
        FaultAt(marshal, tbl, obj.fields, NonId(order), |names|, UnknownField(name));
        LoopByTheGuards(marshal, tbl, obj, order, values, err);
        return;
      }
      var encoded := Encode(marshal, tbl.fields[name], obj.fields[name]);
      if encoded == None {
        err := Some(CannotMarshal);
        FaultAt(marshal, tbl, obj.fields, NonId(order), |names|, CannotMarshal);
        LoopByTheGuards(marshal, tbl, obj, order, values, err);
        return;
      }
      StoredStep(marshal, tbl, obj.fields, names, name, encoded.value);
      values := values + [encoded.value];
      paramIndex := paramIndex + 1;
    }
    assert order[..|order|] == order;
    NoneFaulty(marshal, tbl, obj.fields, NonId(order));
    err := None;
    LoopByTheGuards(marshal, tbl, obj, order, values, err);
  }

  function FieldValues(fields: map<string, Value>, names: seq<string>): (vs: seq<Value>)
    requires Covers(fields, names)
    ensures |vs| == |names| && forall i :: 0 <= i < |names| ==> vs[i] == fields[names[i]]
  {
    seq(|names|, i requires 0 <= i < |names| => fields[names[i]])
  }

  /** SET clauses and values of an UPDATE; the id comes last. Values are not encoded. An object
      without any field asks make for a negative capacity, which panics. */
  method PrepareUpdateData(obj: Object, style: Style, order: seq<string>)
    returns (out: Outcome<(seq<string>, seq<Value>)>)
    requires RangeOrder(order, obj.fields.Keys)
    ensures Covers(obj.fields, NonId(order))
    ensures out == if obj.fields == map[] then Panic
                   else Ok((SetClauses(Bares(NonId(order)), style, 1),
                            FieldValues(obj.fields, NonId(order)) + [Str(obj.id)]))
    ensures OtherNames(obj.fields, NonId(order))
  {
    OthersListed(obj.fields, order);
    hide OtherNames, NonId, SetClauses, FieldValues, Placeholder, Bares, Lower;
    NonIdCovered(obj.fields, order);
    NothingSet(obj.fields, style);
    if |obj.fields| == 0 {
      return Panic;
    }
    var setClauses: seq<string>, values: seq<Value> := [], [];
    var paramIndex := 1;
    for k := 0 to |order|
      invariant Covers(obj.fields, NonId(order[..k]))
      invariant setClauses == SetClauses(Bares(NonId(order[..k])), style, 1) && paramIndex == |setClauses| + 1
      invariant values == FieldValues(obj.fields, NonId(order[..k]))
    {
      var name := order[k];
      ghost var names := NonId(order[..k]);
      NonIdStep(order, k);
      if IsId(name) {
        continue;
      }
      NextName(order, k);
      ClausesStep(obj.fields, style, names, name);
      setClauses := setClauses + [name + " = " + Placeholder(style, paramIndex)];
      values := values + [obj.fields[name]];
      paramIndex := paramIndex + 1;
    }
    assert order[..|order|] == order;
    return Ok((setClauses, values + [Str(obj.id)]));
  }

  lemma NothingSet(fields: map<string, Value>, style: Style)
    ensures NonId([]) == [] && SetClauses(Bares([]), style, 1) == [] && FieldValues(fields, []) == []
  {
  }

  lemma ClausesStep(fields: map<string, Value>, style: Style, names: seq<string>, name: string)
    requires Covers(fields, names) && name in fields
    ensures Covers(fields, names + [name])
    ensures SetClauses(Bares(names + [name]), style, 1) ==
            SetClauses(Bares(names), style, 1) + [name + " = " + Placeholder(style, |names| + 1)]
    ensures FieldValues(fields, names + [name]) == FieldValues(fields, names) + [fields[name]]
  {
    hide Placeholder;
    assert Bares(names + [name]) == Bares(names) + [Bare(name)];
  }
}
