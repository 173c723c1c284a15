/** schema/parser/infoschema: indexes grouped from the rows of information_schema.statistics. */
module InfoSchema {
  import opened Outcomes
  import opened Values
  import opened Common
  import opened Schemas

  /** One column of one index, as one row. */
  datatype IndexRow = IndexRow(indexName: string, columnName: string, nonUnique: int)

  /** The indexes the rows speak of, the primary key aside. */
  function IndexNames(rows: seq<IndexRow>): set<string> {
    set i | 0 <= i < |rows| && rows[i].indexName != "PRIMARY" :: rows[i].indexName
  }

  /** Some row says the index is unique. */
  predicate IsUnique(rows: seq<IndexRow>, name: string) {
    exists i :: 0 <= i < |rows| && rows[i].indexName == name && name != "PRIMARY" && rows[i].nonUnique == 0
  }

  /** The columns of an index, in row order. */
  function ColumnsOf(rows: seq<IndexRow>, name: string): seq<string> {
    if rows == [] then []
    else
      var k := |rows| - 1;
      ColumnsOf(rows[..k], name) + (if rows[k].indexName == name then [rows[k].columnName] else [])
  }

  /** The columns of one row and of rows in parts. */
  lemma ColumnsOfOne(row: IndexRow, name: string)
    ensures ColumnsOf([], name) == []
    ensures ColumnsOf([row], name) == if row.indexName == name then [row.columnName] else []
  {
    assert [row][..0] == [];
  }

  lemma {:induction false} ColumnsOfParts(a: seq<IndexRow>, b: seq<IndexRow>, name: string)
    ensures ColumnsOf(a + b, name) == ColumnsOf(a, name) + ColumnsOf(b, name)
  {
    if b == [] {
      assert a + b == a;
    } else {
      var k := |b| - 1;
      assert (a + b)[..|a| + k] == a + b[..k];
      ColumnsOfParts(a, b[..k], name);
    }
  }

  function Uniques(rows: seq<IndexRow>, names: seq<string>): seq<string> {
    if names == [] then []
    else
      var k := |names| - 1;
      Uniques(rows, names[..k]) + (if IsUnique(rows, names[k]) then [names[k]] else [])
  }

  /** The unique ones of names in parts, in order. */
  lemma {:induction false} UniquesOfParts(rows: seq<IndexRow>, a: seq<string>, b: seq<string>)
    ensures Uniques(rows, a + b) == Uniques(rows, a) + Uniques(rows, b)
    ensures |a| == 1 ==> Uniques(rows, a) == if IsUnique(rows, a[0]) then a else []
  {
    hide IsUnique;
    if |a| == 1 {
      assert a[..0] == [] && a == [a[0]];
    }
    if b == [] {
      assert a + b == a;
    } else {
      var k := |b| - 1;
      assert (a + b)[..|a| + k] == a + b[..k];
      UniquesOfParts(rows, a, b[..k]);
    }
  }

  /** The first loop: rows grouped by index name. */
  method Group(rows: seq<IndexRow>) returns (indexMap: map<string, seq<string>>, uniqueIndexes: map<string, bool>)
    ensures indexMap.Keys == IndexNames(rows)
    ensures forall n <- indexMap :: indexMap[n] == ColumnsOf(rows, n)
    ensures forall n :: n in uniqueIndexes && uniqueIndexes[n] <==> IsUnique(rows, n)
  {
    indexMap, uniqueIndexes := map[], map[];
    for k := 0 to |rows|
      invariant indexMap.Keys == IndexNames(rows[..k])
      invariant forall n <- indexMap :: indexMap[n] == ColumnsOf(rows[..k], n)
      invariant forall n :: n !in indexMap && n != "PRIMARY" ==> ColumnsOf(rows[..k], n) == []
      invariant forall n :: n in uniqueIndexes && uniqueIndexes[n] <==> IsUnique(rows[..k], n)
    {
      var index := rows[k];
      OneMoreRow(rows, k);
      if index.indexName == "PRIMARY" {
        continue;
      }
      indexMap := indexMap[index.indexName :=
        (if index.indexName in indexMap then indexMap[index.indexName] else []) + [index.columnName]];
      if index.nonUnique == 0 {
        uniqueIndexes := uniqueIndexes[index.indexName := true];
      }
    }
    assert rows[..|rows|] == rows;
  }

  /** The indexes, and the unique ones, are those some row speaks of, the primary key aside. */
  lemma NamesInRows(rows: seq<IndexRow>)
    ensures forall n :: n in IndexNames(rows) <==> n != "PRIMARY" && exists row <- rows :: row.indexName == n
    ensures forall n :: IsUnique(rows, n) <==>
              n != "PRIMARY" && exists row <- rows :: row.indexName == n && row.nonUnique == 0
  {
  }

  lemma OneMoreRow(rows: seq<IndexRow>, k: nat)
    requires k < |rows|
    ensures IndexNames(rows[..k + 1]) == IndexNames(rows[..k]) + (if rows[k].indexName == "PRIMARY" then {}
                                                                  else {rows[k].indexName})
    ensures forall n :: ColumnsOf(rows[..k + 1], n) ==
              ColumnsOf(rows[..k], n) + (if rows[k].indexName == n then [rows[k].columnName] else [])
    ensures forall n :: IsUnique(rows[..k + 1], n) <==>
              IsUnique(rows[..k], n) || (rows[k].indexName == n && n != "PRIMARY" && rows[k].nonUnique == 0)
  {
    var all := rows[..k + 1];
    assert all[..k] == rows[..k] && all[k] == rows[k];
    forall n
      ensures IsUnique(all, n) <==>
                IsUnique(rows[..k], n) || (rows[k].indexName == n && n != "PRIMARY" && rows[k].nonUnique == 0)
    {
      assert forall i :: 0 <= i < k ==> all[i] == rows[..k][i];
    }
    forall n
      ensures n in IndexNames(all) <==> n in IndexNames(rows[..k]) || (rows[k].indexName == n && n != "PRIMARY")
    {
      assert forall i :: 0 <= i < k ==> all[i] == rows[..k][i];
    }
  }

  /** Appends each index once, in whatever order the map is ranged over, and the unique ones among
      them in the same order. */
  method ProcessIndexes(table: TableSchema, rows: seq<IndexRow>) returns (ghost order: seq<string>)
    modifies table
    ensures table.Info() == old(table.Info())
    ensures RangeOrder(order, IndexNames(rows))
    ensures table.indexes == old(table.indexes) + order
    ensures table.uniqueKeys == old(table.uniqueKeys) + Uniques(rows, order)
  {
    hide IsUnique, IndexNames, ColumnsOf;
    var indexMap, uniqueIndexes := Group(rows);
    var names := RangeOver(indexMap.Keys);
    order := names;
    for k := 0 to |names|
      invariant table.Info() == old(table.Info())
      invariant table.indexes == old(table.indexes) + names[..k]
      invariant table.uniqueKeys == old(table.uniqueKeys) + Uniques(rows, names[..k])
    {
      assert names[..k + 1] == names[..k] + [names[k]] && names[..k + 1][..k] == names[..k];
      table.indexes := table.indexes + [names[k]];
      if names[k] in uniqueIndexes && uniqueIndexes[names[k]] {
        table.uniqueKeys := table.uniqueKeys + [names[k]];
      }
    }
    assert names[..|names|] == names;
  }

  /** The unique keys are exactly the indexes some row calls unique. */
  lemma {:induction false} UniquesAre(rows: seq<IndexRow>, names: seq<string>)
    ensures forall n :: n in Uniques(rows, names) <==> n in names && IsUnique(rows, n)
  {
    hide IsUnique;
    if names != [] {
      var k := |names| - 1;
      UniquesAre(rows, names[..k]);
      assert names == names[..k] + [names[k]];
    }
  }
}
