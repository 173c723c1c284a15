/** schema: table schemas grown field by field, and the schema that holds them. */
module Schemas {
  import opened Outcomes
  import opened Values
  import opened Scanner

  class TableSchema {
    var tableName: string
    var fields: map<string, ColumnData>
    var fieldOrder: seq<string>
    var primaryKey: string
    var indexes: seq<string>
    var uniqueKeys: seq<string>
    var autoIncrementFields: seq<string>

    constructor (name: string)
      ensures Info() == TableInfo(name, map[], []) && Valid()
      ensures primaryKey == "" && indexes == [] && uniqueKeys == [] && autoIncrementFields == []
    {
      tableName, fields, fieldOrder := name, map[], [];
      primaryKey, indexes, uniqueKeys, autoIncrementFields := "", [], [], [];
    }

    /** The copy that GetTable hands out. */
    function Info(): TableInfo
      reads this
    {
      TableInfo(tableName, fields, fieldOrder)
    }

    ghost predicate Valid()
      reads this
    {
      BuiltByAddField(Info())
    }

    /** Adds a field, or redefines the one of that name; a nameless field is ignored. A name added
        twice is listed twice in the field order. */
    method AddField(field: ColumnData)
      requires Valid()
      modifies this
      ensures Valid()
      ensures tableName == old(tableName) && indexes == old(indexes) && uniqueKeys == old(uniqueKeys)
      ensures fields == if field.name == "" then old(fields) else old(fields)[field.name := field]
      ensures fieldOrder == if field.name == "" then old(fieldOrder) else old(fieldOrder) + [field.name]
      ensures primaryKey == if field.name != "" && field.primaryKey then field.name else old(primaryKey)
      ensures autoIncrementFields ==
              if field.name != "" && field.autoIncrement then old(autoIncrementFields) + [field.name]
                else old(autoIncrementFields)
    {
      if field.name == "" {
        return;
      }
      fields := fields[field.name := field];
      fieldOrder := fieldOrder + [field.name];
      if field.primaryKey {
        primaryKey := field.name;
      }
      if field.autoIncrement {
        autoIncrementFields := autoIncrementFields + [field.name];
      }
    }
  }

  class SchemaMap {
    var tables: map<string, TableSchema>

    constructor ()
      ensures tables == map[]
    {
      tables := map[];
    }

    method AddTable(table: TableSchema?)
      modifies this
      ensures tables == if table == null then old(tables) else old(tables)[table.tableName := table]
    {
      if table == null {
        return;
      }
      tables := tables[table.tableName := table];
    }

    /** The lookup dereferences what it finds before it says whether it found anything. */
    method GetTable(name: string) returns (out: Outcome<TableInfo>)
      ensures out == if name in tables then Ok(tables[name].Info()) else Panic
    {
      if name !in tables {
        return Panic;
      }
      return Ok(tables[name].Info());
    }
  }
}
