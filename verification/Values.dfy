/** Go values, database cells, objects and table schemas. */
module Values {
  import opened Outcomes
  import opened Text

  /** What an `any` in Object.Fields can hold. NilBytes is a nil []byte, which is not the nil
      interface. Composite stands for maps, slices and structs. */
  datatype Value =
    | Nil
    | Str(s: string)
    | Int(i: int)
    | Float(r: real)
    | Boolean(b: bool)
    | Bytes(bs: seq<bv8>)
    | NilBytes
    | Composite(tag: int)

  datatype Cell =
    | Null
    | Text(s: string)
    | Integer(i: int)
    | Real(r: real)
    | Logical(b: bool)
    | Blob(bs: seq<bv8>)

  /** How the driver stores a Go value; it refuses maps, slices and structs. */
  function Bind(v: Value): Option<Cell> {
    match v
    case Nil => Some(Null)
    case Str(s) => Some(Text(s))
    case Int(i) => Some(Integer(i))
    case Float(r) => Some(Real(r))
    case Boolean(b) => Some(Logical(b))
    case Bytes(bs) => Some(Blob(bs))
    case NilBytes => Some(Null)
    case Composite(_) => None
  }

  /** The cell a value is bound to, for values the driver takes. */
  function BoundCell(v: Value): (c: Cell)
    ensures Bind(v).Some? ==> Bind(v) == Some(c)
  {
    match Bind(v) case Some(c) => c case None => Null
  }

  /** What changes a value on its way into a database and out again. A column stores, and compares
      with, what it makes of a cell (keep); the driver hands over what it makes of a stored cell of
      a column type (fetch); and database/sql converts a cell that is not of the kind of the
      variable it is scanned into, or fails. */
  datatype Driver = Driver(
    keep: (string, Cell) -> Cell,
    fetch: (string, Cell) -> Cell,
    asText: Cell -> string,
    asBytes: Cell -> seq<bv8>,
    asInt: Cell -> Option<int>,
    asReal: Cell -> Option<real>,
    asBool: Cell -> Option<bool>)

  datatype Object = Object(tableName: string, id: string, fields: map<string, Value>)

  /** The columns of a schema carry more than the model uses; Comment is not part of it. */
  datatype ColumnData = ColumnData(
    name: string,
    dataType: string,
    nullable: bool,
    dflt: Option<string>,   // the default, formatted with %v
    unique: bool,
    index: bool,
    autoIncrement: bool,
    primaryKey: bool)

  /** The copy of a table schema that GetTable hands out. */
  datatype TableInfo = TableInfo(name: string, fields: map<string, ColumnData>, order: seq<string>)

  /** strings.ToLower(name) == "id" */
  predicate IsId(name: string) {
    Lower(name) == "id"
  }
}
