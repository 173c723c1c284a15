/** storage/common: typed cells for a row, and the object rebuilt from them. */
module Scanner {
  import opened Outcomes
  import opened Text
  import opened Values

  // ---------------------------------------------------------------- column types

  datatype Family = TextLike | IntLike | RealLike | BlobLike | BoolLike | Unknown

  const TEXT_TYPES := ["TEXT", "VARCHAR", "CHAR", "JSON", "DATETIME", "TIMESTAMP", "DATE", "TIME", "UUID", "CLOB",
                       "XML"]
  const INT_TYPES := ["INTEGER", "INT"]
  const REAL_TYPES := ["REAL", "FLOAT"]

  /** The case labels of the two switches over strings.ToUpper(DataType). */
  function FamilyOf(dataType: string): Family {
    var t := Upper(dataType);
    if t in TEXT_TYPES then TextLike
    else if t in INT_TYPES then IntLike
    else if t in REAL_TYPES then RealLike
    else if t == "BLOB" then BlobLike
    else if t == "BOOLEAN" then BoolLike
    else Unknown
  }

  // ---------------------------------------------------------------- cells

  /** The variables a row is scanned into: *string, **string, *int64, and so on. */
  datatype Pointer =
    | StrVar(s: string)
    | StrPtrVar(sp: Option<string>)
    | IntVar(i: int)
    | IntPtrVar(ip: Option<int>)
    | FloatVar(r: real)
    | BytesVar(bs: Option<seq<bv8>>)
    | BoolVar(b: bool)

  function Allocate(f: ColumnData): Pointer {
    match FamilyOf(f.dataType)
    case TextLike => if f.nullable then StrPtrVar(None) else StrVar("")
    case IntLike => if f.nullable then IntPtrVar(None) else IntVar(0)
    case RealLike => FloatVar(0.0)
    case BlobLike => BytesVar(None)
    case BoolLike => BoolVar(false)
    case Unknown => StrVar("")
  }

  /** A cell as a string variable takes it. */
  function TextOf(driver: Driver, cell: Cell): string {
    if cell.Text? then cell.s else driver.asText(cell)
  }

  function BytesOf(driver: Driver, cell: Cell): seq<bv8> {
    if cell.Blob? then cell.bs else driver.asBytes(cell)
  }

  function IntOf(driver: Driver, cell: Cell): Option<int> {
    if cell.Integer? then Some(cell.i) else driver.asInt(cell)
  }

  function RealOf(driver: Driver, cell: Cell): Option<real> {
    if cell.Real? then Some(cell.r) else driver.asReal(cell)
  }

  function BoolOf(driver: Driver, cell: Cell): Option<bool> {
    if cell.Logical? then Some(cell.b) else driver.asBool(cell)
  }

  /** database/sql's assignment of one cell to a variable: null fits a pointer or a []byte only,
      any other cell can become text or bytes, and some can become numbers and booleans. */
  function Scan(driver: Driver, p: Pointer, cell: Cell): Option<Pointer> {
    if cell == Null then
      match p
      case StrPtrVar(_) => Some(StrPtrVar(None))
      case IntPtrVar(_) => Some(IntPtrVar(None))
      case BytesVar(_) => Some(BytesVar(None))
      case _ => None
    else
      match p
      case StrVar(_) => Some(StrVar(TextOf(driver, cell)))
      case StrPtrVar(_) => Some(StrPtrVar(Some(TextOf(driver, cell))))
      case IntVar(_) =>
        var i :- IntOf(driver, cell);
        Some(IntVar(i))
      case IntPtrVar(_) =>
        var i :- IntOf(driver, cell);
        Some(IntPtrVar(Some(i)))
      case FloatVar(_) =>
        var r :- RealOf(driver, cell);
        Some(FloatVar(r))
      case BytesVar(_) => Some(BytesVar(Some(BytesOf(driver, cell))))
      case BoolVar(_) =>
        var b :- BoolOf(driver, cell);
        Some(BoolVar(b))
  }

  /** What ScanToObject stores for one field. An unchecked type assertion on the wrong kind of
      cell panics; a checked one falls back to nil. */
  function ReadBack(dataType: string, nullable: bool, p: Pointer): Outcome<Value> {
    match FamilyOf(dataType)
    case TextLike =>
      if nullable then (if p.StrPtrVar? && p.sp.Some? then Ok(Str(p.sp.value)) else Ok(Nil))
      else if p.StrVar? then Ok(Str(p.s)) else Panic
    case IntLike =>
      if nullable then (if p.IntPtrVar? && p.ip.Some? then Ok(Int(p.ip.value)) else Ok(Nil))
      else if p.IntVar? then Ok(Int(p.i)) else Panic
    case RealLike => if p.FloatVar? then Ok(Float(p.r)) else Panic
    case BlobLike =>
      if p.BytesVar? then Ok(if p.bs.Some? then Bytes(p.bs.value) else NilBytes) else Panic
    case BoolLike => if p.BoolVar? then Ok(Boolean(p.b)) else Panic
    case Unknown => if p.StrVar? then Ok(Str(p.s)) else Panic
  }

  // ---------------------------------------------------------------- what a column means

  /** The Go value a cell handed over for this column should come back as; None when it has none. */
  function Decode(driver: Driver, f: ColumnData, cell: Cell): Option<Value> {
    match FamilyOf(f.dataType)
    case TextLike =>
      if cell != Null then Some(Str(TextOf(driver, cell))) else if f.nullable then Some(Nil) else None
    case IntLike =>
      if cell == Null then if f.nullable then Some(Nil) else None
      else
        var i :- IntOf(driver, cell);
        Some(Int(i))
    case RealLike =>
      if cell == Null then None
      else
        var r :- RealOf(driver, cell);
        Some(Float(r))
    case BlobLike => Some(if cell == Null then NilBytes else Bytes(BytesOf(driver, cell)))
    case BoolLike =>
      if cell == Null then None
      else
        var b :- BoolOf(driver, cell);
        Some(Boolean(b))
    case Unknown => if cell == Null then None else Some(Str(TextOf(driver, cell)))
  }

  /** By the spelling of the type, what a cell comes back as: a whole number for INTEGER and INT, a
      fraction for REAL and FLOAT, bytes for BLOB, a boolean for BOOLEAN and a string for every other
      type, converted if it is of another kind; null as nil for nullable text and whole numbers, as a
      nil slice for BLOB, and otherwise as nothing. */
  lemma DecodeByType(driver: Driver, f: ColumnData, cell: Cell)
    ensures var t, v := Upper(f.dataType), Decode(driver, f, cell);
            && (t == "INTEGER" || t == "INT" ==>
                  v == if cell == Null then (if f.nullable then Some(Nil) else None)
                       else if cell.Integer? then Some(Int(cell.i))
                       else if driver.asInt(cell).Some? then Some(Int(driver.asInt(cell).value)) else None)
            && (t == "REAL" || t == "FLOAT" ==>
                  v == if cell == Null then None
                       else if cell.Real? then Some(Float(cell.r))
                       else if driver.asReal(cell).Some? then Some(Float(driver.asReal(cell).value)) else None)
            && (t == "BOOLEAN" ==>
                  v == if cell == Null then None
                       else if cell.Logical? then Some(Boolean(cell.b))
                       else if driver.asBool(cell).Some? then Some(Boolean(driver.asBool(cell).value)) else None)
            && (t == "BLOB" ==>
                  v == Some(if cell == Null then NilBytes
                            else if cell.Blob? then Bytes(cell.bs) else Bytes(driver.asBytes(cell))))
            && (t !in {"INTEGER", "INT", "REAL", "FLOAT", "BOOLEAN", "BLOB"} ==>
                  v == if cell == Null then
                         (if f.nullable && t in {"TEXT", "VARCHAR", "CHAR", "JSON", "DATETIME", "TIMESTAMP", "DATE",
                                                 "TIME", "UUID", "CLOB", "XML"} then Some(Nil) else None)
                       else if cell.Text? then Some(Str(cell.s)) else Some(Str(driver.asText(cell))))
  {
    FamilyBySpelling(f.dataType);
    hide FamilyOf;
  }

  lemma FamilyBySpelling(dataType: string)
    ensures var t, family := Upper(dataType), FamilyOf(dataType);
            && (family == IntLike <==> t == "INTEGER" || t == "INT")
            && (family == RealLike <==> t == "REAL" || t == "FLOAT")
            && (family == BoolLike <==> t == "BOOLEAN")
            && (family == BlobLike <==> t == "BLOB")
            && (family == TextLike <==> t in {"TEXT", "VARCHAR", "CHAR", "JSON", "DATETIME", "TIMESTAMP", "DATE",
                                              "TIME", "UUID", "CLOB", "XML"})
  {
    var t := Upper(dataType);
    assert INT_TYPES[0] == "INTEGER" && INT_TYPES[1] == "INT";
    assert REAL_TYPES[0] == "REAL" && REAL_TYPES[1] == "FLOAT";
    assert t in TEXT_TYPES <==> t in {"TEXT", "VARCHAR", "CHAR", "JSON", "DATETIME", "TIMESTAMP", "DATE",
                                      "TIME", "UUID", "CLOB", "XML"} by {
      TextTypes(t);
    }
    hide TEXT_TYPES;
  }

  lemma TextTypes(t: string)
    ensures t in TEXT_TYPES <==> t in {"TEXT", "VARCHAR", "CHAR", "JSON", "DATETIME", "TIMESTAMP", "DATE",
                                       "TIME", "UUID", "CLOB", "XML"}
  {
    assert TEXT_TYPES[0] == "TEXT" && TEXT_TYPES[1] == "VARCHAR" && TEXT_TYPES[2] == "CHAR" && TEXT_TYPES[3] == "JSON";
    assert TEXT_TYPES[4] == "DATETIME" && TEXT_TYPES[5] == "TIMESTAMP" && TEXT_TYPES[6] == "DATE";
    assert TEXT_TYPES[7] == "TIME" && TEXT_TYPES[8] == "UUID" && TEXT_TYPES[9] == "CLOB" && TEXT_TYPES[10] == "XML";
  }

  /** The variable allocated for a column, by the spelling of its type. */
  lemma VariableByType(f: ColumnData)
    ensures var t, p := Upper(f.dataType), Allocate(f);
            && (p.IntPtrVar? <==> t in {"INTEGER", "INT"} && f.nullable)
            && (p.IntVar? <==> t in {"INTEGER", "INT"} && !f.nullable)
            && (p.FloatVar? <==> t in {"REAL", "FLOAT"})
            && (p.BoolVar? <==> t == "BOOLEAN")
            && (p.BytesVar? <==> t == "BLOB")
            && (p.StrPtrVar? <==>
                  f.nullable && t in {"TEXT", "VARCHAR", "CHAR", "JSON", "DATETIME", "TIMESTAMP", "DATE",
                                      "TIME", "UUID", "CLOB", "XML"})
  {
    FamilyBySpelling(f.dataType);
    hide FamilyOf;
  }

  /** Allocating, scanning and reading back is decoding, and no assertion fails on the way. */
  lemma CellRoundTrip(driver: Driver, f: ColumnData, cell: Cell)
    ensures match Scan(driver, Allocate(f), cell)
            case None => Decode(driver, f, cell) == None
            case Some(p) =>
              && Decode(driver, f, cell).Some?
              && ReadBack(f.dataType, f.nullable, p) == Ok(Decode(driver, f, cell).value)
  {
  }

  /** The cell is of the kind a variable of this family holds. */
  predicate OwnKind(family: Family, cell: Cell) {
    match family
    case TextLike => cell.Text?
    case IntLike => cell.Integer?
    case RealLike => cell.Real?
    case BlobLike => cell.Blob?
    case BoolLike => cell.Logical?
    case Unknown => cell.Text?
  }

  /** A value read from a cell, bound again, is that cell exactly when the cell is null or of the
      column's own kind; any other cell was converted. */
  lemma DecodeThenBind(driver: Driver, f: ColumnData, cell: Cell)
    requires Decode(driver, f, cell).Some?
    ensures Bind(Decode(driver, f, cell).value) == Some(cell) <==> cell == Null || OwnKind(FamilyOf(f.dataType), cell)
  {
  }

  // ---------------------------------------------------------------- schemas

  /** What AddField keeps true of a table schema. */
  ghost predicate BuiltByAddField(t: TableInfo) {
    && (forall i :: 0 <= i < |t.order| ==> t.order[i] in t.fields)
    && (forall n <- t.fields :: n in t.order && t.fields[n].name == n && n != "")
  }

  // ---------------------------------------------------------------- the scanner

  function ColumnNames(t: TableInfo): (ns: seq<string>)
    requires BuiltByAddField(t)
    ensures |ns| == |t.order| && forall i :: 0 <= i < |ns| ==> ns[i] == t.fields[t.order[i]].name
  {
    seq(|t.order|, i requires 0 <= i < |t.order| => t.fields[t.order[i]].name)
  }

  /** The cells of a row, one for each entry of the field order. */
  function CellsOf(t: TableInfo, row: map<string, Cell>): (cells: seq<Cell>)
    requires BuiltByAddField(t) && t.fields.Keys <= row.Keys
    ensures |cells| == |t.order| && forall i :: 0 <= i < |cells| ==> cells[i] == row[t.order[i]]
  {
    seq(|t.order|, i requires 0 <= i < |t.order| => row[t.order[i]])
  }

  /** Every column of the row has a Go value. */
  ghost predicate Readable(driver: Driver, t: TableInfo, row: map<string, Cell>)
    requires t.fields.Keys <= row.Keys
  {
    forall n <- t.fields :: Decode(driver, t.fields[n], row[n]).Some?
  }

  /** The object a row stands for. A schema whose id does not come back as a string makes the
      assertion on it panic. */
  function Rebuilt(driver: Driver, t: TableInfo, row: map<string, Cell>, tableName: string): Outcome<Object>
    requires t.fields.Keys <= row.Keys && Readable(driver, t, row)
  {
    var fields := map n | n in t.fields :: Decode(driver, t.fields[n], row[n]).value;
    if "id" in fields && fields["id"] != Nil then
      if fields["id"].Str? then Ok(Object(tableName, fields["id"].s, fields)) else Panic
    else Ok(Object(tableName, "", fields))
  }

  /** sql.Row.Scan: every cell into its own variable, or an error at the first that does not fit. */
  method ScanCells(driver: Driver, pointers: seq<Pointer>, cells: seq<Cell>) returns (r: Option<seq<Pointer>>)
    requires |pointers| == |cells|
    ensures r.Some? ==> |r.value| == |cells| && forall i :: 0 <= i < |cells| ==>
            Scan(driver, pointers[i], cells[i]) == Some(r.value[i])
    ensures r.None? ==> exists i :: 0 <= i < |cells| && Scan(driver, pointers[i], cells[i]) == None
  {
    hide Scan;
    var filled: seq<Pointer> := [];
    for k := 0 to |cells|
      invariant |filled| == k && forall i :: 0 <= i < k ==> Scan(driver, pointers[i], cells[i]) == Some(filled[i])
    {
      var p := Scan(driver, pointers[k], cells[k]);
      if p == None {
        return None;
      }
      filled := filled + [p.value];
    }
    return Some(filled);
  }

  /** The cells of a row fit the variables allocated for them exactly when the row is readable. */
  lemma ScannedIsReadable(driver: Driver, t: TableInfo, row: map<string, Cell>, pointers: seq<Pointer>,
                          scanned: Option<seq<Pointer>>)
    requires BuiltByAddField(t) && t.fields.Keys <= row.Keys && |pointers| == |t.order|
    requires forall i :: 0 <= i < |t.order| ==> pointers[i] == Allocate(t.fields[t.order[i]])
    requires scanned.Some? ==> |scanned.value| == |t.order| && forall i :: 0 <= i < |t.order| ==>
                               Scan(driver, pointers[i], row[t.order[i]]) == Some(scanned.value[i])
    requires scanned.None? ==> exists i :: 0 <= i < |t.order| && Scan(driver, pointers[i], row[t.order[i]]) == None
    ensures scanned.Some? <==> Readable(driver, t, row)
  {
    hide Decode, Scan, Allocate;
    if scanned.Some? {
      forall n | n in t.fields ensures Decode(driver, t.fields[n], row[n]).Some? {
        assert n in t.order;
        var i :| 0 <= i < |t.order| && t.order[i] == n;
        CellRoundTrip(driver, t.fields[n], row[n]);
      }
    } else {
      var i :| 0 <= i < |t.order| && Scan(driver, pointers[i], row[t.order[i]]) == None;
      CellRoundTrip(driver, t.fields[t.order[i]], row[t.order[i]]);
    }
  }

  /** The object's fields after the first k columns have been read back. */
  ghost predicate FilledUpTo(driver: Driver, t: TableInfo, row: map<string, Cell>, filled: map<string, Value>, k: nat)
    requires k <= |t.order| && t.fields.Keys <= row.Keys && Readable(driver, t, row)
  {
    && (forall n <- filled :: n in t.fields && filled[n] == Decode(driver, t.fields[n], row[n]).value)
    && forall i :: 0 <= i < k ==> t.order[i] in filled
  }

  lemma FillOne(driver: Driver, t: TableInfo, row: map<string, Cell>, filled: map<string, Value>, k: nat)
    requires k < |t.order| && t.fields.Keys <= row.Keys && Readable(driver, t, row)
             && FilledUpTo(driver, t, row, filled, k)
    requires t.order[k] in t.fields
    ensures var n := t.order[k]; FilledUpTo(driver, t, row, filled[n := Decode(driver, t.fields[n], row[n]).value],
                                            k + 1)
  {
    hide Decode;
  }

  lemma FilledAll(driver: Driver, t: TableInfo, row: map<string, Cell>, filled: map<string, Value>)
    requires BuiltByAddField(t) && t.fields.Keys <= row.Keys && Readable(driver, t, row)
             && FilledUpTo(driver, t, row, filled, |t.order|)
    ensures filled == map n | n in t.fields :: Decode(driver, t.fields[n], row[n]).value
  {
    forall n | n in t.fields ensures n in filled {
      assert n in t.order;
    }
  }

  class FieldScanner {
    var columnPointers: seq<Pointer>
    var fieldTypes: seq<string>
    var fieldNames: seq<string>
    var fields: map<string, ColumnData>

    ghost predicate For(t: TableInfo)
      reads this
    {
      && fieldNames == t.order && fields == t.fields
      && |columnPointers| == |fieldTypes| == |t.order|
      && forall i :: 0 <= i < |t.order| ==> t.order[i] in t.fields && fieldTypes[i] == t.fields[t.order[i]].dataType
    }

    /** Nothing has been scanned yet. */
    ghost predicate Blank(t: TableInfo)
      reads this
    {
      For(t) && forall i :: 0 <= i < |t.order| ==> columnPointers[i] == Allocate(t.fields[t.order[i]])
    }

    /** The cells have been scanned, each into its own variable. */
    ghost predicate Holds(driver: Driver, t: TableInfo, row: map<string, Cell>)
      requires BuiltByAddField(t) && t.fields.Keys <= row.Keys
      reads this
    {
      For(t) && forall i :: 0 <= i < |t.order| ==>
        Scan(driver, Allocate(t.fields[t.order[i]]), row[t.order[i]]) == Some(columnPointers[i])
    }

    constructor (t: TableInfo)
      requires BuiltByAddField(t)
      ensures Blank(t)
    {
      hide Allocate;
      fieldNames, fields := t.order, t.fields;
      columnPointers, fieldTypes := [], [];
      new;
      for k := 0 to |t.order|
        invariant fieldNames == t.order && fields == t.fields
        invariant |columnPointers| == |fieldTypes| == k
        invariant forall i :: 0 <= i < k ==> fieldTypes[i] == t.fields[t.order[i]].dataType
        invariant forall i :: 0 <= i < k ==> columnPointers[i] == Allocate(t.fields[t.order[i]])
      {
        var field := t.fields[t.order[k]];
        fieldTypes := fieldTypes + [field.dataType];
        columnPointers := columnPointers + [Allocate(field)];
      }
    }

    method GetColumns(ghost t: TableInfo) returns (columns: seq<string>)
      requires BuiltByAddField(t) && For(t)
      ensures columns == ColumnNames(t)
    {
      columns := [];
      for k := 0 to |fieldNames|
        invariant columns == ColumnNames(t)[..k]
      {
        columns := columns + [fields[fieldNames[k]].name];
      }
    }

    /** sql.Row.Scan into the scanner's variables. */
    method ScanRow(driver: Driver, t: TableInfo, ghost row: map<string, Cell>, cells: seq<Cell>) returns (ok: bool)
      requires BuiltByAddField(t) && Blank(t) && t.fields.Keys <= row.Keys && cells == CellsOf(t, row)
      modifies this`columnPointers
      ensures ok <==> Readable(driver, t, row)
      ensures ok ==> Holds(driver, t, row)
    {
      hide Decode, Scan, Allocate;
      var scanned := ScanCells(driver, columnPointers, cells);
      ScannedIsReadable(driver, t, row, columnPointers, scanned);
      if scanned == None {
        return false;
      }
      columnPointers := scanned.value;
      return true;
    }

    /** Rebuilds the object; no assertion on a cell fails once the row has been scanned. */
    method ScanToObject(ghost driver: Driver, t: TableInfo, ghost row: map<string, Cell>, tableName: string)
      returns (out: Outcome<Object>)
      requires BuiltByAddField(t) && t.fields.Keys <= row.Keys && Readable(driver, t, row) && Holds(driver, t, row)
      ensures out == Rebuilt(driver, t, row, tableName)
    {
      hide Decode, Scan, Allocate, ReadBack;
      var filled: map<string, Value> := map[];
      for k := 0 to |fieldNames|
        invariant FilledUpTo(driver, t, row, filled, k)
      {
        CellRoundTrip(driver, t.fields[t.order[k]], row[t.order[k]]);
        FillOne(driver, t, row, filled, k);
        var field := fields[fieldNames[k]];
        var v := ReadBack(fieldTypes[k], field.nullable, columnPointers[k]);
        if !v.Ok? {
          return Panic;
        }
        filled := filled[field.name := v.value];
      }
      FilledAll(driver, t, row, filled);
      if "id" in filled && filled["id"] != Nil {
        if !filled["id"].Str? {
          return Panic;
        }
        return Ok(Object(tableName, filled["id"].s, filled));
      }
      return Ok(Object(tableName, "", filled));
    }
  }
}
