/** What the database, its driver and database/sql are relied on for when a value is stored and read
    back, and what that makes of single cells. */
module DriverLaws {
  import opened Outcomes
  import opened Text
  import opened Values
  import opened Scanner

  // ---------------------------------------------------------------- what is relied on

  const DATE_TYPES := ["DATETIME", "TIMESTAMP", "DATE"]

  /** Column types whose text the driver reads as a time and database/sql prints again. */
  predicate IsDate(dataType: string) {
    Upper(dataType) in DATE_TYPES
  }

  const PLAIN_TEXT := ["TEXT", "VARCHAR", "CHAR", "CLOB"]

  /** Text that no column takes for a number. */
  predicate NoNumber(s: string) {
    s == "" || !(s[0] in "+-.0123456789 \t\n\r" || s[0] == 11 as char || s[0] == 12 as char)
  }

  /** A column that keeps, and the driver that fetches, null as null; a kept cell is kept as it is;
      blobs are never converted nor made. */
  ghost predicate KeepsNullsAndBlobs(d: Driver) {
    forall t: string, c: Cell {:trigger d.keep(t, c)} :: && (d.keep(t, c) == Null <==> c == Null)
      && (c.Blob? ==> d.keep(t, c) == c) && (d.keep(t, c).Blob? ==> c.Blob?)
  }

  ghost predicate KeepsOnce(d: Driver) {
    forall t: string, c: Cell {:trigger d.keep(t, d.keep(t, c))} :: d.keep(t, d.keep(t, c)) == d.keep(t, c)
  }

  /** The driver hands cells over as they are stored, but for dates and booleans. */
  ghost predicate FetchesAsStored(d: Driver) {
    forall t: string, c: Cell {:trigger d.fetch(t, c)} ::
      && (d.fetch(t, c) == Null <==> c == Null)
      && (!IsDate(t) && (FamilyOf(t) != BoolLike || OwnKind(BoolLike, c)) ==> d.fetch(t, c) == c)
  }

  /** Number and boolean columns keep numbers and booleans; text columns keep text, other columns
      keep text that is no number; and a text column keeps the printed form of a cell it holds as
      that cell. */
  ghost predicate KeepsItsKind(d: Driver) {
    && (forall t: string, c: Cell {:trigger d.keep(t, c)} ::
          FamilyOf(t) in {IntLike, RealLike, BoolLike} && OwnKind(FamilyOf(t), c) ==> d.keep(t, c) == c)
    && (forall t: string, s: string {:trigger d.keep(t, Text(s))} ::
          Upper(t) in PLAIN_TEXT || NoNumber(s) ==> d.keep(t, Text(s)) == Text(s))
    && (forall t: string, c: Cell {:trigger d.keep(t, Text(TextOf(d, c)))} ::
          FamilyOf(t) == TextLike && !IsDate(t) && c != Null && !c.Blob? && d.keep(t, c) == c ==>
            d.keep(t, Text(TextOf(d, c))) == c)
  }

  /** What SQLite, its driver and database/sql are relied on for. */
  ghost predicate Lawful(d: Driver) {
    KeepsNullsAndBlobs(d) && KeepsOnce(d) && FetchesAsStored(d) && KeepsItsKind(d)
  }

  /** There is such a driver: one whose text columns print what is not text. */
  function PrintingDriver(): Driver {
    Driver((t: string, c: Cell) => if FamilyOf(t) == TextLike && !(c.Null? || c.Blob? || c.Text?) then Text("x") else c,
           (t, c) => c, c => "x", c => [], c => None, c => None, c => None)
  }

  lemma SomeDriverIsLawful()
    ensures Lawful(PrintingDriver())
  {
  }

  lemma KeepLaws(d: Driver, t: string, c: Cell)
    requires Lawful(d)
    ensures d.keep(t, c) == Null <==> c == Null
    ensures c.Blob? ==> d.keep(t, c) == c
    ensures d.keep(t, c).Blob? ==> c.Blob?
    ensures FamilyOf(t) in {IntLike, RealLike, BoolLike} && OwnKind(FamilyOf(t), c) ==> d.keep(t, c) == c
    ensures d.keep(t, d.keep(t, c)) == d.keep(t, c)
  {
    hide FamilyOf, OwnKind, NoNumber, TextOf, IsDate;
  }

  lemma FetchLaws(d: Driver, t: string, c: Cell)
    requires Lawful(d)
    ensures d.fetch(t, c) == Null <==> c == Null
    ensures !IsDate(t) && (FamilyOf(t) != BoolLike || OwnKind(BoolLike, c)) ==> d.fetch(t, c) == c
  {
    hide FamilyOf, OwnKind, NoNumber, TextOf, IsDate;
  }

  lemma TextLaws(d: Driver, t: string, s: string, c: Cell)
    requires Lawful(d)
    ensures Upper(t) in PLAIN_TEXT || NoNumber(s) ==> d.keep(t, Text(s)) == Text(s)
    ensures FamilyOf(t) == TextLike && !IsDate(t) && c != Null && !c.Blob? && d.keep(t, c) == c ==>
              d.keep(t, Text(TextOf(d, c))) == c
  {
    hide FamilyOf, OwnKind, NoNumber, TextOf, IsDate, Upper;
  }

  // ---------------------------------------------------------------- cells and values

  /** What a stored cell of this column comes back as. */
  function Reading(driver: Driver, f: ColumnData, cell: Cell): Option<Value> {
    Decode(driver, f, driver.fetch(f.dataType, cell))
  }

  /** A text as it comes back from the column. */
  function Spelled(driver: Driver, f: ColumnData, s: string): string {
    TextOf(driver, driver.fetch(f.dataType, driver.keep(f.dataType, Text(s))))
  }

  /** Text columns give every text back, and JSON and similar columns every text that is no number. */
  lemma SpelledAsGiven(driver: Driver, f: ColumnData, s: string)
    requires Lawful(driver) && !IsDate(f.dataType) && FamilyOf(f.dataType) in {TextLike, Unknown}
    requires Upper(f.dataType) in PLAIN_TEXT || NoNumber(s)
    ensures Spelled(driver, f, s) == s
  {
    TextLaws(driver, f.dataType, s, Text(s));
    FetchLaws(driver, f.dataType, Text(s));
    hide FamilyOf, NoNumber, IsDate, Upper;
  }

  /** The value is of the kind the column is for. */
  predicate Suits(driver: Driver, f: ColumnData, v: Value) {
    match FamilyOf(f.dataType)
    case TextLike => (v.Str? && Spelled(driver, f, v.s) == v.s) || (v == Nil && f.nullable)
    case IntLike => v.Int? || (v == Nil && f.nullable)
    case RealLike => v.Float?
    case BlobLike => v.Bytes? || (v == NilBytes && f.nullable)
    case BoolLike => v.Boolean?
    case Unknown => v.Str? && Spelled(driver, f, v.s) == v.s
  }

  /** Reading what the column keeps of a value gives the value exactly when it suits the column. */
  lemma KeptThenRead(driver: Driver, f: ColumnData, v: Value)
    requires Lawful(driver) && Bind(v).Some?
    requires var cell := driver.keep(f.dataType, Bind(v).value);
             Reading(driver, f, cell).Some? && NotNull(f, cell)
    ensures Reading(driver, f, driver.keep(f.dataType, Bind(v).value)) == Some(v) <==> Suits(driver, f, v)
  {
    var c := Bind(v).value;
    KeepLaws(driver, f.dataType, c);
    FetchLaws(driver, f.dataType, driver.keep(f.dataType, c));
    hide Lawful, Upper, IsDate;
    DateIsText(f.dataType);
    hide FamilyOf;
  }

  lemma DateIsText(t: string)
    ensures IsDate(t) ==> FamilyOf(t) == TextLike
  {
    assert TEXT_TYPES[4] == "DATETIME" && TEXT_TYPES[5] == "TIMESTAMP" && TEXT_TYPES[6] == "DATE";
  }

  predicate NotNull(f: ColumnData, c: Cell) {
    !f.nullable ==> c != Null
  }

  /** A stored cell that survives being read and written back: null, or of the column's own kind; in
      a text column anything but a blob, and a date only in the spelling it is printed in. */
  predicate AtHome(driver: Driver, f: ColumnData, cell: Cell) {
    cell == Null ||
    match FamilyOf(f.dataType)
    case TextLike =>
      if IsDate(f.dataType) then driver.keep(f.dataType, Text(TextOf(driver, driver.fetch(f.dataType, cell)))) == cell
      else !cell.Blob?
    case Unknown => driver.keep(f.dataType, Text(TextOf(driver, cell))) == cell
    case family => OwnKind(family, cell)
  }

  /** What suits a column is at home in it. */
  lemma SuitedIsAtHome(driver: Driver, f: ColumnData, v: Value)
    requires Lawful(driver) && Suits(driver, f, v)
    ensures Bind(v).Some? && AtHome(driver, f, driver.keep(f.dataType, Bind(v).value))
  {
    KeepLaws(driver, f.dataType, Bind(v).value);
    FetchLaws(driver, f.dataType, driver.keep(f.dataType, Bind(v).value));
    DateIsText(f.dataType);
    hide Lawful, FamilyOf, IsDate;
  }

  /** Reading a kept cell and keeping what was read. */
  lemma ReadThenKept(driver: Driver, f: ColumnData, cell: Cell)
    requires Lawful(driver) && driver.keep(f.dataType, cell) == cell && Reading(driver, f, cell).Some?
    ensures var v := Reading(driver, f, cell).value;
            Bind(v).Some? && (driver.keep(f.dataType, Bind(v).value) == cell <==> AtHome(driver, f, cell))
    ensures var v := Reading(driver, f, cell).value;
            (cell == Null <==> Bind(v) == Some(Null))
  {
    var v := Reading(driver, f, cell).value;
    FetchLaws(driver, f.dataType, cell);
    KeepLaws(driver, f.dataType, Bind(v).value);
    TextLaws(driver, f.dataType, "", cell);
    DateIsText(f.dataType);
    hide Lawful, FamilyOf, IsDate, Upper;
  }

  /** The reading of an id, which is kept as text whatever the schema calls it. */
  lemma IdReading(driver: Driver, f: ColumnData, s: string)
    ensures Decode(driver, f, Text(s)) == Some(Str(s)) <==> FamilyOf(f.dataType) in {TextLike, Unknown}
    ensures Decode(driver, f, Text(s)) != Some(Nil)
    ensures Decode(driver, f, Text(s)).Some? && Decode(driver, f, Text(s)).value.Str? ==>
            Decode(driver, f, Text(s)) == Some(Str(s))
  {
  }
}
