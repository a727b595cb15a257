/** Typed reads from one row of a stored-procedure result, each with its
    fallback, and the "has data" shape test of a whole result. A row is a
    map from column name to the cell's text (a database NULL reads as the
    empty text). */
module DbExtensions {
  import opened Prelude
  import opened Text
  import opened Numbers
  import opened Guids
  import opened Clock

  type Row = map<string, string>

  datatype Table = Table(columns: seq<string>, rows: seq<Row>)

  datatype DataSet = DataSet(tables: seq<Table>)

  /** `dr[column].ToString()`: the indexer throws for a column the table
      does not have. */
  function Cell(row: Row, column: string): (r: Result<string>)
    ensures r.Ok? <==> column in row
    ensures r.Ok? ==> r.value == row[column]
    ensures r.Thrown? ==> r.error.kind == ColumnMissing
  {
    if column in row then Ok(row[column])
    else Thrown(Exception(ColumnMissing, "Column '" + column + "' does not belong to table."))
  }

  lemma UpperIsY(s: string)
    ensures ToUpper(s) == "Y" <==> s == "Y" || s == "y"
  {
    if ToUpper(s) == "Y" {
      assert |s| == 1 && UpperChar(s[0]) == 'Y';
      assert s == [s[0]];
    }
    if s == "Y" || s == "y" {
      assert ToUpper(s) == [UpperChar(s[0])];
    }
  }

  /** `GetBool`: the flag is set exactly by the one-letter text `Y`, in
      either case; `Yes`, `N` and the empty text all read as false. */
  function GetBool(row: Row, column: string): (r: Result<bool>)
    ensures r.Ok? <==> column in row
    ensures r.Ok? ==> (r.value <==> row[column] == "Y" || row[column] == "y")
  {
    match Cell(row, column)
    case Thrown(e) => Thrown(e)
    case Ok(text) => UpperIsY(text); Ok(ToUpper(text) == "Y")
  }

  /** `GetInt`: the cell as an Int32, or `fallback` when it does not parse. */
  function GetInt(row: Row, column: string, fallback: int := 0): (r: Result<int>)
    ensures r.Ok? <==> column in row
    ensures r.Ok? ==> IsInt32(r.value) || r.value == fallback
    ensures r.Ok? && ParseInt32(row[column]).None? ==> r.value == fallback
    ensures r.Ok? && ParseInt32(row[column]).Some? ==> r.value == ParseInt32(row[column]).value
  {
    match Cell(row, column)
    case Thrown(e) => Thrown(e)
    case Ok(text) => Ok(ParseInt32(text).GetOr(fallback))
  }

  /** `GetLong`: the cell as an Int64, or `fallback` when it does not parse. */
  function GetLong(row: Row, column: string, fallback: int := 0): (r: Result<int>)
    ensures r.Ok? <==> column in row
    ensures r.Ok? ==> IsInt64(r.value) || r.value == fallback
    ensures r.Ok? && ParseInt64(row[column]).None? ==> r.value == fallback
    ensures r.Ok? && ParseInt64(row[column]).Some? ==> r.value == ParseInt64(row[column]).value
  {
    match Cell(row, column)
    case Thrown(e) => Thrown(e)
    case Ok(text) => Ok(ParseInt64(text).GetOr(fallback))
  }

  /** `GetGuid`: the cell as a Guid, or `Guid.Empty` when it does not parse. */
  function GetGuid(row: Row, column: string): (r: Result<Guid>)
    ensures r.Ok? <==> column in row
    ensures r.Ok? && ParseGuid(row[column]).None? ==> r.value == Empty
    ensures r.Ok? && ParseGuid(row[column]).Some? ==> r.value == ParseGuid(row[column]).value
  {
    match Cell(row, column)
    case Thrown(e) => Thrown(e)
    case Ok(text) => Ok(ParseGuid(text).GetOr(Empty))
  }

  /** `GetString`: the cell's text (a database NULL reads as the empty
      text); a missing column throws. */
  function GetString(row: Row, column: string): (r: Result<string>)
    ensures r.Ok? <==> column in row
    ensures r.Ok? ==> r.value == row[column]
    ensures r.Thrown? ==> r.error.kind == ColumnMissing
  {
    Cell(row, column)
  }

  /** `GetDateTime`: the cell read by `DateTime.TryParse` (whose
      culture-dependent grammar is the parameter `parseDate`), or
      `DateTime.MinValue` when it does not parse. */
  function GetDateTime(row: Row, column: string, parseDate: string -> Option<DateTime>): (r: Result<DateTime>)
    ensures r.Ok? <==> column in row
    ensures r.Ok? && parseDate(row[column]).None? ==> r.value == MinValue
    ensures r.Ok? && parseDate(row[column]).Some? ==> r.value == parseDate(row[column]).value
  {
    match GetString(row, column)
    case Thrown(e) => Thrown(e)
    case Ok(text) => Ok(parseDate(text).GetOr(MinValue))
  }

  /** `HasData`: a first table exists and has a row and a column. A result
      with data can have its first row read; one without a table, without a
      row in its first table or without a column has none. */
  function HasData(ds: DataSet): (r: bool)
    ensures r <==> |ds.tables| > 0 && |ds.tables[0].rows| > 0 && |ds.tables[0].columns| > 0
    ensures r ==> |ds.tables| > 0 && |ds.tables[0].rows| > 0
    ensures ds.tables == [] ==> !r
    ensures |ds.tables| > 0 && (ds.tables[0].rows == [] || ds.tables[0].columns == []) ==> !r
  {
    |ds.tables| > 0 && |ds.tables[0].rows| > 0 && |ds.tables[0].columns| > 0
  }

  /** `GetEnum`: there is no fallback, so a text `Enum.TryParse` (the
      parameter `parseEnum`) rejects unboxes null and throws. */
  function GetEnum<E>(row: Row, column: string, parseEnum: string -> Option<E>): (r: Result<E>)
    ensures r.Ok? <==> column in row && parseEnum(row[column]).Some?
    ensures r.Ok? ==> r.value == parseEnum(row[column]).value
    ensures column in row && parseEnum(row[column]).None? ==> r == Thrown(NullReferenceError)
  {
    match GetString(row, column)
    case Thrown(e) => Thrown(e)
    case Ok(text) =>
      match parseEnum(text)
      case Some(v) => Ok(v)
      case None => Thrown(NullReferenceError)
  }

  /** A cell holding a printed Int32 reads back as that number; any other
      number printed there reads as the fallback. */
  lemma GetIntOfPrinted(row: Row, column: string, n: int, fallback: int)
    requires column in row && row[column] == FormatInt(n)
    ensures GetInt(row, column, fallback) == Ok(if IsInt32(n) then n else fallback)
  {
    FormatParse(n, Int32Min, Int32Max);
  }

  lemma GetLongOfPrinted(row: Row, column: string, n: int, fallback: int)
    requires column in row && row[column] == FormatInt(n)
    ensures GetLong(row, column, fallback) == Ok(if IsInt64(n) then n else fallback)
  {
    FormatParse(n, Int64Min, Int64Max);
  }

  /** A cell holding a printed Guid reads back as that Guid. */
  lemma GetGuidOfPrinted(row: Row, column: string, g: Guid)
    requires column in row && row[column] == FormatGuid(g)
    ensures GetGuid(row, column) == Ok(g)
  {
    FormatParseGuid(g);
  }
}
