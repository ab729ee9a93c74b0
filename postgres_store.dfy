/**
 * ISO 8601 calendar dates in the extended format `YYYY-MM-DD` (ISO 8601:2004, section
 * 4.1.2.2), the text Python's `date.isoformat()` produces for the proleptic Gregorian years
 * 1 to 9999.
 */
module IsoDate {
  import opened Wrappers

  datatype Date = Date(year: int, month: int, day: int)

  predicate IsLeapYear(y: int) {
    y % 4 == 0 && (y % 100 != 0 || y % 400 == 0)
  }

  function DaysInMonth(y: int, m: int): int {
    if m == 2 then (if IsLeapYear(y) then 29 else 28)
    else if m == 4 || m == 6 || m == 9 || m == 11 then 30
    else 31
  }

  /** The dates Python's `datetime.date` can hold. */
  predicate ValidDate(d: Date) {
    1 <= d.year <= 9999 && 1 <= d.month <= 12 && 1 <= d.day <= DaysInMonth(d.year, d.month)
  }

  predicate IsDigit(c: char) {
    '0' <= c <= '9'
  }

  function DigitChar(n: int): char
    requires 0 <= n < 10
  {
    ['0', '1', '2', '3', '4', '5', '6', '7', '8', '9'][n]
  }

  function DigitValue(c: char): int
    requires IsDigit(c)
  {
    c as int - '0' as int
  }

  /** The decimal value of a string of digits. */
  function DecimalValue(s: string): (n: nat)
    requires forall c <- s :: IsDigit(c)
  {
    if s == [] then 0 else DecimalValue(s[..|s| - 1]) * 10 + DigitValue(s[|s| - 1])
  }

  /** `n` written with exactly `width` decimal digits, zero-padded on the left (`%0<width>d`). */
  function Padded(n: nat, width: nat): (s: string)
    requires n < Power10(width)
    ensures |s| == width
    ensures forall c <- s :: IsDigit(c)
    ensures DecimalValue(s) == n
  {
    if width == 0 then ""
    else Padded(n / 10, width - 1) + [DigitChar(n % 10)]
  }

  function Power10(k: nat): (p: nat)
    ensures p >= 1
  {
    if k == 0 then 1 else 10 * Power10(k - 1)
  }

  lemma DigitOfValue(c: char)
    requires IsDigit(c)
    ensures 0 <= DigitValue(c) < 10 && DigitChar(DigitValue(c)) == c
  {
  }

  /** Appending a digit: the quotient and remainder by ten give back the two parts. */
  lemma DivModTen(q: int, r: int)
    requires 0 <= r < 10
    ensures (q * 10 + r) / 10 == q && (q * 10 + r) % 10 == r
  {
    var x := q * 10 + r;
    var q', r' := x / 10, x % 10;
    assert x == q' * 10 + r' && 0 <= r' < 10;
    assert (q - q') * 10 == r' - r;
  }

  /** A string of `width` digits is the padded form of its own value. */
  lemma {:induction false} PaddedOfValue(s: string)
    requires forall c <- s :: IsDigit(c)
    ensures DecimalValue(s) < Power10(|s|)
    ensures Padded(DecimalValue(s), |s|) == s
  {
    if s != [] {
      var init := s[..|s| - 1];
      PaddedOfValue(init);
      var n, last := DecimalValue(s), DigitValue(s[|s| - 1]);
      assert s[..|s| - 1] == init;
      assert n == DecimalValue(init) * 10 + last;
      DigitOfValue(s[|s| - 1]);
      DivModTen(DecimalValue(init), last);
      assert Padded(n, |s|) == Padded(DecimalValue(init), |init|) + [DigitChar(last)];
      assert init + [s[|s| - 1]] == s;
    }
  }

  /** `date.isoformat()`: `%04d-%02d-%02d`. */
  function IsoFormat(d: Date): (s: string)
    requires ValidDate(d)
    ensures |s| == 10
  {
    Padded(d.year, 4) + "-" + Padded(d.month, 2) + "-" + Padded(d.day, 2)
  }

  /** Reading an extended-format calendar date; anything else is rejected. */
  function ParseIsoDate(s: string): (r: Option<Date>)
    ensures r.Some? ==> ValidDate(r.value)
  {
    if |s| == 10 && s[4] == '-' && s[7] == '-'
       && (forall c <- s[..4] :: IsDigit(c))
       && (forall c <- s[5..7] :: IsDigit(c))
       && (forall c <- s[8..] :: IsDigit(c))
    then
      var d := Date(DecimalValue(s[..4]), DecimalValue(s[5..7]), DecimalValue(s[8..]));
      if ValidDate(d) then Some(d) else None
    else None
  }

  /** Formatting then parsing gives the date back. */
  lemma ParseFormat(d: Date)
    requires ValidDate(d)
    ensures ParseIsoDate(IsoFormat(d)) == Some(d)
  {
    var y, m, dd := Padded(d.year, 4), Padded(d.month, 2), Padded(d.day, 2);
    var s := IsoFormat(d);
    assert s[..4] == y && s[5..7] == m && s[8..] == dd;
  }

  /** Parsing then formatting gives the text back: the accepted form is canonical. */
  lemma FormatParse(s: string)
    requires ParseIsoDate(s).Some?
    ensures IsoFormat(ParseIsoDate(s).value) == s
  {
    PaddedOfValue(s[..4]);
    PaddedOfValue(s[5..7]);
    PaddedOfValue(s[8..]);
    assert s == s[..4] + "-" + s[5..7] + "-" + s[8..];
  }
}

/**
 * `PostgresMetadataStore` (ingestion/MetadataStores/postgres_metadata_store.py). The table
 * `claim_metadata` is a map from uid to a row of nine nullable columns; SQL execution is not
 * modelled, only what the statements do to and read from that map.
 */
module PostgresMetadata {
  import opened Wrappers
  import opened Json
  import opened IsoDate

  /** One row of `claim_metadata`; `None` is NULL. */
  datatype Row = Row(
    uid: string,
    statement: Option<string>,
    verdict: Option<string>,
    statementOriginator: Option<string>,
    statementDate: Option<Date>,
    statementSource: Option<string>,
    factchecker: Option<string>,
    factcheckDate: Option<Date>,
    factcheckAnalysisLink: Option<string>)

  /** The nine columns, in the order of the INSERT. */
  const Columns: seq<string> := [
    "uid", "statement", "verdict", "statement_originator", "statement_date",
    "statement_source", "factchecker", "factcheck_date", "factcheck_analysis_link"]

  /** Why a value could not be bound to its column. */
  datatype DataError =
    | InvalidText(column: string)
    | InvalidDate(column: string)
    | NulCharacter(column: string)   // psycopg refuses text holding NUL before sending the query

  /**
   * The server's conversion of date input text: it must at least accept every extended-format
   * ISO date as that date (what `DATE` input does under any DateStyle).
   */
  ghost predicate AcceptsIsoDates(dateInput: string -> Option<Date>) {
    forall d :: ValidDate(d) ==> dateInput(IsoFormat(d)) == Some(d)
  }

  /** Binding `metadata.get(column)` to a text column: a missing key or JSON null is NULL. */
  function TextColumn(metadata: Record, column: string): (r: Result<Option<string>, DataError>)
    ensures column !in metadata ==> r == Ok(None)
    ensures column in metadata && metadata[column].JStr? ==> r == Ok(Some(metadata[column].s))
  {
    if column !in metadata then Ok(None)
    else match metadata[column]
      case JNull => Ok(None)
      case JStr(s) => Ok(Some(s))
      case _ => Err(InvalidText(column))
  }

  /** Binding `metadata.get(column)` to a DATE column. */
  function DateColumn(metadata: Record, column: string, dateInput: string -> Option<Date>)
    : (r: Result<Option<Date>, DataError>)
    ensures column !in metadata ==> r == Ok(None)
  {
    if column !in metadata then Ok(None)
    else match metadata[column]
      case JNull => Ok(None)
      case JStr(s) => (match dateInput(s) case Some(d) => Ok(Some(d)) case None => Err(InvalidDate(column)))
      case _ => Err(InvalidDate(column))
  }

  /**
   * The row `upsert(uid, metadata)` writes: keyed by the `uid` argument, each other column
   * taken from the metadata key of the same name. Keys outside the nine columns are dropped.
   * psycopg adapts every parameter before the server converts any, so text holding NUL (the
   * uid first, then the columns in order) is refused before a value the column cannot take.
   */
  function ToRow(uid: string, metadata: Record, dateInput: string -> Option<Date>): (r: Result<Row, DataError>)
    ensures '\0' in uid ==> r == Err(NulCharacter("uid"))
    ensures '\0' !in uid && FirstNul(metadata, Columns[1..]).Some? ==>
      r == Err(NulCharacter(FirstNul(metadata, Columns[1..]).value))
    ensures r.Ok? <==> NulFree(uid, metadata) && Bind(uid, metadata, dateInput).Ok?
    ensures r.Ok? ==> r == Bind(uid, metadata, dateInput)
  {
    if '\0' in uid then Err(NulCharacter("uid"))
    else match FirstNul(metadata, Columns[1..])
      case Some(column) => Err(NulCharacter(column))
      case None => Bind(uid, metadata, dateInput)
  }

  /** No parameter of the INSERT is text holding NUL. */
  predicate NulFree(uid: string, metadata: Record) {
    '\0' !in uid && forall c <- Columns[1..] :: !HasNul(metadata, c)
  }

  /** The server's conversion of the parameters, once all of them were sent. */
  function Bind(uid: string, metadata: Record, dateInput: string -> Option<Date>): Result<Row, DataError> {
    Assemble(uid,
      TextColumn(metadata, "statement"),
      TextColumn(metadata, "verdict"),
      TextColumn(metadata, "statement_originator"),
      DateColumn(metadata, "statement_date", dateInput),
      TextColumn(metadata, "statement_source"),
      TextColumn(metadata, "factchecker"),
      DateColumn(metadata, "factcheck_date", dateInput),
      TextColumn(metadata, "factcheck_analysis_link"))
  }

  /** The metadata value for `column` is text holding a NUL character. */
  predicate HasNul(metadata: Record, column: string) {
    column in metadata && metadata[column].JStr? && '\0' in metadata[column].s
  }

  /**
   * The first of `columns` whose text psycopg refuses to send because it holds NUL; every
   * column before it is free of NUL.
   */
  function FirstNul(metadata: Record, columns: seq<string>): (r: Option<string>)
    ensures r.None? <==> forall c <- columns :: !HasNul(metadata, c)
    ensures r.Some? ==> exists i :: (0 <= i < |columns| && columns[i] == r.value
      && HasNul(metadata, columns[i]) && forall j :: 0 <= j < i ==> !HasNul(metadata, columns[j]))
  {
    if columns == [] then None
    else if HasNul(metadata, columns[0]) then Some(columns[0])
    else
      var rest := FirstNul(metadata, columns[1..]);
      if rest.Some? then
        ghost var i :| 0 <= i < |columns[1..]| && columns[1..][i] == rest.value
          && HasNul(metadata, columns[1..][i]) && forall j :: 0 <= j < i ==> !HasNul(metadata, columns[1..][j]);
        assert columns[i + 1] == rest.value;
        rest
      else rest
  }

  /** The bound parameters, in column order; the first that cannot be bound raises. */
  function Assemble(
    uid: string,
    statement: Result<Option<string>, DataError>,
    verdict: Result<Option<string>, DataError>,
    originator: Result<Option<string>, DataError>,
    statementDate: Result<Option<Date>, DataError>,
    source: Result<Option<string>, DataError>,
    factchecker: Result<Option<string>, DataError>,
    factcheckDate: Result<Option<Date>, DataError>,
    link: Result<Option<string>, DataError>): (r: Result<Row, DataError>)
    ensures r.Ok? <==> (statement.Ok? && verdict.Ok? && originator.Ok? && statementDate.Ok?
      && source.Ok? && factchecker.Ok? && factcheckDate.Ok? && link.Ok?)
    ensures r.Ok? ==> r.value == Row(uid, statement.value, verdict.value, originator.value,
      statementDate.value, source.value, factchecker.value, factcheckDate.value, link.value)
  {
    var statement :- statement;
    var verdict :- verdict;
    var originator :- originator;
    var statementDate :- statementDate;
    var source :- source;
    var factchecker :- factchecker;
    var factcheckDate :- factcheckDate;
    var link :- link;
    Ok(Row(uid, statement, verdict, originator, statementDate, source, factchecker, factcheckDate, link))
  }

  function TextValue(v: Option<string>): Json {
    match v case Some(s) => JStr(s) case None => JNull
  }

  function DateValue(v: Option<Date>): Json
    requires v.Some? ==> ValidDate(v.value)
  {
    match v
    case Some(d) => JStr(IsoFormat(d))
    case None => JNull
  }

  /**
   * Why fetching a row raises: the driver turns each DATE into a `datetime.date`, which holds
   * only the years 1 to 9999, while the server stores later years too (a row whose date input
   * read "10000-01-01", say).
   */
  datatype FetchError =
    | DateOutOfRange(column: string)
    | NulParameter(column: string)   // psycopg refuses a uid parameter holding NUL before querying

  /** Every stored date of the row can be fetched as a `datetime.date`. */
  predicate Fetchable(row: Row) {
    && (row.statementDate.Some? ==> ValidDate(row.statementDate.value))
    && (row.factcheckDate.Some? ==> ValidDate(row.factcheckDate.value))
  }

  /** Fetching one row: the record `_row_to_record` builds, or the driver's error on a date. */
  function FetchRow(row: Row): (r: Result<Record, FetchError>)
    ensures r.Ok? <==> Fetchable(row)
    ensures r.Err? ==> r.error.column in ["statement_date", "factcheck_date"]
    ensures r.Ok? ==> r.value == RowToRecord(row)
  {
    if row.statementDate.Some? && !ValidDate(row.statementDate.value) then
      Err(DateOutOfRange("statement_date"))
    else if row.factcheckDate.Some? && !ValidDate(row.factcheckDate.value) then
      Err(DateOutOfRange("factcheck_date"))
    else Ok(RowToRecord(row))
  }

  /** `_row_to_record(row)`: the nine columns, dates as ISO 8601 text, NULL as None. */
  function RowToRecord(row: Row): (r: Record)
    requires Fetchable(row)
    ensures forall k :: k in r <==> k in Columns
    ensures r["uid"] == JStr(row.uid)
  {
    map[
      "uid" := JStr(row.uid),
      "statement" := TextValue(row.statement),
      "verdict" := TextValue(row.verdict),
      "statement_originator" := TextValue(row.statementOriginator),
      "statement_date" := DateValue(row.statementDate),
      "statement_source" := TextValue(row.statementSource),
      "factchecker" := TextValue(row.factchecker),
      "factcheck_date" := DateValue(row.factcheckDate),
      "factcheck_analysis_link" := TextValue(row.factcheckAnalysisLink)]
  }

  /** The metadata restricted to the nine columns. */
  function Project(metadata: Record): Record {
    map k | k in metadata && k in Columns :: metadata[k]
  }

  /** Keys outside the nine columns (such as `source`) have no effect on the stored row. */
  lemma ExtraKeysIgnored(uid: string, metadata: Record, dateInput: string -> Option<Date>)
    ensures ToRow(uid, metadata, dateInput) == ToRow(uid, Project(metadata), dateInput)
  {
    var p := Project(metadata);
    forall c | c in Columns[1..] ensures HasNul(metadata, c) == HasNul(p, c) {
      assert c in p <==> c in metadata;
    }
    FirstNulAgrees(metadata, p, Columns[1..]);
    forall c | c in Columns ensures TextColumn(metadata, c) == TextColumn(p, c) {
      assert c in p <==> c in metadata;
    }
    forall c | c in Columns ensures DateColumn(metadata, c, dateInput) == DateColumn(p, c, dateInput) {
      assert c in p <==> c in metadata;
    }
  }

  /** Two records with NUL in the same columns are refused at the same column. */
  lemma {:induction false} FirstNulAgrees(m1: Record, m2: Record, columns: seq<string>)
    requires forall c <- columns :: HasNul(m1, c) == HasNul(m2, c)
    ensures FirstNul(m1, columns) == FirstNul(m2, columns)
  {
    if columns != [] {
      FirstNulAgrees(m1, m2, columns[1..]);
    }
  }

  /**
   * Text holding NUL in any parameter makes the upsert raise, whatever the other values, and
   * the error names the first such parameter.
   */
  lemma NulRefused(uid: string, metadata: Record, dateInput: string -> Option<Date>)
    requires !NulFree(uid, metadata)
    ensures var r := ToRow(uid, metadata, dateInput);
      r.Err? && r.error.NulCharacter? && r.error.column in Columns
  {
    if '\0' !in uid {
      var c :| c in Columns[1..] && HasNul(metadata, c);
      assert FirstNul(metadata, Columns[1..]).Some?;
    }
  }

  /** A stored text value reads back unchanged; a missing or null one reads back as None. */
  lemma TextRoundTrip(uid: string, metadata: Record, dateInput: string -> Option<Date>, column: string)
    requires ToRow(uid, metadata, dateInput).Ok?
    requires column in ["statement", "verdict", "statement_originator", "statement_source",
                        "factchecker", "factcheck_analysis_link"]
    ensures var fetched := FetchRow(ToRow(uid, metadata, dateInput).value);
      fetched.Ok? ==> fetched.value[column] == GetOrNull(metadata, column)
  {
    var row := ToRow(uid, metadata, dateInput).value;
    if !Fetchable(row) {
      return;
    }
    var record := RowToRecord(row);
    TextColumnRead(metadata, column);
    if column == "statement" {
      assert record[column] == TextValue(row.statement);
    } else if column == "verdict" {
      assert record[column] == TextValue(row.verdict);
    } else if column == "statement_originator" {
      assert record[column] == TextValue(row.statementOriginator);
    } else if column == "statement_source" {
      assert record[column] == TextValue(row.statementSource);
    } else if column == "factchecker" {
      assert record[column] == TextValue(row.factchecker);
    } else {
      assert record[column] == TextValue(row.factcheckAnalysisLink);
    }
  }

  /** A text value that binds reads back as the JSON value it was bound from. */
  lemma TextColumnRead(metadata: Record, column: string)
    requires TextColumn(metadata, column).Ok?
    ensures TextValue(TextColumn(metadata, column).value) == GetOrNull(metadata, column)
  {
  }

  /** An ISO date string reads back as the same string; a missing or null date as None. */
  lemma DateRoundTrip(uid: string, metadata: Record, dateInput: string -> Option<Date>, column: string)
    requires AcceptsIsoDates(dateInput)
    requires ToRow(uid, metadata, dateInput).Ok?
    requires column in ["statement_date", "factcheck_date"]
    requires IsoOrNull(metadata, column)
    ensures var fetched := FetchRow(ToRow(uid, metadata, dateInput).value);
      fetched.Ok? ==> fetched.value[column] == GetOrNull(metadata, column)
  {
    if column in metadata && metadata[column].JStr? {
      var s := metadata[column].s;
      var d := ParseIsoDate(s).value;
      FormatParse(s);
      assert dateInput(IsoFormat(d)) == Some(d);
    }
  }

  /** A date key that is missing, null or an ISO 8601 date string. */
  predicate IsoOrNull(metadata: Record, column: string) {
    column in metadata ==>
      (metadata[column].JNull? || (metadata[column].JStr? && ParseIsoDate(metadata[column].s).Some?))
  }

  /** Records whose dates are ISO text or null are stored as rows that fetch without error. */
  lemma IsoDatesFetchable(uid: string, metadata: Record, dateInput: string -> Option<Date>)
    requires AcceptsIsoDates(dateInput)
    requires ToRow(uid, metadata, dateInput).Ok?
    requires IsoOrNull(metadata, "statement_date") && IsoOrNull(metadata, "factcheck_date")
    ensures FetchRow(ToRow(uid, metadata, dateInput).value).Ok?
  {
    IsoDateStored(metadata, "statement_date", dateInput);
    IsoDateStored(metadata, "factcheck_date", dateInput);
  }

  /** An ISO date string binds to the date it names, which is in range. */
  lemma IsoDateStored(metadata: Record, column: string, dateInput: string -> Option<Date>)
    requires AcceptsIsoDates(dateInput)
    requires DateColumn(metadata, column, dateInput).Ok?
    requires IsoOrNull(metadata, column)
    ensures var d := DateColumn(metadata, column, dateInput).value; d.Some? ==> ValidDate(d.value)
  {
    if column in metadata && metadata[column].JStr? {
      var s := metadata[column].s;
      FormatParse(s);
      assert dateInput(IsoFormat(ParseIsoDate(s).value)) == ParseIsoDate(s);
    }
  }

  /**
   * The other direction: when the server accepts date text naming a year past 9999, a record
   * holding that text is stored, and fetching its row raises.
   */
  lemma OutOfRangeDateStoredButNotFetched(uid: string, dateInput: string -> Option<Date>, s: string)
    requires dateInput(s).Some? && !ValidDate(dateInput(s).value)
    requires '\0' !in uid && '\0' !in s
    ensures var metadata := map["statement_date" := JStr(s)];
      ToRow(uid, metadata, dateInput).Ok?
      && FetchRow(ToRow(uid, metadata, dateInput).value) == Err(DateOutOfRange("statement_date"))
  {
    var metadata := map["statement_date" := JStr(s)];
    assert "factcheck_date" !in metadata;
    assert NulFree(uid, metadata);
  }

  class PostgresMetadataStore {
    /** The `claim_metadata` table, by primary key. */
    var table: map<string, Row>
    /** How the server reads date input text. */
    const dateInput: string -> Option<Date>

    ghost predicate Valid()
      reads this
    {
      forall u <- table :: table[u].uid == u
    }

    constructor (dateInput: string -> Option<Date>)
      ensures Valid() && table == map[] && this.dateInput == dateInput
    {
      table := map[];
      this.dateInput := dateInput;
    }

    /**
     * `upsert(uid, metadata)`: INSERT ... ON CONFLICT (uid) DO UPDATE replaces every non-key
     * column, so the row afterwards is the new row whatever was stored before (NULLs overwrite).
     * A value the column cannot take raises and leaves the table unchanged.
     */
    method Upsert(uid: string, metadata: Record) returns (r: Result<(), DataError>)
      requires Valid()
      modifies this
      ensures Valid()
      ensures r.Ok? <==> ToRow(uid, metadata, dateInput).Ok?
      ensures r.Ok? ==> table == old(table)[uid := ToRow(uid, metadata, dateInput).value]
      ensures r.Err? ==> table == old(table) && ToRow(uid, metadata, dateInput) == Err(r.error)
    {
      match ToRow(uid, metadata, dateInput) {
        case Ok(row) =>
          table := table[uid := row];
          r := Ok(());
        case Err(e) =>
          r := Err(e);
      }
    }

    /**
     * `get(uid)`: the row as a record, None when no row matches, or the driver's error: on a
     * uid holding NUL, which is never sent, or on a row holding a date it cannot fetch.
     */
    function Get(uid: string): (r: Result<Option<Record>, FetchError>)
      reads this
      requires Valid()
      ensures '\0' in uid ==> r == Err(NulParameter("uid"))
      ensures r == Ok(None) <==> '\0' !in uid && uid !in table
      ensures r.Err? <==> '\0' in uid || (uid in table && !Fetchable(table[uid]))
      ensures r.Ok? && r.value.Some? ==>
        (forall k :: k in r.value.value <==> k in Columns) && r.value.value["uid"] == JStr(uid)
    {
      if '\0' in uid then Err(NulParameter("uid"))
      else if uid !in table then Ok(None)
      else
        var record :- FetchRow(table[uid]);
        Ok(Some(record))
    }

    /**
     * `bulk_get(uids)`: an empty request returns `{}` without querying; otherwise one SELECT
     * whose rows are returned keyed by their uid, or the driver's error: on a requested uid
     * holding NUL (the parameter is refused before the query), or when one of the matched
     * rows holds a date it cannot fetch. `queried` says whether the table was touched.
     */
    method BulkGet(uids: seq<string>) returns (r: Result<map<string, Record>, FetchError>, queried: bool)
      requires Valid()
      ensures queried <==> uids != [] && forall u <- uids :: '\0' !in u
      ensures (exists u <- uids :: '\0' in u) ==> r == Err(NulParameter("uid"))
      ensures r.Err? <==> exists u <- uids :: Get(u).Err?
      ensures r.Err? ==> exists u <- uids :: Get(u) == Err(r.error)
      ensures r.Ok? ==> forall u :: u in r.value <==> u in uids && u in table
      ensures r.Ok? ==> forall u <- r.value :: Get(u) == Ok(Some(r.value[u]))
    {
      if uids == [] {
        return Ok(map[]), false;
      }
      if exists u <- uids :: '\0' in u {
        return Err(NulParameter("uid")), false;
      }
      queried := true;
      if exists u <- uids :: u in table && !Fetchable(table[u]) {
        var u :| u in uids && u in table && !Fetchable(table[u]);
        return Err(FetchRow(table[u]).error), true;
      }
      var rows := set u | u in uids && u in table :: table[u];
      assert forall row <- rows :: Fetchable(row);
      r := Ok(map row | row in rows :: row.uid := RowToRecord(row));
      assert forall u :: u in uids && u in table ==> table[u] in rows;
    }

    /**
     * `exists(uid)`: whether a row with that uid is stored. It selects a constant, so a row
     * whose dates cannot be fetched still exists; a uid holding NUL raises as in `get`.
     */
    function Exists(uid: string): (r: Result<bool, FetchError>)
      reads this
      requires Valid()
      ensures r.Err? <==> '\0' in uid
      ensures r.Err? ==> Get(uid) == Err(r.error)
      ensures r.Ok? ==> (r.value <==> Get(uid) != Ok(None))
    {
      if '\0' in uid then Err(NulParameter("uid")) else Ok(uid in table)
    }
  }
}
