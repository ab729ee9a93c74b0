/**
 * `PolitifactIngestionDataset._transform_row`: strip the statement, derive the uid as the
 * SHA-256 hex digest of `stripped statement ++ factcheck_analysis_link`, and build the record.
 *
 * SHA-256 (FIPS 180-4, section 6.2) is not modelled: the transform takes the digest function as
 * a parameter `sha256`, read as "the lower-case hex digest of the UTF-8 encoding of its
 * argument". `HexDigestFunction` states the shape a real digest has.
 */
module PolitifactIngestionDataset {
  import opened Wrappers
  import opened Json
  import CID = ClaimIngestionDataset

  /** The characters Python's `str.isspace` (and so `str.strip()`) treats as whitespace. */
  predicate IsSpace(c: char) {
    || c == ' ' || ('\t' <= c <= '\r') || ('\U{1C}' <= c <= '\U{1F}')
    || c == '\U{85}' || c == '\U{A0}' || c == '\U{1680}' || ('\U{2000}' <= c <= '\U{200A}')
    || c == '\U{2028}' || c == '\U{2029}' || c == '\U{202F}' || c == '\U{205F}' || c == '\U{3000}'
  }

  /** How many whitespace characters open `s`. */
  function LeadingSpaces(s: string): (k: nat)
    ensures k <= |s|
    ensures forall i :: 0 <= i < k ==> IsSpace(s[i])
    ensures k < |s| ==> !IsSpace(s[k])
  {
    if s == [] || !IsSpace(s[0]) then 0 else 1 + LeadingSpaces(s[1..])
  }

  /** How many whitespace characters close `s`. */
  function TrailingSpaces(s: string): (k: nat)
    ensures k <= |s|
    ensures forall i :: |s| - k <= i < |s| ==> IsSpace(s[i])
    ensures k < |s| ==> !IsSpace(s[|s| - 1 - k])
  {
    if s == [] || !IsSpace(s[|s| - 1]) then 0 else 1 + TrailingSpaces(s[..|s| - 1])
  }

  /** Python's `str.strip()` with no argument. */
  function Strip(s: string): (r: string)
    ensures LeadingSpaces(s) + |r| <= |s|
    ensures r == s[LeadingSpaces(s)..LeadingSpaces(s) + |r|]
    ensures forall i :: LeadingSpaces(s) + |r| <= i < |s| ==> IsSpace(s[i])
    ensures r != [] ==> !IsSpace(r[0]) && !IsSpace(r[|r| - 1])
  {
    var rest := s[LeadingSpaces(s)..];
    rest[..|rest| - TrailingSpaces(rest)]
  }

  /** A string that is already stripped comes back unchanged. */
  lemma StripFixed(s: string)
    requires s == [] || (!IsSpace(s[0]) && !IsSpace(s[|s| - 1]))
    ensures Strip(s) == s
  {
    assert LeadingSpaces(s) == 0;
    assert TrailingSpaces(s) == 0;
    assert s[0..] == s;
  }

  /** Stripping twice is stripping once. */
  lemma StripIdempotent(s: string)
    ensures Strip(Strip(s)) == Strip(s)
  {
    StripFixed(Strip(s));
  }

  /** The shape of a SHA-256 `hexdigest()`: 64 lower-case hexadecimal characters. */
  predicate IsHexDigest(d: string) {
    |d| == 64 && forall c <- d :: '0' <= c <= '9' || 'a' <= c <= 'f'
  }

  ghost predicate HexDigestFunction(sha256: string -> string) {
    forall s :: IsHexDigest(sha256(s))
  }

  /** The nine keys of the produced record, in the order the dict literal writes them. */
  const RecordKeyOrder: seq<string> := [
    "uid", "statement", "verdict", "statement_originator", "statement_date",
    "statement_source", "factchecker", "factcheck_analysis_link", "source"]

  /** The row keys copied verbatim into the record, in the order the dict literal reads them. */
  const CopiedKeys: seq<string> := [
    "verdict", "statement_originator", "statement_date", "statement_source", "factchecker"]

  /** What `_transform_row` raises. */
  datatype RowError =
    | TypeError(what: string)       // the row is not a dict, or `claim + link` with a non-str link
    | AttributeError(what: string)  // `.strip()` on a statement that is not a str
    | KeyError(key: string)         // `row[key]` on a missing key
    | ValueError(message: string)   // unpacking into `_id, text, metadata` in `batches`

  /** The first of `keys` missing from `row`, or None when all are present. */
  function FirstMissing(row: Record, keys: seq<string>): (m: Option<string>)
    ensures m.None? <==> forall k <- keys :: k in row
    ensures m.Some? ==> m.value in keys && m.value !in row
    ensures m.Some? ==> exists i :: (0 <= i < |keys| && keys[i] == m.value
      && forall j :: 0 <= j < i ==> keys[j] in row)
  {
    if keys == [] then None
    else if keys[0] !in row then Some(keys[0])
    else
      var rest := FirstMissing(row, keys[1..]);
      if rest.Some? then
        ghost var i :| 0 <= i < |keys[1..]| && keys[1..][i] == rest.value
          && forall j :: 0 <= j < i ==> keys[1..][j] in row;
        assert keys[i + 1] == rest.value;
        rest
      else rest
  }

  /** The key-by-key preconditions of a successful transform. */
  predicate WellFormedRow(row: Json) {
    && row.JObj?
    && "statement" in row.fields && row.fields["statement"].JStr?
    && "factcheck_analysis_link" in row.fields && row.fields["factcheck_analysis_link"].JStr?
    && (forall k <- CopiedKeys :: k in row.fields)
  }

  /** The row is a dict whose statement is a string, so `.strip()` succeeds. */
  predicate StatementReadable(row: Json) {
    row.JObj? && "statement" in row.fields && row.fields["statement"].JStr?
  }

  /** The row's link is a string, so `claim + link` succeeds. */
  predicate LinkReadable(row: Json) {
    row.JObj? && "factcheck_analysis_link" in row.fields && row.fields["factcheck_analysis_link"].JStr?
  }

  /** `_transform_row(row)`, with the errors raised in Python's evaluation order. */
  function TransformRow(row: Json, sha256: string -> string): (r: Result<Record, RowError>)
    ensures r.Ok? <==> WellFormedRow(row)
    // which error is raised: the first failing step of the function body
    ensures !row.JObj? ==> r == Err(TypeError("row"))
    ensures row.JObj? && "statement" !in row.fields ==> r == Err(KeyError("statement"))
    ensures row.JObj? && "statement" in row.fields && !row.fields["statement"].JStr? ==>
      r == Err(AttributeError("statement"))
    ensures StatementReadable(row) && "factcheck_analysis_link" !in row.fields ==>
      r == Err(KeyError("factcheck_analysis_link"))
    ensures StatementReadable(row) && "factcheck_analysis_link" in row.fields && !LinkReadable(row) ==>
      r == Err(TypeError("factcheck_analysis_link"))
    ensures StatementReadable(row) && LinkReadable(row) && r.Err? ==>
      exists i :: (0 <= i < |CopiedKeys| && r == Err(KeyError(CopiedKeys[i]))
        && CopiedKeys[i] !in row.fields && forall j :: 0 <= j < i ==> CopiedKeys[j] in row.fields)
    ensures r.Ok? ==>
      var f := row.fields;
      var claim := Strip(f["statement"].s);
      && (forall k :: k in r.value <==> k in RecordKeyOrder)
      && r.value["uid"] == JStr(sha256(claim + f["factcheck_analysis_link"].s))
      && r.value["statement"] == JStr(claim)
      && r.value["source"] == JStr("politifact")
      && r.value["factcheck_analysis_link"] == f["factcheck_analysis_link"]
      && (forall k <- CopiedKeys :: r.value[k] == f[k])
  {
    if !row.JObj? then Err(TypeError("row"))
    else
      var f := row.fields;
      if "statement" !in f then Err(KeyError("statement"))
      else if !f["statement"].JStr? then Err(AttributeError("statement"))
      else
        var claim := Strip(f["statement"].s);
        if "factcheck_analysis_link" !in f then Err(KeyError("factcheck_analysis_link"))
        else if !f["factcheck_analysis_link"].JStr? then Err(TypeError("factcheck_analysis_link"))
        else
          var uid := sha256(claim + f["factcheck_analysis_link"].s);
          match FirstMissing(f, CopiedKeys)
          case Some(k) => Err(KeyError(k))
          case None => Ok(MakeRecord(uid, claim, f))
  }

  /** The dict literal of `_transform_row`, built once every key it reads is known present. */
  function MakeRecord(uid: string, claim: string, f: Record): (r: Record)
    requires "factcheck_analysis_link" in f && forall k <- CopiedKeys :: k in f
    ensures forall k :: k in r <==> k in RecordKeyOrder
    ensures r["uid"] == JStr(uid) && r["statement"] == JStr(claim)
    ensures r["source"] == JStr("politifact")
    ensures r["factcheck_analysis_link"] == f["factcheck_analysis_link"]
    ensures forall k <- CopiedKeys :: r[k] == f[k]
  {
    map[
      "uid" := JStr(uid),
      "statement" := JStr(claim),
      "verdict" := f["verdict"],
      "statement_originator" := f["statement_originator"],
      "statement_date" := f["statement_date"],
      "statement_source" := f["statement_source"],
      "factchecker" := f["factchecker"],
      "factcheck_analysis_link" := f["factcheck_analysis_link"],
      "source" := JStr("politifact")]
  }

  /** The record never carries a `factcheck_date` key, and its uid is a 64-character hex digest. */
  lemma RecordHasNoFactcheckDate(row: Json, sha256: string -> string)
    requires HexDigestFunction(sha256)
    requires TransformRow(row, sha256).Ok?
    ensures "factcheck_date" !in TransformRow(row, sha256).value
    ensures TransformRow(row, sha256).value["uid"].JStr?
    ensures IsHexDigest(TransformRow(row, sha256).value["uid"].s)
  {
    var f := row.fields;
    var digest := sha256(Strip(f["statement"].s) + f["factcheck_analysis_link"].s);
    assert TransformRow(row, sha256).value["uid"] == JStr(digest);
    assert IsHexDigest(digest);
    FactcheckDateNotAKey();
  }

  lemma FactcheckDateNotAKey()
    ensures "factcheck_date" !in RecordKeyOrder
  {
    forall k <- RecordKeyOrder ensures k != "factcheck_date" {
      assert |k| != 14 || k[0] == 's';
    }
  }

  /**
   * The uid depends only on the stripped statement and the link: two rows that agree on those
   * get the same uid whatever their other fields (and whatever whitespace surrounds the statement).
   */
  lemma UidDeterministic(row1: Json, row2: Json, sha256: string -> string)
    requires TransformRow(row1, sha256).Ok? && TransformRow(row2, sha256).Ok?
    requires Strip(row1.fields["statement"].s) == Strip(row2.fields["statement"].s)
    requires row1.fields["factcheck_analysis_link"] == row2.fields["factcheck_analysis_link"]
    ensures TransformRow(row1, sha256).value["uid"] == TransformRow(row2, sha256).value["uid"]
  {
  }

  function Row(statement: string, link: string): Json {
    JObj(map[
      "statement" := JStr(statement), "factcheck_analysis_link" := JStr(link),
      "verdict" := JNull, "statement_originator" := JNull, "statement_date" := JNull,
      "statement_source" := JNull, "factchecker" := JNull])
  }

  /**
   * The hash input is the bare concatenation, so the boundary between statement and link is
   * lost: the distinct pairs ("ab", "c") and ("a", "bc") get the same uid under any digest.
   */
  lemma UidIgnoresBoundary(sha256: string -> string)
    ensures TransformRow(Row("ab", "c"), sha256).Ok?
    ensures TransformRow(Row("a", "bc"), sha256).Ok?
    ensures TransformRow(Row("ab", "c"), sha256).value["uid"]
         == TransformRow(Row("a", "bc"), sha256).value["uid"]
  {
    StripFixed("ab");
    StripFixed("a");
    assert "ab" + "c" == "a" + "bc";
  }

  // ---------- How `batches` consumes the transform ----------

  /** Python's `a, b, c = items` for an iterable of exactly the given items. */
  function UnpackTriple(items: seq<string>): (r: Result<(string, string, string), RowError>)
    ensures r.Ok? <==> |items| == 3
    ensures r.Ok? ==> r.value == (items[0], items[1], items[2])
  {
    if |items| > 3 then Err(ValueError("too many values to unpack (expected 3)"))
    else if |items| < 3 then Err(ValueError("not enough values to unpack (expected 3)"))
    else Ok((items[0], items[1], items[2]))
  }

  /**
   * The transform as `batches` sees it today: `_id, text, metadata = self._transform_row(row)`
   * iterates the returned dict, that is, its nine keys.
   */
  function AsWrittenTransform(sha256: string -> string): Json -> Result<CID.Entry<Json>, RowError> {
    row =>
      match TransformRow(row, sha256)
      case Err(e) => Err(e)
      case Ok(_) =>
        match UnpackTriple(RecordKeyOrder)
        case Err(e) => Err(e)
        case Ok(t) => Ok(CID.Entry(t.0, t.1, JStr(t.2)))
  }

  /**
   * `PolitifactIngestionDataset(...).batches(n)` as written: whatever the rows and the batch
   * size, nothing is yielded and the first row raises (its own KeyError, or the unpacking
   * ValueError when the row is well formed).
   */
  method BatchesAsWritten(rows: seq<Json>, batchSize: int, sha256: string -> string)
    returns (batches: seq<CID.Batch<Json>>, failure: Option<RowError>)
    ensures batches == []
    ensures rows != [] ==> failure.Some?
    ensures rows != [] && WellFormedRow(rows[0]) ==>
      failure == Some(ValueError("too many values to unpack (expected 3)"))
  {
    var transform := AsWrittenTransform(sha256);
    assert forall row :: transform(row).Err?;
    assert CID.FirstFailure(rows, transform) == 0;
    batches, failure := CID.Batches(rows, batchSize, transform);
  }

  /** The transform the base class documents: `(uid, stripped statement, record)`. */
  function EntryTransform(sha256: string -> string): Json -> Result<CID.Entry<Record>, RowError> {
    row =>
      match TransformRow(row, sha256)
      case Err(e) => Err(e)
      case Ok(record) => Ok(CID.Entry(record["uid"].s, record["statement"].s, record))
  }

  /** With every row well formed, the documented transform never raises and yields each row's triple. */
  lemma DocumentedEntries(rows: seq<Json>, sha256: string -> string)
    requires forall row <- rows :: WellFormedRow(row)
    ensures CID.FirstFailure(rows, EntryTransform(sha256)) == |rows|
    ensures var flat := CID.Transformed(rows, EntryTransform(sha256));
      && |flat| == |rows|
      && forall i :: 0 <= i < |rows| ==>
           var record := TransformRow(rows[i], sha256).value;
           flat[i] == CID.Entry(record["uid"].s, record["statement"].s, record)
  {
    var transform := EntryTransform(sha256);
    forall i | 0 <= i < |rows|
      ensures transform(rows[i]).Ok?
      ensures var record := TransformRow(rows[i], sha256).value;
        transform(rows[i]).value == CID.Entry(record["uid"].s, record["statement"].s, record)
    {
      assert rows[i] in rows;
    }
  }

  /**
   * `batches` over the documented triple: when every row is well formed the concatenated
   * batches are, position by position, the uid, the stripped statement and the record of each
   * row, in stream order.
   */
  method Batches(rows: seq<Json>, batchSize: int, sha256: string -> string)
    returns (batches: seq<CID.Batch<Record>>, failure: Option<RowError>)
    ensures CID.AllAligned(batches)
    ensures failure.None? <==> forall row <- rows :: WellFormedRow(row)
    ensures failure.None? ==>
      var flat := CID.Flatten(batches);
      && |flat| == |rows|
      && forall i :: 0 <= i < |rows| ==>
           var record := TransformRow(rows[i], sha256).value;
           flat[i] == CID.Entry(record["uid"].s, record["statement"].s, record)
    ensures batchSize >= 1 ==> CID.Chunked(batches, batchSize)
  {
    var transform := EntryTransform(sha256);
    batches, failure := CID.Batches(rows, batchSize, transform);
    if forall row <- rows :: WellFormedRow(row) {
      DocumentedEntries(rows, sha256);
    } else {
      var i :| 0 <= i < |rows| && !WellFormedRow(rows[i]);
      assert CID.FirstFailure(rows, transform) <= i;
    }
  }
}
