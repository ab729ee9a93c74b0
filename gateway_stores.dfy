/**
 * The API gateway's metadata stores (api-gateway/stores). Both answer `Get(uids)` with the
 * claims of the requested uids that are known, in request order; the in-memory store loads a
 * JSON-lines file at start-up, the Postgres store queries `claim_metadata`.
 *
 * Files, the line scanner, JSON decoding and SQL are not modelled: each line arrives already
 * decoded (or as the decoding error), and each scanned row likewise.
 */
module GatewayMetadata {
  import opened Wrappers

  /** `ClaimMetaData`; `FactCheckDate` is the only nullable field (`*string`). */
  datatype ClaimMetaData = ClaimMetaData(
    uid: string,
    statement: string,
    verdict: string,
    statementOriginator: string,
    statementDate: string,
    statementSource: string,
    factChecker: string,
    factCheckDate: Option<string>,
    factCheckAnalysisLink: string)

  /** A map keyed by each claim's own uid. */
  ghost predicate Keyed(m: map<string, ClaimMetaData>) {
    forall u <- m :: m[u].uid == u
  }

  /** The requested uids that have an entry, in request order, duplicates kept. */
  function Present(uids: seq<string>, m: map<string, ClaimMetaData>): (p: seq<string>)
    ensures |p| <= |uids|
    ensures forall u <- p :: u in m && u in uids
  {
    if uids == [] then []
    else
      var init, u := uids[..|uids| - 1], uids[|uids| - 1];
      assert forall x <- init :: x in uids;
      Present(init, m) + (if u in m then [u] else [])
  }

  /** The loop `for _, uid := range uids { if meta, ok := m[uid]; ok { append } }`. */
  function Lookup(uids: seq<string>, m: map<string, ClaimMetaData>): (r: seq<ClaimMetaData>)
    ensures |r| == |Present(uids, m)|
    ensures forall i :: 0 <= i < |r| ==> r[i] == m[Present(uids, m)[i]]
  {
    if uids == [] then []
    else
      var init, u := uids[..|uids| - 1], uids[|uids| - 1];
      Lookup(init, m) + (if u in m then [m[u]] else [])
  }

  /** The known uids of a concatenation are the known uids of each part, in order. */
  lemma {:induction false} PresentAppend(a: seq<string>, b: seq<string>, m: map<string, ClaimMetaData>)
    ensures Present(a + b, m) == Present(a, m) + Present(b, m)
  {
    if b == [] {
      assert a + b == a;
    } else {
      var init, u := b[..|b| - 1], b[|b| - 1];
      assert (a + b)[..|a + b| - 1] == a + init;
      assert (a + b)[|a + b| - 1] == u;
      PresentAppend(a, init, m);
      var tail := if u in m then [u] else [];
      assert Present(a + b, m) == Present(a + init, m) + tail;
      assert Present(b, m) == Present(init, m) + tail;
    }
  }

  /** Claims read off a concatenation of known uids are the concatenation of the claims. */
  lemma ConcatPointwise(r: seq<ClaimMetaData>, ra: seq<ClaimMetaData>, rb: seq<ClaimMetaData>,
                        pa: seq<string>, pb: seq<string>, m: map<string, ClaimMetaData>)
    requires forall u <- pa + pb :: u in m
    requires |r| == |pa + pb| && forall i :: 0 <= i < |r| ==> r[i] == m[(pa + pb)[i]]
    requires |ra| == |pa| && forall i :: 0 <= i < |ra| ==> ra[i] == m[pa[i]]
    requires |rb| == |pb| && forall i :: 0 <= i < |rb| ==> rb[i] == m[pb[i]]
    ensures r == ra + rb
  {
    forall i | 0 <= i < |r| ensures r[i] == (ra + rb)[i] {
      if i >= |ra| {
        assert (pa + pb)[i] == pb[i - |ra|];
      }
    }
  }

  /** Looking up a concatenation concatenates: request order is kept. */
  lemma LookupAppend(a: seq<string>, b: seq<string>, m: map<string, ClaimMetaData>)
    ensures Lookup(a + b, m) == Lookup(a, m) + Lookup(b, m)
  {
    PresentAppend(a, b, m);
    ConcatPointwise(Lookup(a + b, m), Lookup(a, m), Lookup(b, m), Present(a, m), Present(b, m), m);
  }

  /** A uid requested twice comes back twice. */
  lemma LookupDuplicate(u: string, m: map<string, ClaimMetaData>)
    requires u in m
    ensures Lookup([u, u], m) == [m[u], m[u]]
  {
    assert [u, u][..1] == [u];
  }

  /** In a map keyed by uid, the i-th claim returned is the claim of the i-th known uid asked for. */
  lemma KeyedLookup(uids: seq<string>, m: map<string, ClaimMetaData>)
    requires Keyed(m)
    ensures forall i :: 0 <= i < |Lookup(uids, m)| ==> Lookup(uids, m)[i].uid == Present(uids, m)[i]
  {
  }

  /** Two maps that agree on the requested uids give the same answer. */
  lemma {:induction false} LookupAgree(uids: seq<string>, m1: map<string, ClaimMetaData>, m2: map<string, ClaimMetaData>)
    requires forall u <- uids :: (u in m1 <==> u in m2) && (u in m1 ==> m1[u] == m2[u])
    ensures Lookup(uids, m1) == Lookup(uids, m2)
  {
    if uids != [] {
      var init := uids[..|uids| - 1];
      assert forall x <- init :: x in uids;
      LookupAgree(init, m1, m2);
    }
  }

  /**
   * The loop both stores run over the request: append the claim of each requested uid that
   * the map holds.
   */
  method CollectKnown(uids: seq<string>, m: map<string, ClaimMetaData>) returns (results: seq<ClaimMetaData>)
    ensures results == Lookup(uids, m)
  {
    results := [];
    for i := 0 to |uids|
      invariant results == Lookup(uids[..i], m)
    {
      assert uids[..i + 1][..i] == uids[..i];
      if uids[i] in m {
        results := results + [m[uids[i]]];
      }
    }
    assert uids[..|uids|] == uids;
  }

  /** Why building the in-memory store failed. */
  datatype LoadError<E> = Failed(cause: E) | MissingUid

  /** The check a line goes through: it must decode, and its uid must be non-empty. */
  function LineCheck<E>(line: Result<ClaimMetaData, E>): Option<LoadError<E>> {
    match line
    case Err(e) => Some(Failed(e))
    case Ok(meta) => if meta.uid == "" then Some(MissingUid) else None
  }

  /** Line `i` decoded, and no later line carries its uid. */
  ghost predicate LastOfItsUid<E>(lines: seq<Result<ClaimMetaData, E>>, i: int)
    requires 0 <= i < |lines|
  {
    lines[i].Ok? && forall j :: i < j < |lines| ==> lines[j].Ok? ==> lines[j].value.uid != lines[i].value.uid
  }

  /**
   * The map the scanner loop builds, or the error of the first line that fails its check.
   * `data[meta.UID] = meta` makes the last line with a given uid the one that is kept.
   */
  ghost function LoadLines<E>(lines: seq<Result<ClaimMetaData, E>>): (r: Result<map<string, ClaimMetaData>, LoadError<E>>)
    ensures r.Ok? <==> forall l <- lines :: LineCheck(l).None?
    ensures r.Err? ==> exists i :: 0 <= i < |lines| && LineCheck(lines[i]) == Some(r.error)
                                   && forall j :: 0 <= j < i ==> LineCheck(lines[j]).None?
    ensures r.Ok? ==> Keyed(r.value)
    ensures r.Ok? ==> forall i :: 0 <= i < |lines| ==> lines[i].Ok? && lines[i].value.uid in r.value
    ensures r.Ok? ==> forall u <- r.value :: Ok(r.value[u]) in lines
    ensures r.Ok? ==> forall i :: 0 <= i < |lines| && LastOfItsUid(lines, i) ==>
      r.value[lines[i].value.uid] == lines[i].value
  {
    if lines == [] then Ok(map[])
    else
      var init, line := lines[..|lines| - 1], lines[|lines| - 1];
      assert lines == init + [line];
      match LoadLines(init)
      case Err(e) =>
        assert forall l <- init :: l in lines;
        Err(e)
      case Ok(m) =>
        match LineCheck(line)
        case Some(e) =>
          assert LineCheck(lines[|lines| - 1]) == Some(e);
          Err(e)
        case None =>
          Ok(m[line.value.uid := line.value])
  }

  /** Once a prefix of the lines fails, loading the whole file fails the same way. */
  lemma {:induction false} LoadErrExtends<E>(lines: seq<Result<ClaimMetaData, E>>, i: nat)
    requires i <= |lines|
    requires LoadLines(lines[..i]).Err?
    ensures LoadLines(lines) == LoadLines(lines[..i])
  {
    if i < |lines| {
      var init := lines[..|lines| - 1];
      assert init[..i] == lines[..i];
      LoadErrExtends(init, i);
    } else {
      assert lines[..i] == lines;
    }
  }

  /** `InMemoryMetadataStore`: the file path and the claims by uid. */
  class InMemoryMetadataStore {
    const path: string
    const data: map<string, ClaimMetaData>

    constructor (path: string, data: map<string, ClaimMetaData>)
      ensures this.path == path && this.data == data
    {
      this.path, this.data := path, data;
    }

    /**
     * `Get(ctx, uids)`: the stored claims of the requested uids, in request order, unknown
     * uids skipped; it never fails and always returns a non-nil slice.
     */
    method Get(uids: seq<string>) returns (results: seq<ClaimMetaData>)
      ensures results == Lookup(uids, data)
      ensures |results| <= |uids|
      ensures uids == [] ==> results == []
    {
      results := CollectKnown(uids, data);
    }
  }

  /**
   * `NewInMemoryMetadataStore(path)`: opening the file can fail; each scanned line is decoded
   * and checked in turn and the first failure is returned with no store; a scanner error
   * after the last line fails too.
   */
  method NewInMemoryMetadataStore<E>(path: string, openErr: Option<E>,
                                     lines: seq<Result<ClaimMetaData, E>>, scanErr: Option<E>)
    returns (r: Result<InMemoryMetadataStore, LoadError<E>>)
    ensures openErr.Some? ==> r == Err(Failed(openErr.value))
    ensures openErr.None? && LoadLines(lines).Err? ==> r == Err(LoadLines(lines).error)
    ensures openErr.None? && LoadLines(lines).Ok? && scanErr.Some? ==> r == Err(Failed(scanErr.value))
    ensures r.Ok? <==> openErr.None? && LoadLines(lines).Ok? && scanErr.None?
    ensures r.Ok? ==> r.value.path == path && r.value.data == LoadLines(lines).value
  {
    if openErr.Some? {
      return Err(Failed(openErr.value));
    }
    var data := map[];
    for i := 0 to |lines|
      invariant LoadLines(lines[..i]) == Ok(data)
    {
      assert lines[..i + 1][..i] == lines[..i];
      assert lines[..i + 1][i] == lines[i];
      match lines[i] {
        case Err(e) =>
          LoadErrExtends(lines, i + 1);
          return Err(Failed(e));
        case Ok(meta) =>
          if meta.uid == "" {
            LoadErrExtends(lines, i + 1);
            return Err(MissingUid);
          }
          data := data[meta.uid := meta];
      }
    }
    assert lines[..|lines|] == lines;
    if scanErr.Some? {
      return Err(Failed(scanErr.value));
    }
    var store := new InMemoryMetadataStore(path, data);
    r := Ok(store);
  }

  /** What `QueryContext` and the row cursor deliver. */
  datatype QueryOutcome<E> =
    | QueryFailed(err: E)
    | Rows(rows: seq<Result<ClaimMetaData, E>>, iterErr: Option<E>)

  /** The `byUID` map the scan loop builds, or the first scan error. */
  ghost function ByUid<E>(rows: seq<Result<ClaimMetaData, E>>): (r: Result<map<string, ClaimMetaData>, E>)
    ensures r.Ok? <==> forall row <- rows :: row.Ok?
    ensures r.Ok? ==> Keyed(r.value)
    ensures r.Ok? ==> forall row <- rows :: row.value.uid in r.value
    ensures r.Ok? ==> forall u <- r.value :: Ok(r.value[u]) in rows
  {
    if rows == [] then Ok(map[])
    else
      var init, row := rows[..|rows| - 1], rows[|rows| - 1];
      assert rows == init + [row];
      match ByUid(init)
      case Err(e) =>
        assert forall x <- init :: x in rows;
        Err(e)
      case Ok(m) =>
        match row
        case Err(e) => Err(e)
        case Ok(meta) => Ok(m[meta.uid := meta])
  }

  lemma {:induction false} ByUidErrExtends<E>(rows: seq<Result<ClaimMetaData, E>>, i: nat)
    requires i <= |rows|
    requires ByUid(rows[..i]).Err?
    ensures ByUid(rows) == ByUid(rows[..i])
  {
    if i < |rows| {
      var init := rows[..|rows| - 1];
      assert init[..i] == rows[..i];
      ByUidErrExtends(init, i);
    } else {
      assert rows[..i] == rows;
    }
  }

  /** The `for rows.Next()` loop: scan each row into `byUID`, stopping at the first scan error. */
  method ScanRows<E>(rows: seq<Result<ClaimMetaData, E>>) returns (r: Result<map<string, ClaimMetaData>, E>)
    ensures r == ByUid(rows)
  {
    var byUid := map[];
    for i := 0 to |rows|
      invariant ByUid(rows[..i]) == Ok(byUid)
    {
      assert rows[..i + 1][..i] == rows[..i];
      assert rows[..i + 1][i] == rows[i];
      match rows[i] {
        case Err(e) =>
          ByUidErrExtends(rows, i + 1);
          return Err(e);
        case Ok(meta) =>
          byUid := byUid[meta.uid := meta];
      }
    }
    assert rows[..|rows|] == rows;
    r := Ok(byUid);
  }

  /**
   * `PostgresMetadataStore.Get(ctx, uids)`: an empty request returns a nil slice (`None`)
   * without querying; any query, scan or cursor error returns a nil slice and the error;
   * otherwise the rows are indexed by uid and read back in request order.
   */
  method PostgresGet<E>(uids: seq<string>, outcome: QueryOutcome<E>)
    returns (r: Result<Option<seq<ClaimMetaData>>, E>, queried: bool)
    ensures queried <==> uids != []
    ensures uids == [] ==> r == Ok(None)
    ensures uids != [] && outcome.QueryFailed? ==> r == Err(outcome.err)
    ensures uids != [] && outcome.Rows? && ByUid(outcome.rows).Err? ==> r == Err(ByUid(outcome.rows).error)
    ensures uids != [] && outcome.Rows? && ByUid(outcome.rows).Ok? && outcome.iterErr.Some? ==>
      r == Err(outcome.iterErr.value)
    ensures r.Ok? <==> uids == [] || (outcome.Rows? && ByUid(outcome.rows).Ok? && outcome.iterErr.None?)
    ensures r.Ok? && uids != [] ==> r.value == Some(Lookup(uids, ByUid(outcome.rows).value))
  {
    if uids == [] {
      return Ok(None), false;
    }
    queried := true;
    match outcome {
      case QueryFailed(e) =>
        return Err(e), queried;
      case Rows(rows, iterErr) =>
        var scanned := ScanRows(rows);
        if scanned.Err? {
          return Err(scanned.error), queried;
        }
        if iterErr.Some? {
          return Err(iterErr.value), queried;
        }
        var ordered := CollectKnown(uids, scanned.value);
        r := Ok(Some(ordered));
    }
  }

  /**
   * When the database returns exactly the stored rows of the requested uids (in any order),
   * the Postgres store answers as the in-memory store does over the same table.
   */
  lemma PostgresAgreesWithTable<E>(uids: seq<string>, rows: seq<Result<ClaimMetaData, E>>,
                                   table: map<string, ClaimMetaData>)
    requires Keyed(table)
    requires forall row <- rows :: row.Ok? && row.value.uid in table && table[row.value.uid] == row.value
    requires forall u <- uids :: u in table ==> Ok(table[u]) in rows
    ensures ByUid(rows).Ok?
    ensures Lookup(uids, ByUid(rows).value) == Lookup(uids, table)
  {
    var m := ByUid(rows).value;
    forall u <- uids ensures (u in m <==> u in table) && (u in m ==> m[u] == table[u]) {
      if u in m {
        assert Ok(m[u]) in rows;
      }
      if u in table {
        assert Ok(table[u]) in rows;
      }
    }
    LookupAgree(uids, m, table);
  }
}
