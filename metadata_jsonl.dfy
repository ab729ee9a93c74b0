/**
 * JSONL persistence of the Python in-memory metadata stores. A file is a sequence of lines,
 * each modelled as the JSON value `json.loads` returns for it.
 *
 * Both store files load with the same loop, `store.data[record["uid"]] = record["metadata"]`,
 * but they save differently:
 * - ingestion/MetadataStores/in_memory_metadata.py writes `{"uid": uid, "metadata": metadata}`,
 *   which that loop reads back (`RoundTripWrapped`);
 * - ingestion/MetadataStores/in_memory_metadata_store.py writes each stored record as it is,
 *   which that loop cannot read back (`FlatReloadFailsAsWritten`); `LoadFlat` is the load
 *   that file's own documentation describes, and `RoundTripFlat` proves it.
 */
module MetadataJsonl {
  import opened Wrappers
  import opened Json
  import opened InMemoryMetadata

  /** What reading one line raises. */
  datatype LineError =
    | TypeError(what: string)   // the line is not a JSON object, or the uid is not hashable
    | KeyError(key: string)     // a key the loop reads is missing
    | NonStringUid              // a number, boolean or null uid: Python stores it, the model refuses it

  /** What one line contributes: the key and the value stored under it. */
  type LineParser = Json -> Result<(string, Json), LineError>

  /**
   * Reading a line of the loop `store.data[record["uid"]] = record["metadata"]`. Python evaluates
   * the right-hand side first, so a missing `metadata` is reported before a missing `uid`.
   */
  function ParseWrapped(line: Json): (r: Result<(string, Json), LineError>)
    ensures r.Ok? <==> line.JObj? && "metadata" in line.fields
                        && "uid" in line.fields && line.fields["uid"].JStr?
    ensures r.Ok? ==> r.value == (line.fields["uid"].s, line.fields["metadata"])
  {
    if !line.JObj? then Err(TypeError("record"))
    else if "metadata" !in line.fields then Err(KeyError("metadata"))
    else if "uid" !in line.fields then Err(KeyError("uid"))
    else match line.fields["uid"]
      case JStr(u) => Ok((u, line.fields["metadata"]))
      case JArr(_) => Err(TypeError("uid"))
      case JObj(_) => Err(TypeError("uid"))
      case _ => Err(NonStringUid)
  }

  /**
   * Reading a flat line as documented ("each line is a single flattened record"): the record
   * is stored whole under its own `uid`.
   */
  function ParseFlat(line: Json): (r: Result<(string, Json), LineError>)
    ensures r.Ok? <==> line.JObj? && "uid" in line.fields && line.fields["uid"].JStr?
    ensures r.Ok? ==> r.value == (line.fields["uid"].s, line)
  {
    if !line.JObj? then Err(TypeError("record"))
    else if "uid" !in line.fields then Err(KeyError("uid"))
    else match line.fields["uid"]
      case JStr(u) => Ok((u, line))
      case JArr(_) => Err(TypeError("uid"))
      case JObj(_) => Err(TypeError("uid"))
      case _ => Err(NonStringUid)
  }

  /**
   * `load`: start from an empty store and apply the lines in order, so a later line for the
   * same uid overwrites an earlier one; the first line that cannot be read aborts the load.
   */
  ghost function LoadWith(lines: seq<Json>, parse: LineParser): (r: Result<Snapshot, LineError>)
    ensures r.Ok? ==> r.value.Valid()
  {
    if lines == [] then Ok(Empty)
    else
      match LoadWith(lines[..|lines| - 1], parse)
      case Err(e) => Err(e)
      case Ok(s) =>
        match parse(lines[|lines| - 1])
        case Err(e) => Err(e)
        case Ok(kv) => Ok(Put(s, kv.0, kv.1))
  }

  /** A load succeeds only if every line can be read. */
  lemma {:induction false} LoadNeedsEveryLine(lines: seq<Json>, parse: LineParser, i: nat)
    requires i < |lines|
    requires LoadWith(lines, parse).Ok?
    ensures parse(lines[i]).Ok?
  {
    var init := lines[..|lines| - 1];
    if i < |lines| - 1 {
      LoadNeedsEveryLine(init, parse, i);
      assert init[i] == lines[i];
    }
  }

  /** The snapshot made of the first `k` entries of `s`, in order. */
  ghost function Prefix(s: Snapshot, k: nat): Snapshot
    requires k <= |s.order|
  {
    Snapshot(s.order[..k], map u | u in s.order[..k] && u in s.data :: s.data[u])
  }

  /** The first `k` entries extended by entry `k`. */
  lemma PrefixStep(s: Snapshot, k: nat)
    requires s.Valid() && k < |s.order|
    ensures s.order[k] !in Prefix(s, k).data
    ensures Put(Prefix(s, k), s.order[k], s.data[s.order[k]]) == Prefix(s, k + 1)
  {
    var u := s.order[k];
    var p := Prefix(s, k);
    assert u !in s.order[..k];
    assert s.order[..k + 1] == s.order[..k] + [u];
    assert p.data[u := s.data[u]] == Prefix(s, k + 1).data;
  }

  lemma PrefixAll(s: Snapshot)
    requires s.Valid()
    ensures Prefix(s, |s.order|) == s
  {
    assert s.order[..|s.order|] == s.order;
  }

  /**
   * Loading lines that carry the entries of a valid snapshot, one per line in key order,
   * rebuilds the snapshot entry by entry.
   */
  lemma {:induction false} LoadPrefix(s: Snapshot, lines: seq<Json>, parse: LineParser, k: nat)
    requires s.Valid() && |lines| == |s.order| && k <= |lines|
    requires forall i :: 0 <= i < |lines| ==> parse(lines[i]) == Ok((s.order[i], s.data[s.order[i]]))
    ensures LoadWith(lines[..k], parse) == Ok(Prefix(s, k))
  {
    if k > 0 {
      LoadPrefix(s, lines, parse, k - 1);
      var pre := lines[..k];
      assert pre[..|pre| - 1] == lines[..k - 1];
      assert pre[|pre| - 1] == lines[k - 1];
      assert parse(lines[k - 1]) == Ok((s.order[k - 1], s.data[s.order[k - 1]]));
      PrefixStep(s, k - 1);
    }
  }

  lemma LoadAll(s: Snapshot, lines: seq<Json>, parse: LineParser)
    requires s.Valid() && |lines| == |s.order|
    requires forall i :: 0 <= i < |lines| ==> parse(lines[i]) == Ok((s.order[i], s.data[s.order[i]]))
    ensures LoadWith(lines, parse) == Ok(s)
  {
    LoadPrefix(s, lines, parse, |lines|);
    assert lines[..|lines|] == lines;
    PrefixAll(s);
  }

  // ---------- in_memory_metadata.py: `{uid, metadata}` lines ----------

  function WrapLine(uid: string, metadata: Json): Json {
    JObj(map["uid" := JStr(uid), "metadata" := metadata])
  }

  /** `save`: one `{uid, metadata}` line per entry, in insertion order. */
  method SaveWrapped(store: InMemoryMetadataStore) returns (lines: seq<Json>)
    requires store.Valid()
    ensures |lines| == |store.order|
    ensures forall i :: 0 <= i < |lines| ==> lines[i] == WrapLine(store.order[i], store.data[store.order[i]])
  {
    lines := [];
    for i := 0 to |store.order|
      invariant |lines| == i
      invariant forall j :: 0 <= j < i ==> lines[j] == WrapLine(store.order[j], store.data[store.order[j]])
    {
      var uid := store.order[i];
      lines := lines + [WrapLine(uid, store.data[uid])];
    }
  }

  /** `load(save(s))` gives back `s`: the same entries, values and insertion order. */
  lemma RoundTripWrapped(s: Snapshot, lines: seq<Json>)
    requires s.Valid() && |lines| == |s.order|
    requires forall i :: 0 <= i < |lines| ==> lines[i] == WrapLine(s.order[i], s.data[s.order[i]])
    ensures LoadWith(lines, ParseWrapped) == Ok(s)
  {
    LoadAll(s, lines, ParseWrapped);
  }

  /** `load` of either file: the store holds exactly what the lines put there, nothing else. */
  method Load(lines: seq<Json>, parse: LineParser) returns (r: Result<InMemoryMetadataStore, LineError>)
    ensures r.Ok? <==> LoadWith(lines, parse).Ok?
    ensures r.Err? ==> r == Err(LoadWith(lines, parse).error)
    ensures r.Ok? ==> fresh(r.value) && r.value.Valid()
                      && r.value.Contents() == LoadWith(lines, parse).value
  {
    var store := new InMemoryMetadataStore();
    for i := 0 to |lines|
      invariant store.Valid() && fresh(store)
      invariant LoadWith(lines[..i], parse) == Ok(store.Contents())
    {
      assert lines[..i + 1][..i] == lines[..i];
      match parse(lines[i]) {
        case Err(e) =>
          LoadStops(lines, parse, i + 1);
          return Err(e);
        case Ok(kv) =>
          store.Upsert(kv.0, kv.1);
      }
    }
    assert lines[..|lines|] == lines;
    return Ok(store);
  }

  /** Once a prefix fails, every longer load fails with the same error. */
  lemma {:induction false} LoadStops(lines: seq<Json>, parse: LineParser, k: nat)
    requires 0 < k <= |lines|
    requires LoadWith(lines[..k - 1], parse).Ok? && parse(lines[k - 1]).Err?
    ensures LoadWith(lines, parse) == Err(parse(lines[k - 1]).error)
  {
    if k < |lines| {
      var init := lines[..|lines| - 1];
      assert init[..k - 1] == lines[..k - 1];
      assert init[k - 1] == lines[k - 1];
      LoadStops(init, parse, k);
    } else {
      assert lines[..k - 1] == lines[..|lines| - 1];
    }
  }

  // ---------- in_memory_metadata_store.py: flat lines ----------

  /** `save`: each stored record written as it is, one per line, in insertion order. */
  method SaveFlat(store: InMemoryMetadataStore) returns (lines: seq<Json>)
    requires store.Valid()
    ensures |lines| == |store.order|
    ensures forall i :: 0 <= i < |lines| ==> lines[i] == store.data[store.order[i]]
  {
    lines := [];
    for i := 0 to |store.order|
      invariant |lines| == i
      invariant forall j :: 0 <= j < i ==> lines[j] == store.data[store.order[j]]
    {
      lines := lines + [store.data[store.order[i]]];
    }
  }

  /**
   * As written, this file's `load` reads `record["metadata"]`, which its own `save` never
   * writes: reloading what was saved fails as soon as one stored record has no `metadata` key.
   */
  lemma FlatReloadFailsAsWritten(s: Snapshot, lines: seq<Json>, i: nat)
    requires s.Valid() && |lines| == |s.order|
    requires forall j :: 0 <= j < |lines| ==> lines[j] == s.data[s.order[j]]
    requires i < |lines| && !(lines[i].JObj? && "metadata" in lines[i].fields)
    ensures LoadWith(lines, ParseWrapped).Err?
  {
    if LoadWith(lines, ParseWrapped).Ok? {
      LoadNeedsEveryLine(lines, ParseWrapped, i);
    }
  }

  /** A concrete store that does not survive save-then-load in that file. */
  lemma FlatReloadCounterexample()
    ensures LoadWith([JObj(map["uid" := JStr("a"), "statement" := JStr("s")])], ParseWrapped)
         == Err(KeyError("metadata"))
  {
    var line := JObj(map["uid" := JStr("a"), "statement" := JStr("s")]);
    assert [line][..0] == [];
  }

  /** A record that carries its own uid, as every ingested record does. */
  ghost predicate SelfKeyed(s: Snapshot) {
    forall u <- s.data :: s.data[u].JObj? && "uid" in s.data[u].fields && s.data[u].fields["uid"] == JStr(u)
  }

  /** With the documented flat load, saving then loading gives back the store. */
  lemma RoundTripFlat(s: Snapshot, lines: seq<Json>)
    requires s.Valid() && SelfKeyed(s) && |lines| == |s.order|
    requires forall i :: 0 <= i < |lines| ==> lines[i] == s.data[s.order[i]]
    ensures LoadWith(lines, ParseFlat) == Ok(s)
  {
    forall i | 0 <= i < |lines|
      ensures ParseFlat(lines[i]) == Ok((s.order[i], s.data[s.order[i]]))
    {
      assert s.order[i] in s.data;
    }
    LoadAll(s, lines, ParseFlat);
  }

  /** `load` of the flat file as its documentation describes it. */
  method LoadFlat(lines: seq<Json>) returns (r: Result<InMemoryMetadataStore, LineError>)
    ensures r.Ok? <==> LoadWith(lines, ParseFlat).Ok?
    ensures r.Ok? ==> fresh(r.value) && r.value.Valid()
                      && r.value.Contents() == LoadWith(lines, ParseFlat).value
  {
    r := Load(lines, ParseFlat);
  }

  /** Saving the `{uid, metadata}` file and loading it gives back the same store contents. */
  method SaveThenLoadWrapped(store: InMemoryMetadataStore) returns (r: Result<InMemoryMetadataStore, LineError>)
    requires store.Valid()
    ensures r.Ok? && r.value.Contents() == store.Contents()
  {
    var lines := SaveWrapped(store);
    RoundTripWrapped(store.Contents(), lines);
    r := LoadWrapped(lines);
  }

  /** Saving the flat file and loading it as documented gives back the same store contents. */
  method SaveThenLoadFlat(store: InMemoryMetadataStore) returns (r: Result<InMemoryMetadataStore, LineError>)
    requires store.Valid() && SelfKeyed(store.Contents())
    ensures r.Ok? && r.value.Contents() == store.Contents()
  {
    var lines := SaveFlat(store);
    RoundTripFlat(store.Contents(), lines);
    r := LoadFlat(lines);
  }

  /** `load` of the `{uid, metadata}` file. */
  method LoadWrapped(lines: seq<Json>) returns (r: Result<InMemoryMetadataStore, LineError>)
    ensures r.Ok? <==> LoadWith(lines, ParseWrapped).Ok?
    ensures r.Ok? ==> fresh(r.value) && r.value.Valid()
                      && r.value.Contents() == LoadWith(lines, ParseWrapped).value
  {
    r := Load(lines, ParseWrapped);
  }
}
