/**
 * The metadata half of the ingestion driver in ingestion/ingest.py: for each batch the dataset
 * yields, every record is upserted into the Postgres metadata store. The embedding call and
 * the vector upsert that follow it are not modelled.
 *
 * The driver as written iterates each batch as if it were a list of record dicts, but a batch
 * is the tuple `(ids, texts, metadatas)`. `UpsertRecords` models the loop as written and
 * `AsWrittenRaises` shows that it raises on the first item it visits; `UpsertBatch` models
 * the loop verification-agent/ingest.py uses on the same tuple, which upserts each pair of
 * `zip(ids, metadatas)`, and `CorrectedMatchesIntended` shows that it writes what the written
 * loop was meant to write.
 *
 * Both loops are specified by `Applied`: the table after writing a sequence of steps in order,
 * where each step is the uid and row one upsert writes, or the exception it raises.
 */
module IngestionDriver {
  import opened Wrappers
  import opened Json
  import opened IsoDate
  import opened ClaimIngestionDataset
  import opened PostgresMetadata

  /**
   * The state after writing `steps` in order into `table`: the first step that raises stops
   * the loop, and the rows written before it stay.
   */
  ghost function Applied<E>(table: map<string, Row>, steps: seq<Result<(string, Row), E>>)
    : (Result<(), E>, map<string, Row>)
    decreases |steps|
  {
    if steps == [] then (Ok(()), table)
    else
      var before := Applied(table, steps[..|steps| - 1]);
      var step := steps[|steps| - 1];
      if before.0.Err? then before
      else if step.Err? then (Err(step.error), before.1)
      else (Ok(()), before.1[step.value.0 := step.value.1])
  }

  /** The loop succeeds exactly when no step raises. */
  lemma {:induction false} AppliedSucceeds<E>(table: map<string, Row>, steps: seq<Result<(string, Row), E>>)
    ensures Applied(table, steps).0.Ok? <==> forall s <- steps :: s.Ok?
    decreases |steps|
  {
    if steps != [] {
      var init := steps[..|steps| - 1];
      AppliedSucceeds(table, init);
      assert steps == init + [steps[|steps| - 1]];
    }
  }

  /**
   * After a successful loop the table holds the uids it held before and those the steps
   * wrote, and every row no step wrote is untouched.
   */
  lemma {:induction false} AppliedKeeps<E>(table: map<string, Row>, steps: seq<Result<(string, Row), E>>)
    requires Applied(table, steps).0.Ok?
    ensures var t := Applied(table, steps).1;
      && (forall u :: u in t <==> u in table || exists s <- steps :: s.Ok? && s.value.0 == u)
      && (forall u <- table :: (forall s <- steps :: s.Ok? ==> s.value.0 != u) ==> t[u] == table[u])
    decreases |steps|
  {
    if steps != [] {
      var init := steps[..|steps| - 1];
      var last := steps[|steps| - 1];
      AppliedKeeps(table, init);
      var t0 := Applied(table, init).1;
      var t := Applied(table, steps).1;
      assert t == t0[last.value.0 := last.value.1];
      forall u ensures u in t <==> u in table || exists s <- steps :: s.Ok? && s.value.0 == u {
        if exists s <- init :: s.Ok? && s.value.0 == u {
          var s :| s in init && s.Ok? && s.value.0 == u;
          assert s in steps;
        }
        if exists s <- steps :: s.Ok? && s.value.0 == u {
          var s :| s in steps && s.Ok? && s.value.0 == u;
          assert s in init || s == last;
        }
      }
      forall u <- table | forall s <- steps :: s.Ok? ==> s.value.0 != u ensures t[u] == table[u] {
        assert last in steps;
        assert forall s <- init :: s in steps;
      }
    }
  }

  /** Step `i` writes a uid no later step writes again. */
  ghost predicate LastFor<E>(steps: seq<Result<(string, Row), E>>, i: int) {
    && 0 <= i < |steps| && steps[i].Ok?
    && forall j :: i < j < |steps| && steps[j].Ok? ==> steps[j].value.0 != steps[i].value.0
  }

  /** After a successful loop each uid holds the row of its last write (last write wins). */
  lemma {:induction false} AppliedLastWins<E>(table: map<string, Row>, steps: seq<Result<(string, Row), E>>, i: int)
    requires Applied(table, steps).0.Ok?
    requires LastFor(steps, i)
    ensures var t := Applied(table, steps).1;
      steps[i].value.0 in t && t[steps[i].value.0] == steps[i].value.1
    decreases |steps|
  {
    var init := steps[..|steps| - 1];
    if i < |steps| - 1 {
      assert LastFor(init, i) && init[i] == steps[i];
      AppliedLastWins(table, init, i);
    }
  }

  /** One more pass of a loop that has not raised yet. */
  lemma AppliedSnoc<E>(table: map<string, Row>, steps: seq<Result<(string, Row), E>>, i: nat)
    requires i < |steps|
    requires Applied(table, steps[..i]).0.Ok?
    ensures var before := Applied(table, steps[..i]).1;
      Applied(table, steps[..i + 1])
        == if steps[i].Err? then (Err(steps[i].error), before)
           else (Ok(()), before[steps[i].value.0 := steps[i].value.1])
  {
    assert steps[..i + 1][..i] == steps[..i];
  }

  /** Once the loop has raised, the steps after the failing one change nothing. */
  lemma {:induction false} AppliedRaisedStays<E>(table: map<string, Row>, steps: seq<Result<(string, Row), E>>, k: nat)
    requires k <= |steps|
    requires Applied(table, steps[..k]).0.Err?
    ensures Applied(table, steps) == Applied(table, steps[..k])
    decreases |steps| - k
  {
    if k < |steps| {
      assert steps[..k + 1][..k] == steps[..k];
      AppliedRaisedStays(table, steps, k + 1);
    } else {
      assert steps[..k] == steps;
    }
  }

  /** Two loops whose steps write the same rows and raise at the same places leave the same table. */
  lemma {:induction false} AppliedAgree<E, F>(table: map<string, Row>, steps: seq<Result<(string, Row), E>>,
                                              others: seq<Result<(string, Row), F>>)
    requires |steps| == |others|
    requires forall i :: 0 <= i < |steps| ==>
      (steps[i].Ok? <==> others[i].Ok?) && (steps[i].Ok? ==> steps[i].value == others[i].value)
    ensures Applied(table, steps).1 == Applied(table, others).1
    ensures Applied(table, steps).0.Ok? <==> Applied(table, others).0.Ok?
    decreases |steps|
  {
    if steps != [] {
      var n := |steps| - 1;
      AppliedAgree(table, steps[..n], others[..n]);
    }
  }

  /** A Python value the driver's loop can visit: a list, or a record dict. */
  datatype PyValue = PyList(items: seq<Json>) | PyDict(fields: Record)

  /** Why the written loop raises. */
  datatype DriverError =
    | TypeError(message: string)
    | KeyError(key: string)
    | UidNotText
    | Rejected(cause: DataError)

  const ListIndexMessage := "list indices must be integers or slices, not str"

  /** `value[key]` with a string key: a dict looks the key up, a list refuses the index. */
  function Subscript(value: PyValue, key: string): (r: Result<Json, DriverError>)
    ensures r.Ok? <==> value.PyDict? && key in value.fields
    ensures r.Ok? ==> r.value == value.fields[key]
    ensures value.PyList? ==> r == Err(TypeError(ListIndexMessage))
    ensures value.PyDict? && key !in value.fields ==> r == Err(KeyError(key))
  {
    match value
    case PyList(_) => Err(TypeError(ListIndexMessage))
    case PyDict(fields) => if key in fields then Ok(fields[key]) else Err(KeyError(key))
  }

  /** What `for record in records` visits when `records` is a batch: its three lists, in order. */
  function AsIterated(b: Batch<Record>): (items: seq<PyValue>)
    ensures |items| == 3 && forall item <- items :: item.PyList?
  {
    [ PyList(seq(|b.ids|, i requires 0 <= i < |b.ids| => JStr(b.ids[i]))),
      PyList(seq(|b.texts|, i requires 0 <= i < |b.texts| => JStr(b.texts[i]))),
      PyList(seq(|b.metadatas|, i requires 0 <= i < |b.metadatas| => JObj(b.metadatas[i]))) ]
  }

  /**
   * One pass of the written loop over `record`: `upsert(uid=record["uid"], metadata=record)`
   * writes the row the store binds, or raises.
   */
  function RecordStep(record: PyValue, dateInput: string -> Option<Date>): (r: Result<(string, Row), DriverError>)
    ensures r.Ok? ==> record.PyDict? && Subscript(record, "uid") == Ok(JStr(r.value.0))
    ensures r.Ok? ==> ToRow(r.value.0, record.fields, dateInput) == Ok(r.value.1)
  {
    var uid :- Subscript(record, "uid");
    if !uid.JStr? then Err(UidNotText)
    else match ToRow(uid.s, record.fields, dateInput)
      case Err(e) => Err(Rejected(e))
      case Ok(row) => Ok((uid.s, row))
  }

  /** The steps of the written loop over `records`. */
  function RecordSteps(records: seq<PyValue>, dateInput: string -> Option<Date>)
    : (steps: seq<Result<(string, Row), DriverError>>)
    ensures |steps| == |records|
    ensures forall i :: 0 <= i < |records| ==> steps[i] == RecordStep(records[i], dateInput)
  {
    seq(|records|, i requires 0 <= i < |records| => RecordStep(records[i], dateInput))
  }

  /**
   * Lines 61-65 of ingestion/ingest.py: `metadata_store.upsert(uid=record["uid"],
   * metadata=record)` for each record of the batch, until one raises.
   */
  method UpsertRecords(store: PostgresMetadataStore, records: seq<PyValue>) returns (r: Result<(), DriverError>)
    requires store.Valid()
    modifies store
    ensures store.Valid()
    ensures (r, store.table) == Applied(old(store.table), RecordSteps(records, store.dateInput))
  {
    ghost var steps := RecordSteps(records, store.dateInput);
    r := Ok(());
    var i := 0;
    while i < |records| && r.Ok?
      invariant 0 <= i <= |records|
      invariant store.Valid()
      invariant (r, store.table) == Applied(old(store.table), steps[..i])
    {
      AppliedSnoc(old(store.table), steps, i);
      var record := records[i];
      var uid := Subscript(record, "uid");
      if uid.Err? {
        r := Err(uid.error);
      } else if !uid.value.JStr? {
        r := Err(UidNotText);
      } else {
        var upserted := store.Upsert(uid.value.s, record.fields);
        if upserted.Err? {
          r := Err(Rejected(upserted.error));
        }
      }
      i := i + 1;
    }
    if i < |records| {
      AppliedRaisedStays(old(store.table), steps, i);
    } else {
      assert steps[..i] == steps;
    }
  }

  /**
   * The driver as written, on any batch `batches` yields: the first item it visits is the
   * list of ids, `record["uid"]` on it raises TypeError, and no row is written.
   */
  lemma AsWrittenRaises(table: map<string, Row>, dateInput: string -> Option<Date>, b: Batch<Record>)
    ensures Applied(table, RecordSteps(AsIterated(b), dateInput)) == (Err(TypeError(ListIndexMessage)), table)
  {
    var steps := RecordSteps(AsIterated(b), dateInput);
    assert steps[..1][..0] == [];
    AppliedRaisedStays(table, steps, 1);
  }

  /** Python's `zip(a, b)`: pairs up to the shorter length. */
  function Zip<A, B>(a: seq<A>, b: seq<B>): (r: seq<(A, B)>)
    ensures |r| == if |a| < |b| then |a| else |b|
    ensures forall i :: 0 <= i < |r| ==> r[i] == (a[i], b[i])
  {
    if a == [] || b == [] then [] else [(a[0], b[0])] + Zip(a[1..], b[1..])
  }

  /** One `upsert(uid, metadata)`: the row the store binds, or the error it raises. */
  function PairStep(uid: string, metadata: Record, dateInput: string -> Option<Date>)
    : (r: Result<(string, Row), DataError>)
    ensures r.Ok? <==> ToRow(uid, metadata, dateInput).Ok?
    ensures r.Ok? ==> r.value == (uid, ToRow(uid, metadata, dateInput).value)
    ensures r.Err? ==> ToRow(uid, metadata, dateInput) == Err(r.error)
  {
    match ToRow(uid, metadata, dateInput)
    case Err(e) => Err(e)
    case Ok(row) => Ok((uid, row))
  }

  /** The steps of the corrected loop over `pairs`. */
  function PairSteps(pairs: seq<(string, Record)>, dateInput: string -> Option<Date>)
    : (steps: seq<Result<(string, Row), DataError>>)
    ensures |steps| == |pairs|
    ensures forall i :: 0 <= i < |pairs| ==> steps[i] == PairStep(pairs[i].0, pairs[i].1, dateInput)
  {
    seq(|pairs|, i requires 0 <= i < |pairs| => PairStep(pairs[i].0, pairs[i].1, dateInput))
  }

  /**
   * The corrected driver loop, as verification-agent/ingest.py lines 41-42 write it: for each
   * pair of `zip(ids, metadatas)`, `metadata_store.upsert(uid, metadata)`, until one raises.
   */
  method UpsertBatch(store: PostgresMetadataStore, b: Batch<Record>) returns (r: Result<(), DataError>)
    requires store.Valid()
    modifies store
    ensures store.Valid()
    ensures (r, store.table) == Applied(old(store.table), PairSteps(Zip(b.ids, b.metadatas), store.dateInput))
  {
    ghost var steps := PairSteps(Zip(b.ids, b.metadatas), store.dateInput);
    r := Ok(());
    var i := 0;
    while i < |b.ids| && i < |b.metadatas| && r.Ok?
      invariant 0 <= i <= |steps|
      invariant store.Valid()
      invariant (r, store.table) == Applied(old(store.table), steps[..i])
    {
      AppliedSnoc(old(store.table), steps, i);
      var upserted := store.Upsert(b.ids[i], b.metadatas[i]);
      if upserted.Err? {
        r := Err(upserted.error);
      }
      i := i + 1;
    }
    if i < |steps| {
      AppliedRaisedStays(old(store.table), steps, i);
    } else {
      assert steps[..i] == steps;
    }
  }

  /** The batch's records as the list of dicts ingestion/ingest.py expects to iterate. */
  function AsDicts(b: Batch<Record>): (dicts: seq<PyValue>)
    ensures |dicts| == |b.metadatas|
    ensures forall i :: 0 <= i < |dicts| ==> dicts[i] == PyDict(b.metadatas[i])
  {
    seq(|b.metadatas|, i requires 0 <= i < |b.metadatas| => PyDict(b.metadatas[i]))
  }

  /** A record that carries its own uid is written under that uid, as the store binds it. */
  lemma StepAgrees(metadata: Record, uid: string, dateInput: string -> Option<Date>)
    requires "uid" in metadata && metadata["uid"] == JStr(uid)
    ensures var step := RecordStep(PyDict(metadata), dateInput);
      var pair := PairStep(uid, metadata, dateInput);
      (step.Ok? <==> pair.Ok?) && (step.Ok? ==> step.value == pair.value)
  {
  }

  /**
   * What ingestion/ingest.py meant: when each record carries its own uid, as every record of
   * a Politifact batch does, the corrected loop leaves the same table as the written loop
   * would if it were handed the records as a list of dicts, and fails in the same cases.
   */
  lemma CorrectedMatchesIntended(table: map<string, Row>, dateInput: string -> Option<Date>, b: Batch<Record>)
    requires |b.ids| == |b.metadatas|
    requires forall i :: 0 <= i < |b.ids| ==> "uid" in b.metadatas[i] && b.metadatas[i]["uid"] == JStr(b.ids[i])
    ensures var corrected := Applied(table, PairSteps(Zip(b.ids, b.metadatas), dateInput));
      var intended := Applied(table, RecordSteps(AsDicts(b), dateInput));
      corrected.1 == intended.1 && (corrected.0.Ok? <==> intended.0.Ok?)
  {
    var pairs := PairSteps(Zip(b.ids, b.metadatas), dateInput);
    var records := RecordSteps(AsDicts(b), dateInput);
    forall i | 0 <= i < |pairs|
      ensures (pairs[i].Ok? <==> records[i].Ok?) && (pairs[i].Ok? ==> pairs[i].value == records[i].value)
    {
      StepAgrees(b.metadatas[i], b.ids[i], dateInput);
    }
    AppliedAgree(table, pairs, records);
  }
}
