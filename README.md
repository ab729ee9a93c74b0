# Project Aletheia — the ingestion and storage core, in Dafny

Project Aletheia stores fact-checked claims twice. Each claim's metadata is kept under a
content-derived uid, and an embedding vector is kept under the same uid. A Go API gateway
answers similarity searches by joining the two stores. This project models the bookkeeping
around those stores and proves properties of the model.

- **Ingestion batching** (`batching.dfy`, `politifact.dfy`): `ClaimIngestionDataset.batches`,
  and the Politifact row transform (strip, SHA-256 uid, record).
- **Python metadata stores** (`metadata_store.dfy`, `metadata_jsonl.dfy`, `postgres_store.dfy`):
  - the three in-memory dict stores, which behave the same (two under ingestion/, one under
    verification-agent/), modelled by one class, with their two JSON-lines save/load formats;
  - the Postgres store: its upsert projection onto nine columns, ISO 8601 date rendering,
    and the driver error a stored date outside years 1-9999 raises on fetch.
- **Ingestion driver** (`ingest.dfy`): the metadata upsert loop of ingestion/ingest.py, as
  written and corrected.
- **Vector stores** (`vector_store.dfy`):
  - the `VectorStore` interface obligations;
  - FAISS: the append-only `id_map`, query resolution, delete, and save/load. The copy in
    verification-agent/VectorStores/faiss_vector_store.py repeats `upsert`, `query`,
    `delete` and `count`, and the same members model both;
  - Pinecone: argument validation, the item list, result assembly and delete.
- **Go gateway** (`gateway_stores.dfy`, `rate_limit.dfy`):
  - the JSON-lines and Postgres metadata stores' `Get`;
  - the Redis-backed fixed-window counter;
  - `rateLimit` and `GetSimilarClaims`, and the `RateLimit` and `Auth` middlewares.

How the external parts are modelled:

- **Python exceptions and Go errors** are `Result`/`Option` values.
- **Objects updated in place are classes**: the dict store, the Postgres table, the FAISS
  index and the counter store. Each method's contract states its new state as a function of
  the old one.
- **Loops are methods with invariants**, each proved against a specification function.
- **External services become parameters**:
  - SHA-256, L2 normalisation and FAISS search are function-typed parameters or fields;
  - the Euclidean norm, the database's date input and the vector search service likewise;
  - the Pinecone service is a ghost log of the calls made to it;
  - a Redis outage is a boolean per call.
- **JSON** is a parsed value (`Json.Json`), not text.

## Model

| member | source | states |
|---|---|---|
| ClaimIngestionDataset.FirstFailure | ingestion/Datasets/claim_ingestion_dataset.py:35-36 | the position of the first row whose transform raises: every earlier row transforms, and that row fails |
| ClaimIngestionDataset.Batches | ingestion/Datasets/claim_ingestion_dataset.py:29-47 | the batches in order concatenate to the triples of the rows transformed before the first failure; with `batch_size >= 1` every batch is non-empty and all but the last are full; on failure the partial buffer is lost (all yielded batches are full); with `batch_size < 1` the equality test never fires, so there is one final batch, or none on failure |
| ClaimIngestionDataset.FullRunLength | ingestion/Datasets/claim_ingestion_dataset.py:42-44 | a run of full batches holds exactly `batches * n` triples |
| ClaimIngestionDataset.ChunkedBounds | ingestion/Datasets/claim_ingestion_dataset.py:42-47 | `(c - 1) * n < m <= c * n` for `c` batches holding `m` triples |
| ClaimIngestionDataset.BatchCount | ingestion/Datasets/claim_ingestion_dataset.py:42-47 | the number of batches is `ceil(m / n)` |
| ClaimIngestionDataset.BatchesCount | ingestion/Datasets/claim_ingestion_dataset.py:29-47 | a stream of `m` rows that all transform yields `(m + n - 1) / n` batches |
| PolitifactIngestionDataset.Strip | ingestion/Datasets/politifact_ingestion_dataset.py:23 | `str.strip()`: the result is a contiguous slice, everything cut off is whitespace, and the result neither starts nor ends with whitespace |
| PolitifactIngestionDataset.StripFixed | ingestion/Datasets/politifact_ingestion_dataset.py:23 | a string with no surrounding whitespace is left as it is |
| PolitifactIngestionDataset.StripIdempotent | ingestion/Datasets/politifact_ingestion_dataset.py:23 | stripping twice is stripping once |
| PolitifactIngestionDataset.TransformRow | ingestion/Datasets/politifact_ingestion_dataset.py:22-41 | succeeds exactly on rows with a string statement, a string link and the five copied keys; each failure raises the error of the first failing step: TypeError for a non-dict row, KeyError or AttributeError for the statement, KeyError or TypeError for the link, then KeyError for the first missing copied key in the dict literal's order; the record has exactly nine keys, uid = sha256(strip(statement) + link), the stripped statement, `source = "politifact"`, and the other fields copied verbatim |
| PolitifactIngestionDataset.FirstMissing | ingestion/Datasets/politifact_ingestion_dataset.py:29-39 | none exactly when every key is present; otherwise a missing key with every key before it present |
| PolitifactIngestionDataset.MakeRecord | ingestion/Datasets/politifact_ingestion_dataset.py:29-39 | the dict literal: its nine keys and the value under each |
| PolitifactIngestionDataset.RecordHasNoFactcheckDate | ingestion/Datasets/politifact_ingestion_dataset.py:29-39 | the record never has `factcheck_date`, and its uid is a 64-character lower-case hex digest |
| PolitifactIngestionDataset.UidDeterministic | ingestion/Datasets/politifact_ingestion_dataset.py:25-27 | rows with the same stripped statement and link get the same uid, whatever their other fields |
| PolitifactIngestionDataset.UidIgnoresBoundary | ingestion/Datasets/politifact_ingestion_dataset.py:25-27 | the hash input has no separator: ("ab", "c") and ("a", "bc") get the same uid |
| PolitifactIngestionDataset.UnpackTriple | ingestion/Datasets/claim_ingestion_dataset.py:36 | `a, b, c = items` succeeds exactly for three items, otherwise "too many" / "not enough values to unpack" |
| PolitifactIngestionDataset.BatchesAsWritten | ingestion/Datasets/claim_ingestion_dataset.py:36 | over the Politifact transform as written nothing is ever yielded, and a well-formed first row raises "too many values to unpack (expected 3)" |
| PolitifactIngestionDataset.Batches | ingestion/Datasets/claim_ingestion_dataset.py:29-47 | with the documented `(uid, statement, record)` triple, the run fails exactly when some row is malformed; otherwise the concatenated batches are each row's uid, stripped statement and record, in stream order; batches are chunked |
| InMemoryMetadata.Put | ingestion/MetadataStores/in_memory_metadata.py:11-12 | `d[uid] = v` keeps the dict well formed: a new key is appended to the insertion order, an existing key keeps its place |
| InMemoryMetadata.PutThenLookup | ingestion/MetadataStores/in_memory_metadata.py:11-15 | after `upsert(uid, v)`, `get(uid)` is `v`, every other uid reads as before, and the insertion order only grows by a new uid |
| InMemoryMetadata.PutIdempotent | ingestion/MetadataStores/in_memory_metadata.py:11-12 | upserting the same pair twice is upserting it once |
| InMemoryMetadata.InMemoryMetadataStore.constructor | ingestion/MetadataStores/in_memory_metadata.py:8-9 | the store starts empty |
| InMemoryMetadata.InMemoryMetadataStore.Upsert | ingestion/MetadataStores/in_memory_metadata_store.py:11-12 | the new state is `Put(old state, uid, v)` |
| InMemoryMetadata.InMemoryMetadataStore.Get | verification-agent/MetadataStores/in_memory_metadata.py:13-14 | None exactly for a uid never upserted, otherwise the stored value |
| InMemoryMetadata.InMemoryMetadataStore.BulkGet | ingestion/MetadataStores/in_memory_metadata.py:17-18 | the keys are exactly the requested uids that `get` finds, each with its stored value; an empty request gives an empty dict |
| InMemoryMetadata.InMemoryMetadataStore.Exists | ingestion/MetadataStores/in_memory_metadata.py:20-21 | true exactly when `get` finds the uid |
| MetadataJsonl.ParseWrapped | ingestion/MetadataStores/in_memory_metadata.py:52-53 | in the model a line loads exactly when it is an object with `metadata` and a string `uid`, and contributes `(uid, metadata)`; a missing `metadata` is reported first; a list or object uid raises TypeError as in Python, and a number, boolean or null uid is refused (see Left out) |
| MetadataJsonl.ParseFlat | ingestion/MetadataStores/in_memory_metadata_store.py:28 | in the model a flat line loads exactly when it is an object with a string `uid`, and contributes the whole record under that uid; a number, boolean or null uid is refused (see Left out) |
| MetadataJsonl.LoadWith | ingestion/MetadataStores/in_memory_metadata.py:47-55 | loading lines from an empty store yields a well-formed dict, or the first line's error |
| MetadataJsonl.LoadNeedsEveryLine | ingestion/MetadataStores/in_memory_metadata.py:51-53 | a load succeeds only if every line can be read |
| MetadataJsonl.LoadAll | ingestion/MetadataStores/in_memory_metadata.py:51-53 | lines that carry a dict's entries in insertion order load back to that dict, order included |
| MetadataJsonl.LoadStops | ingestion/MetadataStores/in_memory_metadata.py:51-53 | the first unreadable line decides the error of the whole load |
| MetadataJsonl.SaveWrapped | ingestion/MetadataStores/in_memory_metadata.py:25-40 | one `{uid, metadata}` line per entry, in insertion order |
| MetadataJsonl.RoundTripWrapped | ingestion/MetadataStores/in_memory_metadata.py:25-55 | loading what `save` wrote gives back the same dict, with the same insertion order |
| MetadataJsonl.Load | ingestion/MetadataStores/in_memory_metadata.py:42-55 | a fresh store whose contents are the lines applied in order, or the first line's error and no store |
| MetadataJsonl.SaveThenLoadWrapped | ingestion/MetadataStores/in_memory_metadata.py:25-55 | save then load gives a store with the same contents |
| MetadataJsonl.SaveFlat | ingestion/MetadataStores/in_memory_metadata_store.py:25-36 | each stored record written as it is, in insertion order |
| MetadataJsonl.FlatReloadFailsAsWritten | ingestion/MetadataStores/in_memory_metadata_store.py:39-52 | reloading the flat file with the loop as written fails once one record lacks `metadata` |
| MetadataJsonl.FlatReloadCounterexample | ingestion/MetadataStores/in_memory_metadata_store.py:50 | the record `{"uid": "a", "statement": "s"}` reloads as KeyError('metadata') |
| MetadataJsonl.RoundTripFlat | ingestion/MetadataStores/in_memory_metadata_store.py:25-36 | with the documented flat load, save then load gives back the dict when every record carries its own uid |
| MetadataJsonl.LoadFlat | ingestion/MetadataStores/in_memory_metadata_store.py:39-52 | the flat load keyed by each record's uid: contents are the lines applied in order |
| MetadataJsonl.LoadWrapped | ingestion/MetadataStores/in_memory_metadata.py:42-55 | the wrapped load: contents are the lines applied in order |
| MetadataJsonl.SaveThenLoadFlat | ingestion/MetadataStores/in_memory_metadata_store.py:25-52 | with the documented flat load, save then load restores the store's contents |
| IsoDate.Padded | ingestion/MetadataStores/postgres_metadata_store.py:26 | zero-padded decimal of fixed width whose digits read back as the number |
| IsoDate.PaddedOfValue | ingestion/MetadataStores/postgres_metadata_store.py:26 | a digit string is the padded form of its own value |
| IsoDate.IsoFormat | ingestion/MetadataStores/postgres_metadata_store.py:26-31 | `date.isoformat()` is ten characters long |
| IsoDate.ParseIsoDate | ingestion/MetadataStores/postgres_metadata_store.py:26-31 | only valid calendar dates are accepted |
| IsoDate.ParseFormat | ingestion/MetadataStores/postgres_metadata_store.py:26-31 | parsing the ISO text of a date gives the date back |
| IsoDate.FormatParse | ingestion/MetadataStores/postgres_metadata_store.py:26-31 | formatting a parsed date gives the text back: the accepted form is canonical |
| PostgresMetadata.TextColumn | ingestion/MetadataStores/postgres_metadata_store.py:74-81 | `metadata.get(col)`: a missing key binds NULL, a string binds itself |
| PostgresMetadata.ToRow | ingestion/MetadataStores/postgres_metadata_store.py:38-83 | text holding NUL is refused before anything is sent: a NUL in the uid raises on `uid`; otherwise a NUL in a column's text raises on the first such column in INSERT order; with no NUL the row is exactly the server's binding of the nine parameters |
| PostgresMetadata.FirstNul | ingestion/MetadataStores/postgres_metadata_store.py:74-81 | none exactly when no listed column holds text with NUL; otherwise a column holding NUL with none before it |
| PostgresMetadata.FirstNulAgrees | ingestion/MetadataStores/postgres_metadata_store.py:74-81 | records with NUL in the same columns are refused at the same column |
| PostgresMetadata.NulRefused | ingestion/MetadataStores/postgres_metadata_store.py:38-83 | a NUL in the uid or in any column's text makes the upsert raise, whatever the other values, naming one of the nine columns |
| PostgresMetadata.DateColumn | ingestion/MetadataStores/postgres_metadata_store.py:77 | a missing date key binds NULL |
| PostgresMetadata.Assemble | ingestion/MetadataStores/postgres_metadata_store.py:72-82 | the row is written exactly when every column binds, holding each bound value |
| PostgresMetadata.FetchRow | ingestion/MetadataStores/postgres_metadata_store.py:16-33 | fetching a row succeeds exactly when each stored date is in years 1-9999 (a `datetime.date`), and then gives `_row_to_record`'s record; otherwise the error names a date column |
| PostgresMetadata.RowToRecord | ingestion/MetadataStores/postgres_metadata_store.py:16-33 | for a fetchable row, the record has exactly the nine columns (no `source`), with the row's uid |
| PostgresMetadata.ExtraKeysIgnored | ingestion/MetadataStores/postgres_metadata_store.py:72-82 | keys outside the nine columns have no effect on the stored row |
| PostgresMetadata.TextRoundTrip | ingestion/MetadataStores/postgres_metadata_store.py:16-33 | when the stored row fetches, a stored text field reads back as given, and a missing or null one as None |
| PostgresMetadata.DateRoundTrip | ingestion/MetadataStores/postgres_metadata_store.py:26-31 | when the stored row fetches, an ISO date string reads back as the same string, and a missing or null date as None |
| PostgresMetadata.IsoDatesFetchable | ingestion/MetadataStores/postgres_metadata_store.py:26-31 | a record whose two dates are ISO 8601 text, null or missing is stored as a row that fetches without error |
| PostgresMetadata.IsoDateStored | ingestion/MetadataStores/postgres_metadata_store.py:77 | an ISO 8601 date string binds to an in-range date |
| PostgresMetadata.OutOfRangeDateStoredButNotFetched | ingestion/MetadataStores/postgres_metadata_store.py:86-97 | when the server accepts date text past year 9999 (and neither it nor the uid holds NUL), the record is stored but fetching its row raises on `statement_date` |
| PostgresMetadata.PostgresMetadataStore.constructor | ingestion/MetadataStores/postgres_metadata_store.py:11-12 | an empty table with the given date input conversion |
| PostgresMetadata.PostgresMetadataStore.Upsert | ingestion/MetadataStores/postgres_metadata_store.py:36-84 | succeeds exactly when no parameter holds NUL and every column binds; then the row under uid is replaced whole (last write wins, NULLs overwrite), otherwise the table is unchanged and the error is the binding's |
| PostgresMetadata.PostgresMetadataStore.Get | ingestion/MetadataStores/postgres_metadata_store.py:86-97 | a uid holding NUL raises before any query (psycopg refuses the parameter); `Ok(None)` exactly when the uid has no NUL and no row has it; an error exactly when the uid holds NUL or its row holds an unfetchable date; otherwise a nine-key record with that uid |
| PostgresMetadata.PostgresMetadataStore.BulkGet | ingestion/MetadataStores/postgres_metadata_store.py:99-118 | no query for an empty request or one with a uid holding NUL, which raises; an error exactly when `get` of some requested uid raises, and then it is such a uid's error; otherwise the keys are exactly the requested uids with a row, each with the record `get` returns |
| PostgresMetadata.PostgresMetadataStore.Exists | ingestion/MetadataStores/postgres_metadata_store.py:120-131 | raises exactly when the uid holds NUL, with `get`'s error; otherwise true exactly when a row has the uid, even one `get` cannot fetch: `get` does not answer `Ok(None)` |
| IngestionDriver.AppliedSucceeds | verification-agent/ingest.py:41-42 | an upsert loop succeeds exactly when no step raises |
| IngestionDriver.AppliedKeeps | verification-agent/ingest.py:41-42 | after a successful loop the table holds the old uids plus those written, and rows no step wrote are untouched |
| IngestionDriver.AppliedLastWins | verification-agent/ingest.py:41-42 | after a successful loop each uid holds the row of its last write |
| IngestionDriver.AppliedRaisedStays | ingestion/ingest.py:61-65 | once a step raises, the later records change nothing |
| IngestionDriver.AppliedAgree | ingestion/ingest.py:61-65 | two loops whose steps write the same rows and fail at the same places leave the same table |
| IngestionDriver.Subscript | ingestion/ingest.py:63 | `record["uid"]`: a dict gives its value or KeyError, a list raises TypeError |
| IngestionDriver.AsIterated | ingestion/ingest.py:55-61 | iterating a batch visits its three lists, never a record dict |
| IngestionDriver.RecordStep | ingestion/ingest.py:61-65 | a record that is written is a dict whose `uid` is that string, and the row is the store's binding of the record |
| IngestionDriver.UpsertRecords | ingestion/ingest.py:61-65 | the written loop's result and table are `Applied` over the records' steps |
| IngestionDriver.AsWrittenRaises | ingestion/ingest.py:55-65 | on every batch `batches` yields, the written loop raises TypeError on the first item and writes nothing |
| IngestionDriver.Zip | verification-agent/ingest.py:41 | `zip` pairs elements up to the shorter length |
| IngestionDriver.PairStep | verification-agent/ingest.py:42 | one upsert writes `(uid, row)` exactly when the record binds, otherwise raises the binding's error |
| IngestionDriver.UpsertBatch | verification-agent/ingest.py:36-42 | the corrected loop's result and table are `Applied` over the steps of `zip(ids, metadatas)` |
| IngestionDriver.StepAgrees | ingestion/ingest.py:62-65 | a record carrying its own uid is written by the written loop exactly as by the corrected one |
| IngestionDriver.CorrectedMatchesIntended | ingestion/ingest.py:55-69 | when every record carries its id as `uid`, the corrected loop leaves the table the written loop would leave if handed a list of record dicts, and fails in the same cases |
| Faiss.Resolve | ingestion/VectorStores/faiss_vector_store.py:43-51 | succeeds exactly when every position is -1 or indexes `id_map`; returns one id per non-(-1) position, all from `id_map` |
| Faiss.ResolveErrExtends | ingestion/VectorStores/faiss_vector_store.py:46-49 | an IndexError at any position fails the whole query |
| Faiss.ResolveAppend | ingestion/VectorStores/faiss_vector_store.py:46-51 | results keep search order: resolving a concatenation concatenates the results |
| Faiss.ShortIdMapFails | ingestion/VectorStores/faiss_vector_store.py:49 | a position with no id behind it raises IndexError |
| Faiss.FaissVectorStore.constructor | ingestion/VectorStores/faiss_vector_store.py:12-15 | an empty, aligned index |
| Faiss.FaissVectorStore.Load | ingestion/VectorStores/faiss_vector_store.py:80-95 | the index and id map are restored verbatim, with `dim` from the index and no length check |
| Faiss.FaissVectorStore.Count | ingestion/VectorStores/faiss_vector_store.py:58-59 | `ntotal`, equal to `len(id_map)` when aligned |
| Faiss.FaissVectorStore.Upsert | ingestion/VectorStores/faiss_vector_store.py:19-32 | succeeds exactly when there are as many vectors as ids and at least one; a length mismatch (or an empty batch) raises with no change; otherwise the normalised vectors and the ids are appended in order, without de-duplication; count grows by `len(ids)`; alignment is preserved |
| Faiss.FaissVectorStore.Query | ingestion/VectorStores/faiss_vector_store.py:34-51 | the search's positions resolved through `id_map`, -1 skipped, in search order; at most `k` ids, all from `id_map`; never fails on an aligned store |
| Faiss.FaissVectorStore.Delete | ingestion/VectorStores/faiss_vector_store.py:53-56 | always raises NotImplementedError; nothing changes |
| Faiss.FaissVectorStore.Save | ingestion/VectorStores/faiss_vector_store.py:63-78 | the saved pair is the current index (with its dimension) and id map |
| Faiss.SaveThenLoad | ingestion/VectorStores/faiss_vector_store.py:63-95 | save then load restores the index, id map and dimension, and alignment |
| Pinecone.NormalizeRow | ingestion/VectorStores/pinecone_vector_store.py:86-90 | a zero-norm row is unchanged; otherwise each component times the norm is the original |
| Pinecone.ZeroRowUnchanged | ingestion/VectorStores/pinecone_vector_store.py:88-90 | an all-zero row is left as it is |
| Pinecone.BuildItems | ingestion/VectorStores/pinecone_vector_store.py:40-48 | one item per id, in order: item i has `ids[i]`, the normalised `vectors[i]`, and `metadatas[i]` exactly when metadatas is truthy |
| Pinecone.CollectMatches | ingestion/VectorStores/pinecone_vector_store.py:69-74 | equal-length id and score lists in the order of the matches |
| Pinecone.PineconeVectorStore.constructor | ingestion/VectorStores/pinecone_vector_store.py:13-21 | no remote call yet |
| Pinecone.PineconeVectorStore.Upsert | ingestion/VectorStores/pinecone_vector_store.py:25-50 | ids/vectors and metadatas/ids mismatches raise before any remote call; success exactly for aligned, rectangular, non-empty input, with one remote upsert of the built items |
| Pinecone.PineconeVectorStore.Query | ingestion/VectorStores/pinecone_vector_store.py:52-74 | one remote query with the normalised vector, `top_k = k` and the filters; ids and scores follow the matches |
| Pinecone.PineconeVectorStore.Delete | ingestion/VectorStores/pinecone_vector_store.py:76-78 | a remote delete exactly when ids is non-empty |
| GatewayMetadata.Present | api-gateway/stores/metadata-store.go:75-79 | the known requested uids, in request order; no more than were requested |
| GatewayMetadata.Lookup | api-gateway/stores/metadata-store.go:73-81 | the result is the stored claim of each known requested uid, in request order |
| GatewayMetadata.PresentAppend | api-gateway/stores/metadata-store.go:75-79 | the known uids of a concatenated request concatenate |
| GatewayMetadata.LookupAppend | api-gateway/stores/metadata-store.go:75-79 | request order is kept: looking up a concatenation concatenates the answers |
| GatewayMetadata.LookupDuplicate | api-gateway/stores/metadata-store.go:75-79 | a uid requested twice comes back twice |
| GatewayMetadata.KeyedLookup | api-gateway/stores/postgres_metadata_store.go:70-83 | in a map keyed by uid, the i-th claim returned carries the i-th known uid requested |
| GatewayMetadata.LookupAgree | api-gateway/stores/postgres_metadata_store.go:78-85 | two maps that agree on the requested uids answer alike |
| GatewayMetadata.CollectKnown | api-gateway/stores/metadata-store.go:73-81 | the append loop computes `Lookup` |
| GatewayMetadata.LoadLines | api-gateway/stores/metadata-store.go:43-56 | succeeds exactly when every line decodes with a non-empty uid, else the first failing line's error; the map is keyed by uid, holds every line's uid and only loaded claims, and a line with no later line for its uid is the one kept |
| GatewayMetadata.LoadErrExtends | api-gateway/stores/metadata-store.go:46-53 | the first failing line decides the load |
| GatewayMetadata.InMemoryMetadataStore.constructor | api-gateway/stores/metadata-store.go:62-65 | the store holds the given path and data |
| GatewayMetadata.InMemoryMetadataStore.Get | api-gateway/stores/metadata-store.go:68-82 | the stored claims of the requested uids in request order, unknown skipped; never longer than the request; empty for an empty request |
| GatewayMetadata.NewInMemoryMetadataStore | api-gateway/stores/metadata-store.go:32-66 | open, decode, uid and scanner errors give no store; otherwise the store holds exactly the loaded map |
| GatewayMetadata.ByUid | api-gateway/stores/postgres_metadata_store.go:54-71 | the scan succeeds exactly when every row scans; the map is keyed by uid, holds every row's uid and only scanned rows |
| GatewayMetadata.ByUidErrExtends | api-gateway/stores/postgres_metadata_store.go:56-68 | the first scan error decides the result |
| GatewayMetadata.ScanRows | api-gateway/stores/postgres_metadata_store.go:52-71 | the scan loop computes `ByUid` |
| GatewayMetadata.PostgresGet | api-gateway/stores/postgres_metadata_store.go:17-86 | an empty request returns nil without querying; succeeds exactly when the request is empty or the query, every row scan and the cursor succeed; query, scan and cursor errors return nil and the error; otherwise the claims of the known requested uids in request order |
| GatewayMetadata.PostgresAgreesWithTable | api-gateway/stores/postgres_metadata_store.go:38-85 | when the database returns the stored rows of the requested uids, Postgres `Get` answers as the in-memory `Get` over the same table |
| RateLimitStore.IncrSpec | api-gateway/stores/rate-limit-store.go:25-27 | INCR: a missing key becomes 1, otherwise the count grows by one; overflow past the largest int64 fails with no change; the TTL set is untouched |
| RateLimitStore.ExpireSpec | api-gateway/stores/rate-limit-store.go:29-31 | EXPIRE gives an existing key a time to live and changes no count |
| RateLimitStore.ResetSpec | api-gateway/stores/rate-limit-store.go:29-31 | at the end of a window a key with a TTL disappears; a key without one stays |
| RateLimitStore.CounterStore.constructor | api-gateway/stores/rate-limit-store.go:21-23 | no counters |
| RateLimitStore.CounterStore.Incr | api-gateway/stores/rate-limit-store.go:25-27 | outage: error, no change; otherwise the new state and count are IncrSpec's |
| RateLimitStore.CounterStore.Expire | api-gateway/stores/rate-limit-store.go:29-31 | outage: error, no change; otherwise the state is ExpireSpec's |
| RateLimitStore.CounterStore.WindowReset | api-gateway/stores/rate-limit-store.go:29-31 | the state after the TTL of `key` runs out |
| GatewayHandlers.RateLimitSpec | api-gateway/handlers/handlers.go:21-45 | Incr errors are returned with no change; Expire is called exactly when the count is 1 and its failure returned; otherwise refusal exactly when the count is above the limit |
| GatewayHandlers.RateLimit | api-gateway/handlers/handlers.go:21-45 | the error and new counters are RateLimitSpec's |
| GatewayHandlers.HandlerRunCount | api-gateway/handlers/handlers.go:28-38 | from a fresh key, `n` requests leave the count at `n` with a TTL set |
| GatewayHandlers.FreshKeyAdmitsLimit | api-gateway/handlers/handlers.go:40-44 | from a fresh key the first `limit` requests pass and request `limit + 1` is refused |
| GatewayHandlers.ExpireFailureLocksOut | api-gateway/handlers/handlers.go:33-38 | a key left without a TTL keeps none, survives window resets, and once at the limit is refused on every request |
| GatewayHandlers.SearchKey | api-gateway/handlers/handlers.go:52 | the key is "rl:search:" followed by the address |
| GatewayHandlers.SearchKeyInjective | api-gateway/handlers/handlers.go:52 | distinct addresses never share a search counter |
| GatewayHandlers.CollectUids | api-gateway/handlers/handlers.go:85-88 | one uid per search result, in result order |
| GatewayHandlers.GetSimilarClaims | api-gateway/handlers/handlers.go:47-101 | rate limited on "rl:search:" + address with limit 5, any refusal is 429; an empty `q` is 400 with no search; otherwise one search for `(q, 1)`; a search error is 502, a metadata error 500, otherwise 200 with the store's claims for the results' uids |
| GatewayMiddleware.ClaimsKey | api-gateway/Middleware/middlewares.go:42 | the key is "rate:claims:" followed by the address |
| GatewayMiddleware.ClaimsKeyInjective | api-gateway/Middleware/middlewares.go:42 | distinct addresses never share a counter |
| GatewayMiddleware.AdmitSpec | api-gateway/Middleware/middlewares.go:45-63 | an Incr error is 503 with no change; Expire only when the count is 1, its failure ignored; 429 exactly when the count is above 3; otherwise pass on |
| GatewayMiddleware.RateLimit | api-gateway/Middleware/middlewares.go:31-66 | status and new counters are AdmitSpec's, and `next` is called exactly once when nothing is answered, never otherwise |
| GatewayMiddleware.AdmitRunCount | api-gateway/Middleware/middlewares.go:45-54 | from a fresh key, `n` requests leave the count at `n` with a TTL set |
| GatewayMiddleware.FreshKeyAdmitsThree | api-gateway/Middleware/middlewares.go:57-63 | from a fresh key three requests pass and the fourth gets 429 |
| GatewayMiddleware.Auth | api-gateway/Middleware/middlewares.go:69-75 | every request goes to `next` unchanged |
| RateLimitKeys.KeysDisjoint | api-gateway/Middleware/middlewares.go:42 | a search counter key and a claims counter key never collide |

## Left out

- Of ingestion/ingest.py and verification-agent/ingest.py only the metadata upsert loop is modelled (`IngestionDriver`). Environment variables, the OpenAI embedding call, the vector upsert, `max_batches` and the sanity check are orchestration over external services.
- IngestionDriver.RecordStep: a `record["uid"]` that is not a string is refused (`UidNotText`). psycopg would pass it on to the server, whose handling of it is not modelled.
- retrieval_service/server.py is not part of this model (a gRPC servicer and an OpenAI call).
- api-gateway/main.go, api-gateway/db/postgres.go and ingestion/config.py are not part of this model (wiring, connection pools, configuration).
- The chrome-extension files are not part of this model (browser UI with mock data).
- `_row_iterator`, and every other file or directory read and write, is not modelled: lines arrive as parsed JSON values.
- JSON text encoding and decoding are not modelled, so a line that is not JSON at all is not modelled either.
- SHA-256 is a parameter, not an implementation. `str.encode()` failing on lone surrogates is not modelled.
- Floating point is not modelled:
  - FAISS vectors are an opaque type, and `normalize_L2` and the inner-product search are the store's functions;
  - Pinecone rows are exact reals, so float32 rounding is absent;
  - similarity scores are not compared;
  - metadata numbers are integers (`Json.JNum` holds an `int`), so a float-valued field is outside the model.
- Faiss.FaissVectorStore.Query: FAISS's own promise that positions come back relevance-descending is not restated. The model proves only that results keep the search's order (`ResolveAppend`).
- Faiss.FaissVectorStore.Query: `k < 1` is modelled as an error, taken from FAISS's requirement of a positive `k`.
- FAISS dimension checks on `add` and `search` (`d == self.d`) are not modelled.
- The `VectorStore` abstract base class is stated as shared predicates (`VectorStoreContract`) that the backends' contracts use, not as a Dafny trait.
  - FAISS ignores `metadatas`, so it does not enforce their alignment.
  - The interface's default `save` is a no-op with nothing to state.
- Pinecone `count` is left out: it reads remote index statistics.
- Pinecone.PineconeVectorStore.Query: the matches are the service's response, passed in as given. At most `k` of them holds only if the service honours `top_k`.
- Pinecone remote failures and index existence are not modelled.
- MetadataJsonl.ParseWrapped / MetadataJsonl.ParseFlat: a non-string hashable uid (a number, boolean or null) is refused with `NonStringUid`, because the model's store keys are strings. Python stores the record under that key.
- PostgresMetadata.PostgresMetadataStore.BulkGet: when several requested rows hold dates that cannot be fetched, the model says only that the error is one of theirs. `fetchall` raises on the first in result order, which `uid = ANY(%s)` leaves unspecified.
- PostgresMetadata.FetchError: psycopg's exact exception and message for an out-of-range date or a uid holding NUL are not modelled, only the column it arises in.
- GatewayMetadata.ByUid / GatewayMetadata.PostgresGet: how Go's `rows.Scan` converts columns is not modelled; each row arrives already scanned, or as its scan error. In particular, a NULL in a column scanned into a plain `string` field (every column but `factcheck_date`) fails the scan in Go, and the text a DATE column gives `StatementDate` and `FactCheckDate` is whatever the driver renders; neither is derived here.
- PostgresMetadata.TextColumn: a JSON number, boolean or list bound to a text column is treated as an error. PostgreSQL would store the value's text form for numbers and booleans.
- PostgresMetadata.ToRow: psycopg's exact message for text holding NUL is not modelled, only the column it names. A NUL inside a list value is not looked for. A value psycopg cannot adapt at all, such as a dict, is reported after the NUL check here, while psycopg would raise on whichever comes first in parameter order.
- PostgresMetadata.PostgresMetadataStore.constructor: the server's date input conversion is a parameter. Only its acceptance of ISO 8601 text is assumed (`AcceptsIsoDates`), not each DateStyle.
- Transaction state of the Python Postgres connection is not modelled. A failed statement leaves psycopg's transaction aborted, so later calls on the same connection fail until a rollback.
- InMemoryMetadata.InMemoryMetadataStore.Get: a stored JSON null reads as `Some(null)`. Python's `dict.get` returns `None` for it, the same as for a missing key.
- InMemoryMetadata.InMemoryMetadataStore.BulkGet: the result is a map, so the request order of the returned dict's keys is not kept.
- The Go `Logging` middleware is left out (timing and printing).
- The `CreateCommunityClaim`, `Health` and `Login` handlers are left out: each writes a fixed status.
- Request contexts and timeouts are not modelled. A search timeout reaches the handler as a search error.
- The HTTP response text and the logging in `GetSimilarClaims` are not modelled.
- Rate limiting:
  - window lengths and the clock are replaced by the explicit `WindowReset` step;
  - concurrent requests are not interleaved;
  - `SetVar` and `GetVar` are unused and left out.
- The Go scanner's line-length limit appears only as the final scanner error `scanErr`.
- FAISS `load` does not compare `index.ntotal` with `len(id_map)` (ingestion/VectorStores/faiss_vector_store.py:80-95). `FaissVectorStore.Load` therefore does not require alignment, and `Faiss.ShortIdMapFails` shows the query that then raises.
- FAISS `upsert` appends without de-duplication, so re-ingesting a batch grows `count()` by `len(ids)`, as `FaissVectorStore.Upsert` proves.

## Findings

| source | as written | input that shows it | evidently intended | confidence | as-written member | corrected member |
|---|---|---|---|---|---|---|
| ingestion/MetadataStores/in_memory_metadata_store.py:50 | `save` writes each record flat (lines 34-36), but `load` reads `record["metadata"]` | a store holding `{"uid": "a", "statement": "s"}` under "a": reloading its file raises KeyError('metadata') | `load` stores each flat record under its own `uid`, so save then load restores the store | not executed | MetadataJsonl.FlatReloadFailsAsWritten | MetadataJsonl.RoundTripFlat |
| ingestion/Datasets/claim_ingestion_dataset.py:36 | `_id, text, metadata = self._transform_row(row)`, while the Politifact transform returns a nine-key dict (politifact_ingestion_dataset.py:41) | any well-formed Politifact row: unpacking raises ValueError "too many values to unpack (expected 3)", so no batch is ever yielded | the transform returns `(uid, statement, record)`, as the base class documents (claim_ingestion_dataset.py:24-25) and verification-agent/ingest.py:36 consumes; ingestion/ingest.py:55-69 instead expects each batch to be a list of records (next row) | not executed | PolitifactIngestionDataset.BatchesAsWritten | PolitifactIngestionDataset.Batches |
| ingestion/ingest.py:55-69 | `for record in records: metadata_store.upsert(uid=record["uid"], metadata=record)`, while each item `batches` yields is the tuple `(ids, texts, metadatas)` | any batch, e.g. `(["a"], ["s"], [{"uid": "a"}])`: the first `record` is the list `["a"]`, and `["a"]["uid"]` raises TypeError "list indices must be integers or slices, not str" before any row is written | unpack the tuple and upsert each pair of `zip(ids, metadatas)`, as verification-agent/ingest.py:36-42 does | not executed | IngestionDriver.AsWrittenRaises | IngestionDriver.UpsertBatch |
