/**
 * The backend-agnostic `VectorStore` interface (ingestion/VectorStores/vector_store.py). Its
 * obligations are stated once, as predicates, and each backend below proves which of them
 * its `upsert` and `query` enforce.
 */
module VectorStoreContract {
  import opened Wrappers

  /** `upsert`: vectors align 1:1 with ids, and metadatas, when given, align with ids. */
  predicate UpsertAligned<V, M>(ids: seq<string>, vectors: seq<V>, metadatas: Option<seq<M>>) {
    |ids| == |vectors| && (metadatas.Some? ==> |metadatas.value| == |ids|)
  }

  /** `query`: at most `k` ids come back. */
  predicate WithinTopK(result: seq<string>, k: int) {
    |result| <= k
  }
}

/**
 * `FaissVectorStore` (ingestion/VectorStores/faiss_vector_store.py; the class in
 * verification-agent/VectorStores/faiss_vector_store.py has the same upsert, query, delete and
 * count). The flat inner-product index is the sequence of stored (normalised) vectors; position
 * `i` of the index belongs to `id_map[i]`. Vectors are an opaque type: L2 normalisation and
 * the nearest-neighbour search are the class's `normalize` and `search` functions.
 */
module Faiss {
  import opened Wrappers
  import opened VectorStoreContract

  datatype StoreError =
    | LengthMismatch    // ValueError: ids and vectors must have same length
    | EmptyBatch        // normalize_L2 on the 1-D array `np.asarray([])`
    | InvalidK          // a search for fewer than one neighbour
    | IndexError        // id_map[i] with i outside id_map
    | NotImplemented    // delete

  /**
   * What FAISS promises of `index.search(vec, k)` on a flat index: `k` positions, each
   * either -1 (no neighbour) or a position of the index.
   */
  ghost predicate SearchContract<V(!new)>(search: (seq<V>, V, int) -> seq<int>) {
    forall index, q, k :: k >= 1 ==>
      |search(index, q, k)| == k && forall p <- search(index, q, k) :: -1 <= p < |index|
  }

  /**
   * The ids the loop over `indices[0]` collects: -1 is skipped and every other position is
   * read through `id_map` with Python indexing (negative positions count from the end); the
   * first position outside `id_map` raises IndexError.
   */
  function Resolve(positions: seq<int>, idMap: seq<string>): (r: Result<seq<string>, StoreError>)
    ensures r.Ok? <==> forall p <- positions :: p == -1 || -|idMap| <= p < |idMap|
    ensures r.Err? ==> r.error == IndexError
    ensures r.Ok? ==> |r.value| == |positions| - multiset(positions)[-1]
    ensures r.Ok? ==> forall u <- r.value :: u in idMap
  {
    if positions == [] then Ok([])
    else
      var init, p := positions[..|positions| - 1], positions[|positions| - 1];
      assert positions == init + [p];
      match Resolve(init, idMap)
      case Err(e) => assert forall x <- init :: x in positions; Err(e)
      case Ok(prefix) =>
        if p == -1 then Ok(prefix)
        else if 0 <= p < |idMap| then Ok(prefix + [idMap[p]])
        else if -|idMap| <= p < -1 then Ok(prefix + [idMap[|idMap| + p]])
        else assert p in positions; Err(IndexError)
  }

  /** One more position: the result so far, extended by that position's id or error. */
  lemma ResolveSnoc(init: seq<int>, p: int, idMap: seq<string>)
    ensures Resolve(init + [p], idMap) ==
      match Resolve(init, idMap)
      case Err(e) => Err(e)
      case Ok(prefix) =>
        if p == -1 then Ok(prefix)
        else if 0 <= p < |idMap| then Ok(prefix + [idMap[p]])
        else if -|idMap| <= p < -1 then Ok(prefix + [idMap[|idMap| + p]])
        else Err(IndexError)
  {
    assert (init + [p])[..|init + [p]| - 1] == init;
  }

  /** A failure in a prefix of the positions fails the whole loop. */
  lemma {:induction false} ResolveErrExtends(positions: seq<int>, i: nat, idMap: seq<string>)
    requires i <= |positions|
    requires Resolve(positions[..i], idMap).Err?
    ensures Resolve(positions, idMap).Err?
  {
    if i < |positions| {
      var init := positions[..|positions| - 1];
      assert init[..i] == positions[..i];
      ResolveErrExtends(init, i, idMap);
    } else {
      assert positions[..i] == positions;
    }
  }

  /** Results keep the order of the search: resolving a concatenation concatenates the results. */
  lemma {:induction false} ResolveAppend(a: seq<int>, b: seq<int>, idMap: seq<string>)
    requires Resolve(a, idMap).Ok? && Resolve(b, idMap).Ok?
    ensures Resolve(a + b, idMap) == Ok(Resolve(a, idMap).value + Resolve(b, idMap).value)
  {
    if b != [] {
      var init, p := b[..|b| - 1], b[|b| - 1];
      assert (a + b)[..|a + b| - 1] == a + init;
      assert (a + b)[|a + b| - 1] == p;
      assert b == init + [p];
      assert Resolve(init, idMap).Ok?;
      ResolveAppend(a, init, idMap);
      var ra, ri := Resolve(a, idMap).value, Resolve(init, idMap).value;
      if p == -1 {
        assert Resolve(b, idMap).value == ri;
      } else {
        assert Resolve(b, idMap).value == ri + [Resolve(b, idMap).value[|ri|]];
        assert ra + ri + [Resolve(b, idMap).value[|ri|]] == ra + Resolve(b, idMap).value;
      }
    } else {
      assert a + b == a;
      assert Resolve(a, idMap).value + Resolve(b, idMap).value == Resolve(a, idMap).value;
    }
  }

  /** A position with no id behind it, as after loading an id map shorter than the index. */
  lemma ShortIdMapFails(idMap: seq<string>)
    ensures Resolve([|idMap|], idMap) == Err(IndexError)
  {
  }

  /** The two files `save` writes: `index.faiss` (with its dimension) and `ids.json`. */
  datatype Saved<V> = Saved(dim: int, index: seq<V>, ids: seq<string>)

  class FaissVectorStore<V(!new)> {
    var dim: int
    /** The stored vectors, `index.ntotal` of them. */
    var index: seq<V>
    /** `id_map`: position to uid. */
    var idMap: seq<string>
    const normalize: V -> V
    const search: (seq<V>, V, int) -> seq<int>

    ghost predicate Valid()
      reads this
    {
      SearchContract(search)
    }

    /** `index.ntotal == len(id_map)`: every position of the index has its uid. */
    ghost predicate Aligned()
      reads this
    {
      |index| == |idMap|
    }

    /** `FaissVectorStore(dim)`: an empty index. */
    constructor (dim: int, normalize: V -> V, search: (seq<V>, V, int) -> seq<int>)
      requires SearchContract(search)
      ensures Valid() && Aligned()
      ensures this.dim == dim && index == [] && idMap == []
      ensures this.normalize == normalize && this.search == search
    {
      this.dim := dim;
      index, idMap := [], [];
      this.normalize, this.search := normalize, search;
    }

    /** `load(path)`: the saved index and id map, taken as they are, with no length check. */
    constructor Load(saved: Saved<V>, normalize: V -> V, search: (seq<V>, V, int) -> seq<int>)
      requires SearchContract(search)
      ensures Valid()
      ensures dim == saved.dim && index == saved.index && idMap == saved.ids
      ensures this.normalize == normalize && this.search == search
    {
      dim, index, idMap := saved.dim, saved.index, saved.ids;
      this.normalize, this.search := normalize, search;
    }

    /** `count()`: `index.ntotal`. */
    function Count(): (n: nat)
      reads this
      ensures Aligned() ==> n == |idMap|
    {
      |index|
    }

    /**
     * `upsert(ids, vectors, metadatas)`: a length mismatch raises before anything changes;
     * otherwise the normalised vectors are added and the ids appended in order, without
     * de-duplication. Metadatas are ignored.
     */
    method Upsert<M>(ids: seq<string>, vectors: seq<V>, metadatas: Option<seq<M>>)
      returns (r: Result<(), StoreError>)
      requires Valid()
      modifies this
      ensures Valid()
      ensures r.Ok? <==> |ids| == |vectors| && ids != []
      ensures |ids| != |vectors| ==> r == Err(LengthMismatch)
      ensures |ids| == |vectors| == 0 ==> r == Err(EmptyBatch)
      ensures r.Err? ==> index == old(index) && idMap == old(idMap)
      ensures r.Ok? ==>
        && index == old(index) + seq(|vectors|, i requires 0 <= i < |vectors| => normalize(vectors[i]))
        && idMap == old(idMap) + ids
        && Count() == old(Count()) + |ids|
      ensures old(Aligned()) ==> Aligned()
      ensures dim == old(dim)
    {
      if |ids| != |vectors| {
        return Err(LengthMismatch);
      }
      if vectors == [] {
        return Err(EmptyBatch);
      }
      index := index + seq(|vectors|, i requires 0 <= i < |vectors| => normalize(vectors[i]));
      idMap := idMap + ids;
      r := Ok(());
    }

    /**
     * `query(vector, k)`: the ids at the positions the search returns, -1 skipped, in search
     * order. Filters are ignored and no scores are returned.
     */
    method Query(vector: V, k: int) returns (r: Result<seq<string>, StoreError>)
      requires Valid()
      ensures k < 1 ==> r == Err(InvalidK)
      ensures k >= 1 ==> r == Resolve(search(index, normalize(vector), k), idMap)
      ensures r.Ok? ==> WithinTopK(r.value, k) && forall u <- r.value :: u in idMap
      ensures Aligned() && k >= 1 ==> r.Ok?
    {
      if k < 1 {
        return Err(InvalidK);
      }
      var positions := search(index, normalize(vector), k);
      var results: seq<string> := [];
      for i := 0 to |positions|
        invariant Resolve(positions[..i], idMap) == Ok(results)
      {
        var p := positions[i];
        assert positions[..i + 1] == positions[..i] + [p];
        ResolveSnoc(positions[..i], p, idMap);
        if p == -1 {
          continue;
        }
        if 0 <= p < |idMap| {
          results := results + [idMap[p]];
        } else if -|idMap| <= p < -1 {
          results := results + [idMap[|idMap| + p]];
        } else {
          ResolveErrExtends(positions, i + 1, idMap);
          return Err(IndexError);
        }
      }
      assert positions[..|positions|] == positions;
      r := Ok(results);
    }

    /** `delete(ids)`: always raises; nothing changes. */
    method Delete(ids: seq<string>) returns (r: Result<(), StoreError>)
      ensures r == Err(NotImplemented)
    {
      r := Err(NotImplemented);
    }

    /** `save(path)`: the index (with its dimension) and the id map, as written to disk. */
    method Save() returns (saved: Saved<V>)
      ensures saved.index == index && saved.ids == idMap && saved.dim == dim
    {
      saved := Saved(dim, index, idMap);
    }
  }

  /** Saving and loading gives back a store with the same index, id map and dimension. */
  method SaveThenLoad<V(!new)>(store: FaissVectorStore<V>) returns (loaded: FaissVectorStore<V>)
    requires store.Valid()
    ensures loaded.Valid()
    ensures loaded.index == store.index && loaded.idMap == store.idMap && loaded.dim == store.dim
    ensures store.Aligned() ==> loaded.Aligned()
  {
    var saved := store.Save();
    loaded := new FaissVectorStore.Load(saved, store.normalize, store.search);
  }
}

/**
 * `PineconeVectorStore` (ingestion/VectorStores/pinecone_vector_store.py). The remote index is
 * not modelled; each call the store makes to it is appended to a ghost log. Vectors are rows of
 * reals, and the Euclidean norm is the class's `norm` function.
 */
module Pinecone {
  import opened Wrappers
  import opened Json
  import opened VectorStoreContract

  datatype PineconeError =
    | IdsVectorsMismatch    // ValueError: ids and vectors must have same length
    | MetadatasMismatch     // ValueError: metadatas must align with ids
    | Inhomogeneous         // np.asarray of rows of different lengths
    | AxisError             // np.linalg.norm(axis=1) of the 1-D array `np.asarray([])`

  /** One upsert item: `{"id", "values"}` plus `"metadata"` when metadatas were given. */
  datatype Item = Item(id: string, values: seq<real>, metadata: Option<Record>)

  /** One entry of a query response. */
  datatype Match = Match(id: string, score: real)

  datatype RemoteCall =
    | UpsertCall(items: seq<Item>)
    | QueryCall(vector: seq<real>, topK: int, filter: Option<Record>)
    | DeleteCall(ids: seq<string>)

  /** What is asked of the norm: non-negative, and zero exactly for the zero row. */
  ghost predicate NormContract(norm: seq<real> -> real) {
    forall row :: norm(row) >= 0.0 && (norm(row) == 0.0 <==> forall x <- row :: x == 0.0)
  }

  /** `_normalize` on one row: divide by its norm, with a zero norm replaced by 1. */
  function NormalizeRow(row: seq<real>, norm: real): (r: seq<real>)
    ensures |r| == |row|
    ensures norm == 0.0 ==> r == row
    ensures norm != 0.0 ==> forall i :: 0 <= i < |r| ==> r[i] * norm == row[i]
  {
    var d := if norm == 0.0 then 1.0 else norm;
    seq(|row|, i requires 0 <= i < |row| => row[i] / d)
  }

  /** A zero row is left as it is. */
  lemma ZeroRowUnchanged(row: seq<real>, norm: seq<real> -> real)
    requires NormContract(norm)
    requires forall x <- row :: x == 0.0
    ensures NormalizeRow(row, norm(row)) == row
  {
  }

  /** `np.asarray(vectors)` makes a 2-D array only when every row has the same length. */
  predicate Rectangular(vectors: seq<seq<real>>) {
    forall i, j :: 0 <= i < |vectors| && 0 <= j < |vectors| ==> |vectors[i]| == |vectors[j]|
  }

  /** `if metadatas:` is false for None and for an empty list. */
  predicate Truthy(metadatas: Option<seq<Record>>) {
    metadatas.Some? && |metadatas.value| > 0
  }

  /** The item list of one upsert: one item per id, in order. */
  ghost predicate ItemsFor(items: seq<Item>, ids: seq<string>, vectors: seq<seq<real>>,
                           metadatas: Option<seq<Record>>, norm: seq<real> -> real)
  {
    && |items| == |ids| == |vectors|
    && (Truthy(metadatas) ==> |metadatas.value| == |ids|)
    && forall i :: 0 <= i < |items| ==>
      && items[i].id == ids[i]
      && items[i].values == NormalizeRow(vectors[i], norm(vectors[i]))
      && items[i].metadata == (if Truthy(metadatas) then Some(metadatas.value[i]) else None)
  }

  /** The loop over `enumerate(ids)` that builds the items. */
  method BuildItems(ids: seq<string>, vectors: seq<seq<real>>, metadatas: Option<seq<Record>>,
                    norm: seq<real> -> real)
    returns (items: seq<Item>)
    requires UpsertAligned(ids, vectors, metadatas)
    ensures ItemsFor(items, ids, vectors, metadatas, norm)
  {
    items := [];
    for i := 0 to |ids|
      invariant |items| == i
      invariant forall j :: 0 <= j < i ==>
        && items[j].id == ids[j]
        && items[j].values == NormalizeRow(vectors[j], norm(vectors[j]))
        && items[j].metadata == (if Truthy(metadatas) then Some(metadatas.value[j]) else None)
    {
      var metadata := if Truthy(metadatas) then Some(metadatas.value[i]) else None;
      items := items + [Item(ids[i], NormalizeRow(vectors[i], norm(vectors[i])), metadata)];
    }
  }

  /** Reading the ids and scores out of the response's matches, in order. */
  method CollectMatches(matches: seq<Match>) returns (ids: seq<string>, scores: seq<real>)
    ensures |ids| == |scores| == |matches|
    ensures forall i :: 0 <= i < |matches| ==> ids[i] == matches[i].id && scores[i] == matches[i].score
  {
    ids, scores := [], [];
    for i := 0 to |matches|
      invariant |ids| == |scores| == i
      invariant forall j :: 0 <= j < i ==> ids[j] == matches[j].id && scores[j] == matches[j].score
    {
      ids, scores := ids + [matches[i].id], scores + [matches[i].score];
    }
  }

  class PineconeVectorStore {
    /** Every call made to the remote index, oldest first. */
    ghost var calls: seq<RemoteCall>
    const norm: seq<real> -> real

    constructor (norm: seq<real> -> real)
      ensures calls == [] && this.norm == norm
    {
      calls := [];
      this.norm := norm;
    }

    /**
     * `upsert(ids, vectors, metadatas)`: the two alignment checks, then the array conversion
     * and normalisation, all before any remote call; on success exactly one remote upsert
     * carrying one item per id.
     */
    method Upsert(ids: seq<string>, vectors: seq<seq<real>>, metadatas: Option<seq<Record>>)
      returns (r: Result<(), PineconeError>)
      modifies this
      ensures |ids| != |vectors| ==> r == Err(IdsVectorsMismatch)
      ensures |ids| == |vectors| && metadatas.Some? && |metadatas.value| != |ids| ==>
        r == Err(MetadatasMismatch)
      ensures r.Ok? <==> UpsertAligned(ids, vectors, metadatas) && Rectangular(vectors) && ids != []
      ensures r.Err? ==> calls == old(calls)
      ensures r.Ok? ==>
        && |calls| == |old(calls)| + 1 && calls[..|old(calls)|] == old(calls)
        && calls[|old(calls)|].UpsertCall?
        && ItemsFor(calls[|old(calls)|].items, ids, vectors, metadatas, norm)
    {
      if |ids| != |vectors| {
        return Err(IdsVectorsMismatch);
      }
      if metadatas.Some? && |metadatas.value| != |ids| {
        return Err(MetadatasMismatch);
      }
      if !Rectangular(vectors) {
        return Err(Inhomogeneous);
      }
      if vectors == [] {
        return Err(AxisError);
      }
      var items := BuildItems(ids, vectors, metadatas, norm);
      calls := calls + [UpsertCall(items)];
      r := Ok(());
    }

    /**
     * `query(vector, k, filters)`: one remote query with the normalised vector, `top_k = k` and
     * the filters passed through; `matches` is the service's response.
     */
    method Query(vector: seq<real>, k: int, filters: Option<Record>, matches: seq<Match>)
      returns (ids: seq<string>, scores: seq<real>)
      modifies this
      ensures calls == old(calls) + [QueryCall(NormalizeRow(vector, norm(vector)), k, filters)]
      ensures |ids| == |scores| == |matches|
      ensures forall i :: 0 <= i < |matches| ==> ids[i] == matches[i].id && scores[i] == matches[i].score
      ensures |matches| <= k ==> WithinTopK(ids, k)
    {
      calls := calls + [QueryCall(NormalizeRow(vector, norm(vector)), k, filters)];
      ids, scores := CollectMatches(matches);
    }

    /** `delete(ids)`: a remote delete only when there is something to delete. */
    method Delete(ids: seq<string>)
      modifies this
      ensures ids != [] ==> calls == old(calls) + [DeleteCall(ids)]
      ensures ids == [] ==> calls == old(calls)
    {
      if ids != [] {
        calls := calls + [DeleteCall(ids)];
      }
    }
  }
}
