/**
 * `ClaimIngestionDataset.batches`: a streamed sequence of raw rows is transformed row by row
 * into `(id, text, metadata)` triples that are buffered in three parallel lists and yielded as
 * fixed-size batches, plus one final partial batch.
 *
 * The generator is modelled by a method that returns every batch it would yield, in order,
 * together with the exception (if any) that ends the stream. A row whose transformation raises
 * stops the generator: the consumer has received the full batches yielded before that row, and
 * the partly filled buffer is lost.
 */
module ClaimIngestionDataset {
  import opened Wrappers

  /** What `_transform_row` hands to `batches`: `(id, text, metadata)`. */
  datatype Entry<M> = Entry(id: string, text: string, metadata: M)

  /** One yielded batch: the three parallel lists `(ids, texts, metadatas)`. */
  datatype Batch<M> = Batch(ids: seq<string>, texts: seq<string>, metadatas: seq<M>)
  {
    predicate Aligned() {
      |ids| == |texts| == |metadatas|
    }

    function Size(): nat {
      |ids|
    }

    /** The batch read position by position as triples. */
    function Entries(): (es: seq<Entry<M>>)
      requires Aligned()
      ensures |es| == Size()
      ensures forall i :: 0 <= i < |es| ==>
        es[i].id == ids[i] && es[i].text == texts[i] && es[i].metadata == metadatas[i]
    {
      seq(|ids|, i requires 0 <= i < |ids| => Entry(ids[i], texts[i], metadatas[i]))
    }
  }

  ghost predicate AllAligned<M>(bs: seq<Batch<M>>) {
    forall b <- bs :: b.Aligned()
  }

  /** All batches concatenated in yield order, read as triples. */
  ghost function Flatten<M>(bs: seq<Batch<M>>): seq<Entry<M>>
    requires AllAligned(bs)
  {
    if bs == [] then [] else Flatten(bs[..|bs| - 1]) + bs[|bs| - 1].Entries()
  }

  /**
   * The position of the first row whose transformation raises, or the number of rows when
   * none does.
   */
  function FirstFailure<R, M, E>(rows: seq<R>, transform: R -> Result<Entry<M>, E>): (j: nat)
    ensures j <= |rows|
    ensures forall i :: 0 <= i < j ==> transform(rows[i]).Ok?
    ensures j < |rows| ==> transform(rows[j]).Err?
  {
    if rows == [] then 0
    else if transform(rows[0]).Err? then 0
    else 1 + FirstFailure(rows[1..], transform)
  }

  /** The triples of the rows that are transformed before the stream stops, in stream order. */
  ghost function Transformed<R, M, E>(rows: seq<R>, transform: R -> Result<Entry<M>, E>): seq<Entry<M>>
  {
    var j := FirstFailure(rows, transform);
    seq(j, i requires 0 <= i < j => transform(rows[i]).value)
  }

  /**
   * The shape every run of `batches` yields when `n >= 1`: no batch is empty, every batch
   * but the last holds exactly `n` triples, and the last holds at most `n`.
   */
  ghost predicate Chunked<M>(bs: seq<Batch<M>>, n: int) {
    && AllAligned(bs)
    && (forall b <- bs :: 0 < b.Size() <= n)
    && (forall i :: 0 <= i < |bs| - 1 ==> bs[i].Size() == n)
  }

  /** `Transformed` is determined by its length and its elements. */
  lemma TransformedIs<R, M, E>(rows: seq<R>, transform: R -> Result<Entry<M>, E>, done: seq<Entry<M>>)
    requires |done| == FirstFailure(rows, transform)
    requires forall k :: 0 <= k < |done| ==> done[k] == transform(rows[k]).value
    ensures Transformed(rows, transform) == done
  {
  }

  lemma FlattenAppend<M>(bs: seq<Batch<M>>, b: Batch<M>)
    requires AllAligned(bs) && b.Aligned()
    ensures AllAligned(bs + [b])
    ensures Flatten(bs + [b]) == Flatten(bs) + b.Entries()
  {
    assert (bs + [b])[..|bs|] == bs;
  }

  lemma BufferAppend<M>(ids: seq<string>, texts: seq<string>, metas: seq<M>, e: Entry<M>)
    requires Batch(ids, texts, metas).Aligned()
    ensures Batch(ids + [e.id], texts + [e.text], metas + [e.metadata]).Entries()
         == Batch(ids, texts, metas).Entries() + [e]
  {
  }

  /** Everything a run of `batches` promises: the batches' sizes and what they deliver. */
  ghost predicate Yields<R, M, E>(rows: seq<R>, transform: R -> Result<Entry<M>, E>, n: int,
                                  batches: seq<Batch<M>>, failure: Option<E>)
  {
    Shaped(n, batches, failure.Some?) && Delivers(rows, transform, n, batches, failure)
  }

  /** The sizes of the yielded batches. */
  ghost predicate Shaped<M>(n: int, batches: seq<Batch<M>>, failed: bool) {
    && AllAligned(batches)
    && (forall b <- batches :: b.Size() > 0)
    && (n >= 1 ==> Chunked(batches, n))
    && (n >= 1 && failed ==> forall b <- batches :: b.Size() == n)
    && (n < 1 ==> |batches| <= 1)
    && (n < 1 && failed ==> batches == [])
  }

  /** What the yielded batches hold and which error ends the run. */
  ghost predicate Delivers<R, M, E>(rows: seq<R>, transform: R -> Result<Entry<M>, E>, n: int,
                                    batches: seq<Batch<M>>, failure: Option<E>)
    requires AllAligned(batches)
  {
    && (var j := FirstFailure(rows, transform);
        failure == if j < |rows| then Some(transform(rows[j]).error) else None)
    && (failure.None? ==> Flatten(batches) == Transformed(rows, transform))
    && (failure.Some? ==> Flatten(batches) <= Transformed(rows, transform))
    && (n >= 1 && failure.Some? ==>
          |Flatten(batches)| <= |Transformed(rows, transform)| < |Flatten(batches)| + n)
  }

  /** The loop's state after `i` rows: yielded batches plus the buffer hold those rows' triples. */
  ghost predicate Buffered<R, M, E>(rows: seq<R>, transform: R -> Result<Entry<M>, E>, n: int, i: int,
                                    batches: seq<Batch<M>>, buffer: Batch<M>)
  {
    && 0 <= i <= |rows|
    && (forall k :: 0 <= k < i ==> transform(rows[k]).Ok?)
    && AllAligned(batches) && buffer.Aligned()
    && |Flatten(batches) + buffer.Entries()| == i
    && (forall k :: 0 <= k < i ==> (Flatten(batches) + buffer.Entries())[k] == transform(rows[k]).value)
    && (forall b <- batches :: b.Size() > 0)
    && (n >= 1 ==> buffer.Size() < n && forall b <- batches :: b.Size() == n)
    && (n < 1 ==> batches == [])
  }

  /** A row that raises ends the run: the buffer is dropped and the error is reported. */
  lemma Stopped<R, M, E>(rows: seq<R>, transform: R -> Result<Entry<M>, E>, n: int, i: int,
                         batches: seq<Batch<M>>, buffer: Batch<M>)
    requires Buffered(rows, transform, n, i, batches, buffer)
    requires i < |rows| && transform(rows[i]).Err?
    ensures Yields(rows, transform, n, batches, Some(transform(rows[i]).error))
  {
    assert FirstFailure(rows, transform) == i;
    TransformedIs(rows, transform, Flatten(batches) + buffer.Entries());
  }

  /** At the end of the stream the non-empty buffer is yielded as the last batch. */
  lemma Finished<R, M, E>(rows: seq<R>, transform: R -> Result<Entry<M>, E>, n: int,
                          batches: seq<Batch<M>>, buffer: Batch<M>)
    requires Buffered(rows, transform, n, |rows|, batches, buffer)
    ensures Yields(rows, transform, n, if buffer.Size() > 0 then batches + [buffer] else batches, None)
  {
    FinalShape(n, batches, buffer);
    assert FirstFailure(rows, transform) == |rows|;
    TransformedIs(rows, transform, Flatten(batches) + buffer.Entries());
    if buffer.Size() > 0 {
      FlattenAppend(batches, buffer);
    } else {
      assert buffer.Entries() == [];
      assert Flatten(batches) + buffer.Entries() == Flatten(batches);
    }
  }

  /** Yielding the non-empty buffer after a run of full batches keeps the run chunked. */
  lemma FinalShape<M>(n: int, batches: seq<Batch<M>>, buffer: Batch<M>)
    requires AllAligned(batches) && buffer.Aligned()
    requires forall b <- batches :: b.Size() > 0
    requires n >= 1 ==> buffer.Size() < n && forall b <- batches :: b.Size() == n
    requires n < 1 ==> batches == []
    ensures Shaped(n, if buffer.Size() > 0 then batches + [buffer] else batches, false)
  {
    if buffer.Size() > 0 {
      var out := batches + [buffer];
      assert forall b <- out :: b in batches || b == buffer;
      if n >= 1 {
        assert forall i :: 0 <= i < |out| - 1 ==> out[i] == batches[i];
      }
    } else if n >= 1 {
      assert forall i :: 0 <= i < |batches| - 1 ==> batches[i] in batches;
    }
  }

  /** One more row that transforms: it joins the buffer, and a full buffer is yielded. */
  lemma Appended<R, M, E>(rows: seq<R>, transform: R -> Result<Entry<M>, E>, n: int, i: int,
                          batches: seq<Batch<M>>, buffer: Batch<M>)
    requires Buffered(rows, transform, n, i, batches, buffer)
    requires i < |rows| && transform(rows[i]).Ok?
    ensures var e := transform(rows[i]).value;
      var grown := Batch(buffer.ids + [e.id], buffer.texts + [e.text], buffer.metadatas + [e.metadata]);
      if grown.Size() == n then Buffered(rows, transform, n, i + 1, batches + [grown], Batch([], [], []))
      else Buffered(rows, transform, n, i + 1, batches, grown)
  {
    var e := transform(rows[i]).value;
    var grown := Batch(buffer.ids + [e.id], buffer.texts + [e.text], buffer.metadatas + [e.metadata]);
    BufferAppend(buffer.ids, buffer.texts, buffer.metadatas, e);
    assert Flatten(batches) + grown.Entries() == (Flatten(batches) + buffer.Entries()) + [e];
    if grown.Size() == n {
      FlattenAppend(batches, grown);
      var empty: Batch<M> := Batch([], [], []);
      assert empty.Entries() == [];
      assert Flatten(batches + [grown]) + empty.Entries() == Flatten(batches) + grown.Entries();
    }
  }

  /**
   * The batching loop. With `batchSize >= 1` every yielded batch is full except possibly the
   * last; with `batchSize < 1` the equality test `len(ids) == batch_size` never fires, so all
   * rows come out as one final batch. The final batch is yielded only when non-empty.
   */
  method Batches<R, M, E>(rows: seq<R>, batchSize: int, transform: R -> Result<Entry<M>, E>)
    returns (batches: seq<Batch<M>>, failure: Option<E>)
    ensures Shaped(batchSize, batches, failure.Some?)
    ensures Delivers(rows, transform, batchSize, batches, failure)
  {
    batches, failure := [], None;
    var ids, texts, metadatas := [], [], [];
    for i := 0 to |rows|
      invariant Buffered(rows, transform, batchSize, i, batches, Batch(ids, texts, metadatas))
    {
      match transform(rows[i]) {
        case Err(e) =>
          Stopped(rows, transform, batchSize, i, batches, Batch(ids, texts, metadatas));
          failure := Some(e);
          return;
        case Ok(entry) =>
          Appended(rows, transform, batchSize, i, batches, Batch(ids, texts, metadatas));
          ids, texts, metadatas := ids + [entry.id], texts + [entry.text], metadatas + [entry.metadata];
          if |ids| == batchSize {
            batches := batches + [Batch(ids, texts, metadatas)];
            ids, texts, metadatas := [], [], [];
          }
      }
    }
    Finished(rows, transform, batchSize, batches, Batch(ids, texts, metadatas));
    if |ids| > 0 {
      batches := batches + [Batch(ids, texts, metadatas)];
    }
  }

  /** A run of full batches holds exactly `n` triples per batch. */
  lemma {:induction false} FullRunLength<M>(bs: seq<Batch<M>>, n: int)
    requires AllAligned(bs) && forall b <- bs :: b.Size() == n
    ensures |Flatten(bs)| == |bs| * n
  {
    if bs != [] {
      var k := |bs| - 1;
      FullRunLength(bs[..k], n);
      assert bs[k] in bs;
      assert Flatten(bs) == Flatten(bs[..k]) + bs[k].Entries();
      assert |Flatten(bs)| == k * n + n;
      assert k * n + n == (k + 1) * n;
    }
  }

  /** The bounds that make the batch count a ceiling: `(c - 1) * n < m <= c * n`. */
  lemma ChunkedBounds<M>(bs: seq<Batch<M>>, n: int)
    requires n >= 1 && Chunked(bs, n)
    ensures (|bs| - 1) * n < |Flatten(bs)| <= |bs| * n
  {
    if bs != [] {
      var init := bs[..|bs| - 1];
      assert forall b <- init :: b.Size() == n by {
        forall i | 0 <= i < |init| ensures init[i].Size() == n {
          assert init[i] == bs[i];
        }
      }
      FullRunLength(init, n);
      var k, s := |init|, bs[|bs| - 1].Size();
      assert |Flatten(bs)| == k * n + s && 0 < s <= n;
      assert (|bs| - 1) * n == k * n;
      assert |bs| * n == k * n + n;
    }
  }

  lemma MulMonotone(a: int, b: int, n: int)
    requires a <= b && n >= 0
    ensures a * n <= b * n
  {
  }

  /** Euclidean division is determined by its bounds. */
  lemma DivFromBounds(x: int, n: int, c: int)
    requires n >= 1 && c * n <= x < c * n + n
    ensures x / n == c
  {
    var q, r := x / n, x % n;
    assert x == q * n + r && 0 <= r < n;
    var d := q - c;
    assert d * n == q * n - c * n;
    if d >= 1 {
      MulMonotone(1, d, n);
    } else if d <= -1 {
      MulMonotone(d, -1, n);
    }
  }

  /** Over `m` triples with batch size `n >= 1`, a chunked run has exactly ceil(m / n) batches. */
  lemma BatchCount<M>(bs: seq<Batch<M>>, n: int)
    requires n >= 1 && Chunked(bs, n)
    ensures |bs| == (|Flatten(bs)| + n - 1) / n
  {
    ChunkedBounds(bs, n);
    DivFromBounds(|Flatten(bs)| + n - 1, n, |bs|);
  }

  /** A stream of rows that all transform yields ceil(m / n) batches. */
  method BatchesCount<R, M, E>(rows: seq<R>, batchSize: int, transform: R -> Result<Entry<M>, E>)
    returns (count: nat)
    requires batchSize >= 1
    requires forall r <- rows :: transform(r).Ok?
    ensures count == (|rows| + batchSize - 1) / batchSize
  {
    var batches, failure := Batches(rows, batchSize, transform);
    assert FirstFailure(rows, transform) == |rows|;
    BatchCount(batches, batchSize);
    count := |batches|;
  }
}
