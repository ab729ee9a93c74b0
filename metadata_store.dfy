/**
 * The Python in-memory metadata store: a dict from uid to metadata. Its `upsert`, `get`,
 * `bulk_get` and `exists` behave the same in ingestion/MetadataStores/
 * in_memory_metadata_store.py, ingestion/MetadataStores/in_memory_metadata.py and
 * verification-agent/MetadataStores/in_memory_metadata.py, so one class models all three;
 * the two persistence formats are in module MetadataJsonl.
 *
 * A Python dict remembers the order in which keys were first inserted, and `save` writes the
 * entries in that order, so the state is the value map together with that key order.
 */
module InMemoryMetadata {
  import opened Wrappers
  import opened Json

  /** The dict's state: values by uid, and the uids in first-insertion order. */
  datatype Snapshot = Snapshot(order: seq<string>, data: map<string, Json>)
  {
    /** Every key appears once in the order, and the order lists exactly the keys. */
    ghost predicate Valid() {
      && (forall i, j :: 0 <= i < j < |order| ==> order[i] != order[j])
      && (forall u :: u in data <==> u in order)
    }
  }

  const Empty: Snapshot := Snapshot([], map[])

  /** `d[uid] = v`: overwrite in place when the key exists, otherwise insert it last. */
  function Put(s: Snapshot, uid: string, v: Json): (t: Snapshot)
    requires s.Valid()
    ensures t.Valid()
  {
    if uid in s.data then Snapshot(s.order, s.data[uid := v])
    else Snapshot(s.order + [uid], s.data[uid := v])
  }

  /** `d.get(uid)`. */
  function Lookup(s: Snapshot, uid: string): Option<Json> {
    if uid in s.data then Some(s.data[uid]) else None
  }

  /**
   * After `upsert(uid, v)`, `get(uid)` is `v`, every other uid reads as before, and the key
   * order changes only by appending a uid that was absent.
   */
  lemma PutThenLookup(s: Snapshot, uid: string, v: Json)
    requires s.Valid()
    ensures Lookup(Put(s, uid, v), uid) == Some(v)
    ensures forall w :: w != uid ==> Lookup(Put(s, uid, v), w) == Lookup(s, w)
    ensures uid in s.order ==> Put(s, uid, v).order == s.order
    ensures uid !in s.order ==> Put(s, uid, v).order == s.order + [uid]
  {
  }

  /** Upserting the same pair twice leaves the state of upserting it once. */
  lemma PutIdempotent(s: Snapshot, uid: string, v: Json)
    requires s.Valid()
    ensures Put(Put(s, uid, v), uid, v) == Put(s, uid, v)
  {
  }

  /** The dict held by one store object. */
  class InMemoryMetadataStore {
    var order: seq<string>
    var data: map<string, Json>

    ghost predicate Valid()
      reads this
    {
      Snapshot(order, data).Valid()
    }

    function Contents(): Snapshot
      reads this
    {
      Snapshot(order, data)
    }

    constructor ()
      ensures Valid() && Contents() == Empty
    {
      order, data := [], map[];
    }

    /** `upsert(uid, metadata)`: `self.data[uid] = metadata`. */
    method Upsert(uid: string, metadata: Json)
      requires Valid()
      modifies this
      ensures Valid()
      ensures Contents() == Put(old(Contents()), uid, metadata)
    {
      if uid !in data {
        order := order + [uid];
      }
      data := data[uid := metadata];
    }

    /** `get(uid)`: None exactly when the uid was never upserted. */
    function Get(uid: string): (r: Option<Json>)
      reads this
      requires Valid()
      ensures r.None? <==> uid !in order
      ensures r.Some? ==> r == Lookup(Contents(), uid)
    {
      if uid in data then Some(data[uid]) else None
    }

    /**
     * `bulk_get(uids)`: the requested uids that are present, each with its stored value;
     * unknown uids are omitted, and an empty request gives an empty map.
     */
    function BulkGet(uids: seq<string>): (r: map<string, Json>)
      reads this
      requires Valid()
      ensures forall u :: u in r <==> u in uids && Get(u).Some?
      ensures forall u <- r :: Get(u) == Some(r[u])
      ensures uids == [] ==> r == map[]
    {
      map u | u in uids && u in data :: data[u]
    }

    /** `exists(uid)`: whether `get(uid)` would find a value. */
    function Exists(uid: string): (b: bool)
      reads this
      requires Valid()
      ensures b <==> uid in order
      ensures b <==> Get(uid).Some?
    {
      uid in data
    }
  }
}
