/** `VectorStore.add_chunks` of `vector_store.py`: the four parallel lists
    of ids, embeddings, texts and flattened metadata built from the
    chunks, and their hand-over to the collection in batches of 100. The
    ChromaDB collection itself is outside the model: the store records the
    batches it was given. */
module VectorStore {
  import opened Text
  import opened Chunking

  /** A chunk as `add_chunks` receives it: a processor chunk's text and
      metadata with its embedding attached. */
  datatype EmbeddedChunk = EmbeddedChunk(text: string, embedding: seq<real>, metadata: Metadata)

  /** The four parallel lists handed to `collection.add`. */
  datatype Records = Records(ids: seq<string>, embeddings: seq<seq<real>>, documents: seq<string>, metadatas: seq<Metadata>)
  {
    /** The four lists have one entry per record. */
    predicate Parallel()
    {
      |embeddings| == |ids| && |documents| == |ids| && |metadatas| == |ids|
    }

    function Size(): nat
    {
      |ids|
    }

    /** Entries `lo` up to `hi` of each list: `ids[lo:hi]` and so on. */
    function Slice(lo: nat, hi: nat): (r: Records)
      requires Parallel() && lo <= hi <= Size()
      ensures r.Parallel() && r.Size() == hi - lo
    {
      Records(ids[lo..hi], embeddings[lo..hi], documents[lo..hi], metadatas[lo..hi])
    }

    /** Each list of this followed by the same list of `other`. */
    function Append(other: Records): Records
    {
      Records(ids + other.ids, embeddings + other.embeddings, documents + other.documents, metadatas + other.metadatas)
    }
  }

  const NoRecords := Records([], [], [], [])

  /** The largest number of records one `collection.add` call receives. */
  const BatchSize := 100

  /** `f"id_{i}"`: the id of the chunk at position `i` of the call. */
  function Id(i: nat): string
  {
    "id_" + NatToString(i)
  }

  /** Ids of different positions differ. */
  lemma IdsDistinct(i: nat, j: nat)
    ensures Id(i) == Id(j) <==> i == j
  {
    if Id(i) == Id(j) {
      assert Id(i)[3..] == NatToString(i);
      assert Id(j)[3..] == NatToString(j);
      NatToStringInjective(i, j);
    }
  }

  /** `metadata.get(key, default)`. */
  function Get(m: Metadata, key: string, default: Value): Value
  {
    if key in m then m[key] else default
  }

  /** The flattened metadata stored for the chunk at position `i`: its
      source, chunk index and chunk size, defaulting to "unknown", `i` and
      the length of its text. */
  function Flatten(c: EmbeddedChunk, i: nat): (m: Metadata)
    ensures m.Keys == {"source", "chunk_index", "chunk_size"}
    ensures m["source"] == (if "source" in c.metadata then c.metadata["source"] else Str("unknown"))
    ensures m["chunk_index"] == (if "chunk_index" in c.metadata then c.metadata["chunk_index"] else Int(i))
    ensures m["chunk_size"] == (if "chunk_size" in c.metadata then c.metadata["chunk_size"] else Int(|c.text|))
  {
    map["source" := Get(c.metadata, "source", Str("unknown")),
        "chunk_index" := Get(c.metadata, "chunk_index", Int(i)),
        "chunk_size" := Get(c.metadata, "chunk_size", Int(|c.text|))]
  }

  /** The records prepared for a list of chunks: entry `i` of every list
      comes from chunk `i`. */
  function Prepared(chunks: seq<EmbeddedChunk>): (r: Records)
    ensures r.Parallel() && r.Size() == |chunks|
  {
    var n := |chunks|;
    Records(seq(n, i requires 0 <= i < n => Id(i)),
            seq(n, i requires 0 <= i < n => chunks[i].embedding),
            seq(n, i requires 0 <= i < n => chunks[i].text),
            seq(n, i requires 0 <= i < n => Flatten(chunks[i], i)))
  }

  /** The prepared lists are parallel, one entry per chunk; the ids are
      pairwise distinct; each metadata has exactly the three keys, each
      the chunk's own value or, when the chunk lacks it, "unknown", the
      chunk's position and its text's length; the embedding and text of
      entry `i` are those of chunk `i`. */
  lemma PreparedSpec(chunks: seq<EmbeddedChunk>)
    ensures var r := Prepared(chunks);
      && r.Parallel() && r.Size() == |chunks|
      && (forall i, j :: 0 <= i < j < |chunks| ==> r.ids[i] != r.ids[j])
      && (forall i :: 0 <= i < |chunks| ==> r.metadatas[i].Keys == {"source", "chunk_index", "chunk_size"})
      && (forall i :: 0 <= i < |chunks| ==>
            r.metadatas[i]["source"] == Get(chunks[i].metadata, "source", Str("unknown"))
            && r.metadatas[i]["chunk_index"] == Get(chunks[i].metadata, "chunk_index", Int(i))
            && r.metadatas[i]["chunk_size"] == Get(chunks[i].metadata, "chunk_size", Int(|chunks[i].text|)))
      && (forall i :: 0 <= i < |chunks| ==>
            r.embeddings[i] == chunks[i].embedding && r.documents[i] == chunks[i].text)
  {
    var r := Prepared(chunks);
    forall i, j | 0 <= i < j < |chunks| ensures r.ids[i] != r.ids[j] {
      IdsDistinct(i, j);
    }
  }

  /** For a chunk made by a processor, no default applies to its index or
      size: the stored chunk index is the chunk's own number (not its
      position in the call), the size is its length, and the source is the
      document's when it has one. */
  lemma ProcessorChunkMetadata(c: Chunk, embedding: seq<real>, i: nat)
    ensures var m := Flatten(EmbeddedChunk(c.text, embedding, c.Metadata()), i);
      && m["chunk_index"] == Int(c.chunkId)
      && m["chunk_size"] == Int(|c.text|)
      && m["source"] == (if "source" in c.inherited then c.inherited["source"] else Str("unknown"))
  {
  }

  /** The first loop of `add_chunks`: fill the four lists, one entry per
      chunk. */
  method PrepareRecords(chunks: seq<EmbeddedChunk>) returns (r: Records)
    ensures r == Prepared(chunks)
  {
    var ids: seq<string> := [];
    var embeddings: seq<seq<real>> := [];
    var documents: seq<string> := [];
    var metadatas: seq<Metadata> := [];
    for i := 0 to |chunks|
      invariant |ids| == i && |embeddings| == i && |documents| == i && |metadatas| == i
      invariant forall j :: 0 <= j < i ==>
        ids[j] == Id(j) && embeddings[j] == chunks[j].embedding
        && documents[j] == chunks[j].text && metadatas[j] == Flatten(chunks[j], j)
    {
      var chunk := chunks[i];
      ids := ids + [Id(i)];
      embeddings := embeddings + [chunk.embedding];
      documents := documents + [chunk.text];
      metadatas := metadatas + [Flatten(chunk, i)];
    }
    r := Records(ids, embeddings, documents, metadatas);
    var p := Prepared(chunks);
    assert ids == p.ids && embeddings == p.embeddings;
    assert documents == p.documents && metadatas == p.metadatas;
  }

  /** The batch that starts at record `start`: `[start, min(start + 100, n))`. */
  function BatchAt(r: Records, start: nat): (b: Records)
    requires r.Parallel() && start < r.Size()
    ensures b.Parallel() && 1 <= b.Size() <= BatchSize
  {
    r.Slice(start, Min(start + BatchSize, r.Size()))
  }

  /** The batches from offset `i` on: the batch at `i`, then the batches
      from `i + 100`. */
  function BatchesFrom(r: Records, i: nat): seq<Records>
    requires r.Parallel()
    decreases r.Size() - i
  {
    if i >= r.Size() then [] else [BatchAt(r, i)] + BatchesFrom(r, i + BatchSize)
  }

  /** The batches of `for i in range(0, len(ids), 100)`. */
  function Batches(r: Records): seq<Records>
    requires r.Parallel()
  {
    BatchesFrom(r, 0)
  }

  /** All batches put back together, in order. */
  function Joined(bs: seq<Records>): Records
  {
    if bs == [] then NoRecords else bs[0].Append(Joined(bs[1..]))
  }

  /** There are `ceil((n - i) / 100)` batches from offset `i`. */
  lemma {:induction false} BatchesFromCount(r: Records, i: nat)
    requires r.Parallel()
    ensures |BatchesFrom(r, i)| == (if i >= r.Size() then 0 else (r.Size() - i + BatchSize - 1) / BatchSize)
    decreases r.Size() - i
  {
    if i < r.Size() {
      BatchesFromCount(r, i + BatchSize);
    }
  }

  /** Batch `j` from offset `i` is the batch at `i + 100 j`, which is
      before the end. */
  lemma {:induction false} BatchIndex(r: Records, i: nat, j: nat)
    requires r.Parallel() && j < |BatchesFrom(r, i)|
    ensures i + 100 * j < r.Size() && BatchesFrom(r, i)[j] == BatchAt(r, i + 100 * j)
    decreases j
  {
    if j > 0 {
      BatchIndex(r, i + BatchSize, j - 1);
    }
  }

  /** The batches partition the records: each holds between 1 and 100 of
      them, batch `j` starts at record `100 j`, there are `ceil(n / 100)`
      batches (none for no chunks), and put back together they give every
      list exactly. */
  lemma BatchesSpec(r: Records)
    requires r.Parallel()
    ensures var bs := Batches(r);
      && |bs| == (r.Size() + BatchSize - 1) / BatchSize
      && (r.Size() == 0 <==> bs == [])
      && (forall j :: 0 <= j < |bs| ==> 1 <= bs[j].Size() <= BatchSize)
      && (forall j :: 0 <= j < |bs| ==>
            100 * j < r.Size() && bs[j] == r.Slice(100 * j, Min(100 * j + BatchSize, r.Size())))
      && Joined(bs) == r
  {
    BatchesFromCount(r, 0);
    forall j | 0 <= j < |Batches(r)|
      ensures 100 * j < r.Size() && Batches(r)[j] == r.Slice(100 * j, Min(100 * j + BatchSize, r.Size()))
    {
      BatchIndex(r, 0, j);
    }
    BatchesJoin(r, 0);
    assert r.Slice(0, r.Size()) == r;
  }

  /** Putting back the batches from offset `i` gives the records from `i`
      on. */
  lemma {:induction false} BatchesJoin(r: Records, i: nat)
    requires r.Parallel() && i <= r.Size()
    ensures Joined(BatchesFrom(r, i)) == r.Slice(i, r.Size())
    decreases r.Size() - i
  {
    if i < r.Size() {
      var m := Min(i + BatchSize, r.Size());
      var bs := BatchesFrom(r, i);
      BatchesJoin(r, m);
      if m == r.Size() {
        assert BatchesFrom(r, i + BatchSize) == [];
        assert Joined(bs[1..]) == NoRecords;
      } else {
        assert bs[1..] == BatchesFrom(r, m);
      }
      SliceAppend(r, i, m, r.Size());
    } else {
      assert r.Slice(i, r.Size()) == NoRecords;
    }
  }

  /** Adjacent slices append to the slice they span. */
  lemma SliceAppend(r: Records, lo: nat, mid: nat, hi: nat)
    requires r.Parallel() && lo <= mid <= hi <= r.Size()
    ensures r.Slice(lo, mid).Append(r.Slice(mid, hi)) == r.Slice(lo, hi)
  {
    assert r.ids[lo..mid] + r.ids[mid..hi] == r.ids[lo..hi];
    assert r.embeddings[lo..mid] + r.embeddings[mid..hi] == r.embeddings[lo..hi];
    assert r.documents[lo..mid] + r.documents[mid..hi] == r.documents[lo..hi];
    assert r.metadatas[lo..mid] + r.metadatas[mid..hi] == r.metadatas[lo..hi];
  }

  /** The store. Only its collection's intake is modelled: `sent` holds,
      in order, the batches handed to `collection.add` since this store was
      built or last cleared. */
  class VectorStore {
    const collectionName: string
    var sent: seq<Records>

    /** A store over a collection that has received nothing yet. */
    constructor (collectionName: string)
      ensures this.collectionName == collectionName && sent == []
    {
      this.collectionName := collectionName;
      sent := [];
    }

    /** `add_chunks`: prepare the records, then hand them over in batches
        of 100. */
    method AddChunks(chunks: seq<EmbeddedChunk>)
      modifies this
      ensures sent == old(sent) + Batches(Prepared(chunks))
    {
      var records := PrepareRecords(chunks);
      var i: nat := 0;
      while i < records.Size()
        invariant old(sent) + Batches(records) == sent + BatchesFrom(records, i)
        decreases records.Size() - i
      {
        var batchEnd := Min(i + BatchSize, records.Size());
        sent := sent + [records.Slice(i, batchEnd)];
        assert records.Slice(i, batchEnd) == BatchAt(records, i);
        i := i + BatchSize;
      }
    }

    /** `clear`: the collection is replaced by a new, empty one. */
    method Clear()
      modifies this
      ensures sent == []
    {
      sent := [];
    }
  }

  /** What one `add_chunks` call hands over, put back together, is the
      prepared records of its chunks, ids restarting at `id_0`. */
  lemma AddedRecords(chunks: seq<EmbeddedChunk>)
    ensures Joined(Batches(Prepared(chunks))) == Prepared(chunks)
    ensures |chunks| > 0 ==> Joined(Batches(Prepared(chunks))).ids[0] == Id(0)
  {
    BatchesSpec(Prepared(chunks));
  }
}
