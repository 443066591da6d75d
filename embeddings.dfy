/**
 * Ingestion and query formatting of `EmbeddingEngine` (src/embeddings.py).
 *
 * The sentence-embedding model and the vector collection are foreign: the model is
 * an oracle `encode` from text to vector, and the collection is represented by the
 * batches handed to `collection.add` and by an oracle `search` that answers a query
 * from those batches. What is modelled is the logic around them: which files are
 * ingested, the ids, texts and metadata built for their chunks, and how the store's
 * column-oriented answer is turned into one record per hit.
 */
module Embeddings {
  import opened Wrappers
  import opened PyStr
  import opened Chunking

  /** An embedding: the model's output, never computed on here. */
  type Vector = seq<real>

  /** The defaults `process_documents` uses when it calls `chunk_text`. */
  const DefaultChunkSize: int := 500
  const DefaultOverlap: int := 50

  /** A directory entry of the docs directory: its file name and (when read) its content. */
  datatype Document = Document(name: string, text: string)

  /** The metadata stored with a chunk: `{"source": filename, "chunk": i}`. */
  datatype ChunkMetadata = ChunkMetadata(source: string, chunk: nat)

  /** The three index-aligned lists built for `collection.add`. */
  datatype Batch = Batch(ids: seq<string>, texts: seq<string>, metadatas: seq<ChunkMetadata>)

  /** One call of `collection.add`. */
  datatype AddCall = AddCall(ids: seq<string>, embeddings: seq<Vector>, metadatas: seq<ChunkMetadata>, documents: seq<string>)

  /** Only names ending in `.txt` are ingested. */
  predicate IsTextFile(d: Document)
  {
    EndsWith(d.name, ".txt")
  }

  /** `doc_files`: the `.txt` entries of the listing, in listing order. */
  function TextFiles(listing: seq<Document>): seq<Document>
  {
    if listing == [] then []
    else TextFiles(listing[..|listing| - 1]) + (if IsTextFile(Last(listing)) then [Last(listing)] else [])
  }

  /** `TextFiles` keeps exactly the `.txt` entries. */
  lemma {:induction false} TextFilesSpec(listing: seq<Document>)
    ensures forall d <- TextFiles(listing) :: IsTextFile(d) && d in listing
    ensures forall d <- listing :: IsTextFile(d) ==> d in TextFiles(listing)
    decreases |listing|
  {
    if listing != [] {
      var init := listing[..|listing| - 1];
      TextFilesSpec(init);
      assert listing == init + [Last(listing)];
    }
  }

  /** `TextFiles` distributes over concatenation, so the listing order is kept. */
  lemma {:induction false} TextFilesAppend(xs: seq<Document>, ys: seq<Document>)
    ensures TextFiles(xs + ys) == TextFiles(xs) + TextFiles(ys)
    decreases |ys|
  {
    if ys == [] {
      assert xs + ys == xs;
    } else {
      var init := ys[..|ys| - 1];
      assert (xs + ys)[..|xs + ys| - 1] == xs + init;
      TextFilesAppend(xs, init);
    }
  }

  /** One entry is kept exactly when it is a `.txt` file. */
  lemma TextFilesSingle(d: Document)
    ensures TextFiles([d]) == if IsTextFile(d) then [d] else []
  {
    assert [d][..0] == [];
  }

  /** The id of chunk `i` of a file: the name with every `.txt` removed, `_`, then `i` in decimal. */
  function ChunkId(filename: string, i: nat): string
  {
    Replace(filename, ".txt", "") + "_" + NatToString(i)
  }

  /** The chunks of one file, as `process_documents` asks for them. */
  function FileChunks(d: Document): seq<string>
  {
    Chunks(d.text, DefaultChunkSize, DefaultOverlap)
  }

  /** A file ready to be stored: its name and the chunks `chunk_text` made of its content. */
  datatype ChunkedFile = ChunkedFile(name: string, chunks: seq<string>)

  /** The files of the batch, each with its chunks, in file order. */
  function ChunkedAll(docs: seq<Document>): (fs: seq<ChunkedFile>)
    ensures |fs| == |docs|
    ensures forall i :: 0 <= i < |docs| ==> fs[i] == ChunkedFile(docs[i].name, FileChunks(docs[i]))
  {
    seq(|docs|, i requires 0 <= i < |docs| => ChunkedFile(docs[i].name, FileChunks(docs[i])))
  }

  /** The ids of the first `n` chunks of a file, in chunk order. */
  function ChunkIds(filename: string, n: nat): (ids: seq<string>)
    ensures |ids| == n && forall i :: 0 <= i < n ==> ids[i] == ChunkId(filename, i)
  {
    if n == 0 then [] else ChunkIds(filename, n - 1) + [ChunkId(filename, n - 1)]
  }

  /** The metadata of the first `n` chunks of a file, in chunk order. */
  function ChunkMetadatas(filename: string, n: nat): (ms: seq<ChunkMetadata>)
    ensures |ms| == n && forall i :: 0 <= i < n ==> ms[i] == ChunkMetadata(filename, i)
  {
    if n == 0 then [] else ChunkMetadatas(filename, n - 1) + [ChunkMetadata(filename, n - 1)]
  }

  /** The records of one file: chunk `i` gets id `ChunkId(name, i)` and metadata `(name, i)`. */
  function FileBatch(f: ChunkedFile): (b: Batch)
    ensures |b.ids| == |b.texts| == |b.metadatas| == |f.chunks|
  {
    Batch(ChunkIds(f.name, |f.chunks|), f.chunks, ChunkMetadatas(f.name, |f.chunks|))
  }

  function Append(a: Batch, b: Batch): Batch
  {
    Batch(a.ids + b.ids, a.texts + b.texts, a.metadatas + b.metadatas)
  }

  /** The records of several files, file after file. */
  function Records(fs: seq<ChunkedFile>): (b: Batch)
    ensures |b.ids| == |b.texts| == |b.metadatas|
  {
    if fs == [] then Batch([], [], [])
    else Append(Records(fs[..|fs| - 1]), FileBatch(Last(fs)))
  }

  /** The records `process_documents` builds for its `.txt` files. */
  function BatchOf(docs: seq<Document>): Batch
  {
    Records(ChunkedAll(docs))
  }

  /**
   * Where record `k` comes from: file `f` and chunk `i` of that file. Its id, text
   * and metadata all belong to that one chunk.
   */
  function Locate(fs: seq<ChunkedFile>, k: nat): (fi: (nat, nat))
    requires k < |Records(fs).ids|
    ensures fi.0 < |fs| && fi.1 < |fs[fi.0].chunks|
    ensures Records(fs).ids[k] == ChunkId(fs[fi.0].name, fi.1)
    ensures Records(fs).texts[k] == fs[fi.0].chunks[fi.1]
    ensures Records(fs).metadatas[k] == ChunkMetadata(fs[fi.0].name, fi.1)
    decreases |fs|
  {
    var init := fs[..|fs| - 1];
    var b, last := Records(init), FileBatch(Last(fs));
    AppendAt(b, last, k);
    if k < |b.ids| then
      var fi := Locate(init, k);
      assert fs[fi.0] == init[fi.0];
      fi
    else
      (|fs| - 1, k - |b.ids|)
  }

  /** Record `k` of two batches put together comes from the first when it is short enough, else from the second. */
  lemma AppendAt(a: Batch, b: Batch, k: nat)
    requires |a.ids| == |a.texts| == |a.metadatas| && |b.ids| == |b.texts| == |b.metadatas|
    requires k < |a.ids| + |b.ids|
    ensures var c := Append(a, b);
      if k < |a.ids| then c.ids[k] == a.ids[k] && c.texts[k] == a.texts[k] && c.metadatas[k] == a.metadatas[k]
      else c.ids[k] == b.ids[k - |a.ids|] && c.texts[k] == b.texts[k - |a.ids|] && c.metadatas[k] == b.metadatas[k - |a.ids|]
  {
  }

  /** A file with at least one chunk contributes at least one record. */
  lemma {:induction false} RecordsCoverFiles(fs: seq<ChunkedFile>)
    requires forall f <- fs :: f.chunks != []
    ensures |Records(fs).ids| >= |fs|
    decreases |fs|
  {
    if fs != [] {
      RecordsCoverFiles(fs[..|fs| - 1]);
    }
  }

  /** Every file contributes at least one record, so a non-empty file list never gives an empty batch. */
  lemma BatchCoversFiles(docs: seq<Document>)
    ensures |BatchOf(docs).ids| >= |docs|
  {
    var fs := ChunkedAll(docs);
    forall f <- fs ensures f.chunks != [] {
      var i :| 0 <= i < |fs| && fs[i] == f;
      ChunksNonEmpty(docs[i].text, DefaultChunkSize, DefaultOverlap);
    }
    RecordsCoverFiles(fs);
  }

  /** Within one file, different chunks get different ids. */
  lemma ChunkIdInjective(filename: string, i: nat, j: nat)
    requires ChunkId(filename, i) == ChunkId(filename, j)
    ensures i == j
  {
    var prefix := Replace(filename, ".txt", "") + "_";
    assert NatToString(i) == ChunkId(filename, i)[|prefix|..];
    assert NatToString(j) == ChunkId(filename, j)[|prefix|..];
    NatToStringInjective(i, j);
  }

  /** Across files ids can collide: `a.txt` and `a.txt.txt` both name their first chunk `a_0`. */
  lemma ChunkIdCollision()
    ensures ChunkId("a.txt", 0) == ChunkId("a.txt.txt", 0) == "a_0"
  {
    assert StartsAt(".txt", ".txt", 0);
    assert Replace(".txt", ".txt", "") == "";
    assert "a.txt"[0..4][0] == 'a';
    assert !StartsAt("a.txt", ".txt", 0);
    assert Replace("a.txt", ".txt", "") == "a";
    assert Replace(".txt.txt", ".txt", "") == "";
    assert "a.txt.txt"[0..4][0] == 'a';
    assert !StartsAt("a.txt.txt", ".txt", 0);
    assert Replace("a.txt.txt", ".txt", "") == "a";
  }

  /** The record-building loops of `process_documents`: for each file, for each of its chunks, append id, text and metadata. */
  method BuildBatch(docFiles: seq<Document>) returns (ids: seq<string>, texts: seq<string>, metadatas: seq<ChunkMetadata>)
    ensures Batch(ids, texts, metadatas) == BatchOf(docFiles)
  {
    ghost var files := ChunkedAll(docFiles);
    ids, texts, metadatas := [], [], [];
    for f := 0 to |docFiles|
      invariant Batch(ids, texts, metadatas) == Records(files[..f])
    {
      var chunks := ChunkText(docFiles[f].text, DefaultChunkSize, DefaultOverlap);
      assert files[f] == ChunkedFile(docFiles[f].name, chunks);
      ids, texts, metadatas := AddFileRecords(ids, texts, metadatas, docFiles[f].name, chunks);
      RecordsSnoc(files, f);
    }
    assert files[..|docFiles|] == files;
  }

  /** The inner loop of `process_documents`: the records of one file's chunks, appended to the lists built so far. */
  method AddFileRecords(ids0: seq<string>, texts0: seq<string>, metadatas0: seq<ChunkMetadata>, filename: string, chunks: seq<string>)
    returns (ids: seq<string>, texts: seq<string>, metadatas: seq<ChunkMetadata>)
    ensures Batch(ids, texts, metadatas) == Append(Batch(ids0, texts0, metadatas0), FileBatch(ChunkedFile(filename, chunks)))
  {
    ids, texts, metadatas := ids0, texts0, metadatas0;
    for i := 0 to |chunks|
      invariant ids == ids0 + ChunkIds(filename, i)
      invariant texts == texts0 + chunks[..i]
      invariant metadatas == metadatas0 + ChunkMetadatas(filename, i)
    {
      ids := ids + [ChunkId(filename, i)];
      texts := texts + [chunks[i]];
      metadatas := metadatas + [ChunkMetadata(filename, i)];
      assert chunks[..i + 1] == chunks[..i] + [chunks[i]];
    }
    assert chunks[..|chunks|] == chunks;
  }

  /** Taking one more file appends that file's records. */
  lemma RecordsSnoc(fs: seq<ChunkedFile>, f: nat)
    requires f < |fs|
    ensures Records(fs[..f + 1]) == Append(Records(fs[..f]), FileBatch(fs[f]))
  {
    assert fs[..f + 1][..f] == fs[..f];
  }

  /** The store's answer to one query embedding, column by column; `distances` is `None` when the key is absent. */
  datatype QueryAnswer = QueryAnswer(
    ids: seq<seq<string>>,
    documents: seq<seq<string>>,
    metadatas: seq<seq<ChunkMetadata>>,
    distances: Option<seq<seq<real>>>)

  /** One formatted record of `query`'s result. */
  datatype Hit = Hit(id: string, text: string, metadata: ChunkMetadata, distance: Option<real>)

  /** Every index `query` reads from the first row of each column exists. */
  predicate WellShaped(a: QueryAnswer)
  {
    |a.ids| >= 1 &&
    (|a.ids[0]| > 0 ==>
      |a.documents| >= 1 && |a.documents[0]| >= |a.ids[0]| &&
      |a.metadatas| >= 1 && |a.metadatas[0]| >= |a.ids[0]| &&
      (a.distances.Some? ==> |a.distances.value| >= 1 && |a.distances.value[0]| >= |a.ids[0]|))
  }

  /**
   * `hits` formats `a`: one record per returned id, in the store's order, each taking
   * its id, text, metadata and distance from the same index.
   */
  ghost predicate Formats(a: QueryAnswer, hits: seq<Hit>)
    requires WellShaped(a)
  {
    |hits| == |a.ids[0]| &&
    forall i :: 0 <= i < |hits| ==>
      hits[i] == Hit(a.ids[0][i], a.documents[0][i], a.metadatas[0][i],
                     if a.distances.Some? then Some(a.distances.value[0][i]) else None)
  }

  /**
   * The result-formatting loop of `query`. `None` stands for the `IndexError` Python
   * raises when a column is shorter than the id list.
   */
  method FormatResults(a: QueryAnswer) returns (r: Option<seq<Hit>>)
    ensures r.Some? <==> WellShaped(a)
    ensures r.Some? ==> Formats(a, r.value)
  {
    if |a.ids| == 0 {
      return None;
    }
    var ids := a.ids[0];
    var hits: seq<Hit> := [];
    for i := 0 to |ids|
      invariant |hits| == i
      invariant i > 0 ==> |a.documents| >= 1 && |a.documents[0]| >= i && |a.metadatas| >= 1 && |a.metadatas[0]| >= i
      invariant i > 0 && a.distances.Some? ==> |a.distances.value| >= 1 && |a.distances.value[0]| >= i
      invariant forall j :: 0 <= j < i ==>
        hits[j] == Hit(ids[j], a.documents[0][j], a.metadatas[0][j],
                       if a.distances.Some? then Some(a.distances.value[0][j]) else None)
    {
      if |a.documents| == 0 || |a.documents[0]| <= i || |a.metadatas| == 0 || |a.metadatas[0]| <= i {
        return None;
      }
      var distance: Option<real> := None;
      if a.distances.Some? {
        if |a.distances.value| == 0 || |a.distances.value[0]| <= i {
          return None;
        }
        distance := Some(a.distances.value[0][i]);
      }
      hits := hits + [Hit(ids[i], a.documents[0][i], a.metadatas[0][i], distance)];
    }
    return Some(hits);
  }

  /** The embeddings of a batch: one vector per text, in order. */
  function EncodeAll(encode: string -> Vector, texts: seq<string>): (vs: seq<Vector>)
    ensures |vs| == |texts|
    ensures forall i :: 0 <= i < |texts| ==> vs[i] == encode(texts[i])
  {
    seq(|texts|, i requires 0 <= i < |texts| => encode(texts[i]))
  }

  /**
   * The engine, with the embedding model and the collection as oracles. `addCalls`
   * is everything this engine hands to `collection.add`; `search` answers a query
   * from it, and also stands for whatever an earlier run left in the persisted
   * collection that `get_collection` loads.
   */
  class EmbeddingEngine {
    const encode: string -> Vector
    const search: (seq<AddCall>, Vector, int) -> QueryAnswer
    var addCalls: seq<AddCall>

    constructor (encode: string -> Vector, search: (seq<AddCall>, Vector, int) -> QueryAnswer)
      ensures this.encode == encode && this.search == search
      ensures addCalls == []
    {
      this.encode := encode;
      this.search := search;
      addCalls := [];
    }

    /**
     * `process_documents`: with no `.txt` file it returns before embedding or storing
     * anything; otherwise it makes one `collection.add` call with all records of all
     * `.txt` files and their embeddings.
     */
    method ProcessDocuments(listing: seq<Document>)
      modifies this
      ensures TextFiles(listing) == [] ==> addCalls == old(addCalls)
      ensures TextFiles(listing) != [] ==>
        var b := BatchOf(TextFiles(listing));
        addCalls == old(addCalls) + [AddCall(b.ids, EncodeAll(encode, b.texts), b.metadatas, b.texts)]
    {
      var docFiles := TextFiles(listing);
      if docFiles == [] {
        return;
      }
      var ids, texts, metadatas := BuildBatch(docFiles);
      var embeddings := EncodeAll(encode, texts);
      addCalls := addCalls + [AddCall(ids, embeddings, metadatas, texts)];
    }

    /**
     * `query`: the question is embedded, `nResults` is handed to the store unchecked,
     * and the answer is formatted.
     */
    method Query(question: string, nResults: int) returns (r: Option<seq<Hit>>)
      ensures var a := search(addCalls, encode(question), nResults);
        (r.Some? <==> WellShaped(a)) && (r.Some? ==> Formats(a, r.value))
    {
      var questionEmbedding := encode(question);
      var answer := search(addCalls, questionEmbedding, nResults);
      r := FormatResults(answer);
    }
  }
}
