/**
 * `VectorStore.add_documents`: cut each record into chunks and add one
 * document per chunk to the store.
 *
 * The text splitter is a parameter (`split`); the embedding model and Chroma
 * are not modelled: the store is the sequence of documents added to it.
 */
module VectorStore {
  import opened Web

  /** The metadata attached to each chunk: its record's `source`, `title`, `type`, and its number. */
  datatype Metadata = Metadata(source: string, title: string, kind: DocKind, chunk: nat)

  /** A LangChain `Document`: one chunk of text and its metadata. */
  datatype Document = Document(pageContent: string, metadata: Metadata)

  /** `if data and data['content']`: the records that are split at all. */
  predicate Kept(data: Option<Record>) {
    data.Some? && data.value.content != ""
  }

  /** The documents of one record: one per chunk, numbered from 0, in chunk order. */
  function RecordDocuments(split: string -> seq<string>, r: Record): (docs: seq<Document>)
  {
    var chunks := split(r.content);
    seq(|chunks|, i requires 0 <= i < |chunks| => Document(chunks[i], Metadata(r.url, r.title, r.kind, i)))
  }

  /** The documents `add_documents(data)` creates, record after record. */
  function Documents(split: string -> seq<string>, data: seq<Option<Record>>): seq<Document>
  {
    if data == [] then []
    else
      var last := data[|data| - 1];
      Documents(split, data[..|data| - 1]) + (if Kept(last) then RecordDocuments(split, last.value) else [])
  }

  /** The documents of two batches are those of the first, then those of the second. */
  lemma {:induction false} DocumentsAppend(split: string -> seq<string>, a: seq<Option<Record>>, b: seq<Option<Record>>)
    ensures Documents(split, a + b) == Documents(split, a) + Documents(split, b)
    decreases |b|
  {
    if b == [] {
      assert a + b == a;
    } else {
      var init := b[..|b| - 1];
      assert (a + b)[..|a + b| - 1] == a + init;
      DocumentsAppend(split, a, init);
    }
  }

  /** A record that is `None` or has empty content adds no document: removing it changes nothing. */
  lemma DroppedRecordAddsNothing(split: string -> seq<string>, data: seq<Option<Record>>, i: nat)
    requires i < |data| && !Kept(data[i])
    ensures Documents(split, data) == Documents(split, data[..i] + data[i + 1..])
  {
    var before, after := data[..i], data[i + 1..];
    assert data == (before + [data[i]]) + after;
    assert (before + [data[i]])[..i] == before;
    assert Documents(split, before + [data[i]]) == Documents(split, before);
    DocumentsAppend(split, before + [data[i]], after);
    DocumentsAppend(split, before, after);
  }

  /**
   * Chunk numbers run 0, 1, 2, ... within each record: a document numbered
   * `k > 0` follows the document numbered `k - 1` of the same record.
   */
  predicate NumberedRuns(docs: seq<Document>) {
    forall i :: 0 <= i < |docs| && docs[i].metadata.chunk != 0 ==>
      && i > 0
      && docs[i - 1].metadata.chunk + 1 == docs[i].metadata.chunk
      && docs[i - 1].metadata.source == docs[i].metadata.source
      && docs[i - 1].metadata.title == docs[i].metadata.title
      && docs[i - 1].metadata.kind == docs[i].metadata.kind
  }

  /** The documents of a record carry its source, title and type, and the chunks in order. */
  lemma RecordDocumentsShape(split: string -> seq<string>, r: Record)
    ensures var docs := RecordDocuments(split, r);
      && |docs| == |split(r.content)|
      && (forall i :: 0 <= i < |docs| ==> docs[i].pageContent == split(r.content)[i])
      && (forall i :: 0 <= i < |docs| ==> docs[i].metadata == Metadata(r.url, r.title, r.kind, i))
      && NumberedRuns(docs)
  {
  }

  /** Every batch of documents numbers its chunks in runs starting at 0. */
  lemma {:induction false} DocumentsNumbered(split: string -> seq<string>, data: seq<Option<Record>>)
    ensures NumberedRuns(Documents(split, data))
  {
    if data != [] {
      var init := data[..|data| - 1];
      var last := data[|data| - 1];
      DocumentsNumbered(split, init);
      if Kept(last) {
        var a := Documents(split, init);
        var b := RecordDocuments(split, last.value);
        var docs := a + b;
        forall i | 0 <= i < |docs| && docs[i].metadata.chunk != 0
          ensures i > 0
          ensures docs[i - 1].metadata.chunk + 1 == docs[i].metadata.chunk
          ensures docs[i - 1].metadata.source == docs[i].metadata.source
          ensures docs[i - 1].metadata.title == docs[i].metadata.title
          ensures docs[i - 1].metadata.kind == docs[i].metadata.kind
        {
          if i >= |a| {
            assert docs[i] == b[i - |a|];
            assert docs[i - 1] == b[i - 1 - |a|];
          } else {
            assert docs[i] == a[i];
            assert docs[i - 1] == a[i - 1];
          }
        }
      }
    }
  }

  /** What the store holds: nothing before the first call. */
  function Stored(vs: Option<seq<Document>>): seq<Document>
  {
    match vs
    case None => []
    case Some(docs) => docs
  }

  class Store {
    const persistDirectory: string
    /** The text splitter, built with `CHUNK_SIZE` and `CHUNK_OVERLAP`. */
    const split: string -> seq<string>
    const chunkSize: nat
    const chunkOverlap: nat
    /** `self.vectorstore`: `None` until the first `add_documents`, then the documents stored. */
    var vectorstore: Option<seq<Document>>

    constructor (persistDirectory: string, split: string -> seq<string>)
      ensures this.persistDirectory == persistDirectory && this.split == split
      ensures chunkSize == CHUNK_SIZE && chunkOverlap == CHUNK_OVERLAP
      ensures vectorstore == None
    {
      this.persistDirectory := persistDirectory;
      this.split := split;
      chunkSize := CHUNK_SIZE;
      chunkOverlap := CHUNK_OVERLAP;
      vectorstore := None;
    }

    /**
     * `add_documents(scraped_data)`: build the documents, then create the
     * store from them (first call) or add them to it (later calls).
     */
    method AddDocuments(scrapedData: seq<Option<Record>>)
      modifies this
      ensures vectorstore == Some(Stored(old(vectorstore)) + Documents(split, scrapedData))
    {
      var documents: seq<Document> := [];
      for n := 0 to |scrapedData|
        invariant documents == Documents(split, scrapedData[..n])
        invariant vectorstore == old(vectorstore)
      {
        var data := scrapedData[n];
        assert scrapedData[..n + 1][..n] == scrapedData[..n];
        if data.Some? && data.value.content != "" {
          var chunks := split(data.value.content);
          ghost var before := documents;
          for i := 0 to |chunks|
            invariant documents == before + RecordDocuments(split, data.value)[..i]
            invariant vectorstore == old(vectorstore)
          {
            var doc := Document(chunks[i], Metadata(data.value.url, data.value.title, data.value.kind, i));
            assert RecordDocuments(split, data.value)[..i + 1] == RecordDocuments(split, data.value)[..i] + [doc];
            documents := documents + [doc];
          }
          assert RecordDocuments(split, data.value)[..|chunks|] == RecordDocuments(split, data.value);
        }
      }
      assert scrapedData[..|scrapedData|] == scrapedData;
      assert documents == Documents(split, scrapedData);
      if vectorstore.None? {
        assert Stored(vectorstore) + documents == documents;
        vectorstore := Some(documents);
      } else {
        vectorstore := Some(vectorstore.value + documents);
      }
    }
  }
}
