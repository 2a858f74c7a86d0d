/** The three parallel lists handed to the vector store's `add`: the contents,
    the metadatas and the ids of the documents, index by index. */
module ChromaColumns {
  import opened TranscriptDocument
  import opened DocumentBatch

  /** Each document's content, in document order. */
  function DocumentsContent(documents: seq<Document>): (r: seq<string>)
    ensures |r| == |documents|
    ensures forall i :: 0 <= i < |documents| ==> r[i] == documents[i].content
  {
    seq(|documents|, i requires 0 <= i < |documents| => documents[i].content)
  }

  /** Each document's metadata map, in document order. */
  function DocumentsMetadata(documents: seq<Document>): (r: seq<map<string, string>>)
    ensures |r| == |documents|
    ensures forall i :: 0 <= i < |documents| ==> r[i] == documents[i].metadata
  {
    seq(|documents|, i requires 0 <= i < |documents| => documents[i].metadata)
  }

  /** Each document's id, in document order. */
  function DocumentsIds(documents: seq<Document>): (r: seq<string>)
    ensures |r| == |documents|
    ensures forall i :: 0 <= i < |documents| ==> r[i] == documents[i].id
  {
    seq(|documents|, i requires 0 <= i < |documents| => documents[i].id)
  }

  /** Zips three equally long columns back into documents, row by row. */
  function Rebuild(contents: seq<string>, metadatas: seq<map<string, string>>, ids: seq<string>): seq<Document>
    requires |contents| == |metadatas| == |ids|
  {
    if ids == [] then []
    else [Document(ids[0], metadatas[0], contents[0])] + Rebuild(contents[1..], metadatas[1..], ids[1..])
  }

  /** The columns lose nothing: zipping them back gives the documents. */
  lemma {:induction false} ColumnsRebuild(documents: seq<Document>)
    ensures Rebuild(DocumentsContent(documents), DocumentsMetadata(documents), DocumentsIds(documents)) == documents
  {
    if documents != [] {
      var rest := documents[1..];
      assert DocumentsContent(documents)[1..] == DocumentsContent(rest);
      assert DocumentsMetadata(documents)[1..] == DocumentsMetadata(rest);
      assert DocumentsIds(documents)[1..] == DocumentsIds(rest);
      ColumnsRebuild(rest);
      assert [documents[0]] + rest == documents;
    }
  }

  /** And any three aligned columns are the columns of their zip. */
  lemma {:induction false} RebuildColumns(contents: seq<string>, metadatas: seq<map<string, string>>, ids: seq<string>)
    requires |contents| == |metadatas| == |ids|
    ensures |Rebuild(contents, metadatas, ids)| == |ids|
    ensures DocumentsContent(Rebuild(contents, metadatas, ids)) == contents
    ensures DocumentsMetadata(Rebuild(contents, metadatas, ids)) == metadatas
    ensures DocumentsIds(Rebuild(contents, metadatas, ids)) == ids
  {
    if ids != [] {
      RebuildColumns(contents[1..], metadatas[1..], ids[1..]);
      var documents := Rebuild(contents, metadatas, ids);
      assert documents[1..] == Rebuild(contents[1..], metadatas[1..], ids[1..]);
      assert contents == [contents[0]] + contents[1..];
      assert metadatas == [metadatas[0]] + metadatas[1..];
      assert ids == [ids[0]] + ids[1..];
      assert DocumentsContent(documents) == [contents[0]] + DocumentsContent(documents[1..]);
      assert DocumentsMetadata(documents) == [metadatas[0]] + DocumentsMetadata(documents[1..]);
      assert DocumentsIds(documents) == [ids[0]] + DocumentsIds(documents[1..]);
    }
  }

  /** What the script hands to the store for transcript `k` of email `e`:
      its id, its metadata and its body, all at the same row. */
  lemma BatchRow(payloads: seq<seq<Transcript>>, e: nat, k: nat)
    requires e < |payloads| && k < |payloads[e]|
    ensures Offset(payloads, e) + k < TotalTranscripts(payloads)
    ensures DocumentsIds(AllDocuments(payloads))[Offset(payloads, e) + k] == payloads[e][k].id
    ensures DocumentsMetadata(AllDocuments(payloads))[Offset(payloads, e) + k] == Metadata(payloads[e][k])
    ensures DocumentsContent(AllDocuments(payloads))[Offset(payloads, e) + k] == Content(payloads[e][k].sentences)
  {
    DocumentAt(payloads, e, k);
  }

  /** A transcript fetched twice puts its id at two different rows of the
      ids column. */
  lemma RepeatedIdsReachStore(payloads: seq<seq<Transcript>>, e1: nat, k1: nat, e2: nat, k2: nat)
    requires e1 < |payloads| && k1 < |payloads[e1]|
    requires e2 < |payloads| && k2 < |payloads[e2]|
    requires (e1, k1) != (e2, k2)
    requires payloads[e1][k1].id == payloads[e2][k2].id
    ensures Offset(payloads, e1) + k1 != Offset(payloads, e2) + k2
    ensures Offset(payloads, e1) + k1 < TotalTranscripts(payloads)
    ensures Offset(payloads, e2) + k2 < TotalTranscripts(payloads)
    ensures DocumentsIds(AllDocuments(payloads))[Offset(payloads, e1) + k1] == payloads[e1][k1].id
    ensures DocumentsIds(AllDocuments(payloads))[Offset(payloads, e2) + k2] == payloads[e1][k1].id
  {
    PositionsDistinct(payloads, e1, k1, e2, k2);
    BatchRow(payloads, e1, k1);
    BatchRow(payloads, e2, k2);
  }
}
