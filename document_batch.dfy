/** The ingestion script's accumulation of documents: for each participant
    email in turn, one document per transcript fetched for it, appended in
    order and never deduplicated. The fetched payloads are passed in, one
    list of transcripts per email. */
module DocumentBatch {
  import opened TranscriptDocument

  /** The documents of one payload, in the payload's order. */
  function DocumentsOf(payload: seq<Transcript>): (r: seq<Document>)
    ensures |r| == |payload|
    ensures forall k :: 0 <= k < |payload| ==> r[k] == DocumentOf(payload[k])
  {
    seq(|payload|, k requires 0 <= k < |payload| => DocumentOf(payload[k]))
  }

  /** How many transcripts the payloads hold in all. */
  function TotalTranscripts(payloads: seq<seq<Transcript>>): nat
  {
    if payloads == [] then 0
    else TotalTranscripts(payloads[..|payloads| - 1]) + |payloads[|payloads| - 1]|
  }

  /** Where the documents of email `e` start in the accumulated list. */
  function Offset(payloads: seq<seq<Transcript>>, e: nat): nat
    requires e <= |payloads|
  {
    TotalTranscripts(payloads[..e])
  }

  /** The accumulated list: the payloads' documents one email after another.
      It holds exactly one document per transcript fetched. */
  function AllDocuments(payloads: seq<seq<Transcript>>): (r: seq<Document>)
    ensures |r| == TotalTranscripts(payloads)
  {
    if payloads == [] then []
    else AllDocuments(payloads[..|payloads| - 1]) + DocumentsOf(payloads[|payloads| - 1])
  }

  /** The nested loop of the script: over emails, then over the transcripts of
      each email's payload, appending each converted transcript. */
  method AssembleDocuments(payloads: seq<seq<Transcript>>) returns (documents: seq<Document>)
    ensures documents == AllDocuments(payloads)
    ensures |documents| == TotalTranscripts(payloads)
  {
    documents := [];
    for e := 0 to |payloads|
      invariant documents == AllDocuments(payloads[..e])
    {
      var payload := payloads[e];
      for k := 0 to |payload|
        invariant documents == AllDocuments(payloads[..e]) + DocumentsOf(payload[..k])
      {
        var document := TranscriptToDocument(payload[k]);
        assert DocumentsOf(payload[..k + 1]) == DocumentsOf(payload[..k]) + [document];
        documents := documents + [document];
      }
      assert payload[..|payload|] == payload;
      assert payloads[..e + 1][..e] == payloads[..e];
    }
    assert payloads[..|payloads|] == payloads;
  }

  /** Transcript `k` of email `e` becomes the document at position
      `Offset(payloads, e) + k`: every transcript is kept, in email order and
      then in payload order. */
  lemma {:induction false} DocumentAt(payloads: seq<seq<Transcript>>, e: nat, k: nat)
    requires e < |payloads| && k < |payloads[e]|
    ensures Offset(payloads, e) + k < |AllDocuments(payloads)|
    ensures AllDocuments(payloads)[Offset(payloads, e) + k] == DocumentOf(payloads[e][k])
  {
    var n := |payloads|;
    var front := payloads[..n - 1];
    if e < n - 1 {
      assert front[..e] == payloads[..e];
      DocumentAt(front, e, k);
    } else {
      assert front == payloads[..e];
    }
  }

  /** Conversely, every position of the accumulated list holds the document
      of some fetched transcript: nothing is added besides them. */
  lemma {:induction false} SourceOf(payloads: seq<seq<Transcript>>, j: nat) returns (e: nat, k: nat)
    requires j < |AllDocuments(payloads)|
    ensures e < |payloads| && k < |payloads[e]|
    ensures j == Offset(payloads, e) + k
    ensures AllDocuments(payloads)[j] == DocumentOf(payloads[e][k])
  {
    var n := |payloads|;
    var front := payloads[..n - 1];
    if j < TotalTranscripts(front) {
      e, k := SourceOf(front, j);
      assert front[..e] == payloads[..e];
    } else {
      e, k := n - 1, j - TotalTranscripts(front);
      assert front == payloads[..e];
    }
    DocumentAt(payloads, e, k);
  }

  /** The documents of a later email come after all documents of an earlier one. */
  lemma {:induction false} OffsetsOrdered(payloads: seq<seq<Transcript>>, e1: nat, e2: nat)
    requires e1 < e2 <= |payloads|
    ensures Offset(payloads, e1) + |payloads[e1]| <= Offset(payloads, e2)
  {
    if e2 == e1 + 1 {
      assert payloads[..e2][..e1] == payloads[..e1];
    } else {
      OffsetsOrdered(payloads, e1, e2 - 1);
      assert payloads[..e2][..e2 - 1] == payloads[..e2 - 1];
    }
  }

  /** Two different fetch positions land at two different positions of the
      accumulated list. */
  lemma PositionsDistinct(payloads: seq<seq<Transcript>>, e1: nat, k1: nat, e2: nat, k2: nat)
    requires e1 < |payloads| && k1 < |payloads[e1]|
    requires e2 < |payloads| && k2 < |payloads[e2]|
    requires (e1, k1) != (e2, k2)
    ensures Offset(payloads, e1) + k1 != Offset(payloads, e2) + k2
  {
    if e1 < e2 {
      OffsetsOrdered(payloads, e1, e2);
    } else if e2 < e1 {
      OffsetsOrdered(payloads, e2, e1);
    }
  }

  /** All document ids are different. */
  predicate DistinctIds(documents: seq<Document>)
  {
    forall i, j :: 0 <= i < j < |documents| ==> documents[i].id != documents[j].id
  }

  /** No deduplication: a transcript id fetched at two positions (for example
      the same call under two participant emails) yields two documents with
      that id. */
  lemma {:induction false} RepeatedTranscriptsKept(payloads: seq<seq<Transcript>>, e1: nat, k1: nat, e2: nat, k2: nat)
    requires e1 < |payloads| && k1 < |payloads[e1]|
    requires e2 < |payloads| && k2 < |payloads[e2]|
    requires (e1, k1) != (e2, k2)
    requires payloads[e1][k1].id == payloads[e2][k2].id
    ensures Offset(payloads, e1) + k1 < |AllDocuments(payloads)|
    ensures Offset(payloads, e2) + k2 < |AllDocuments(payloads)|
    ensures AllDocuments(payloads)[Offset(payloads, e1) + k1].id == payloads[e1][k1].id
    ensures AllDocuments(payloads)[Offset(payloads, e2) + k2].id == payloads[e1][k1].id
    ensures !DistinctIds(AllDocuments(payloads))
  {
    DocumentAt(payloads, e1, k1);
    DocumentAt(payloads, e2, k2);
    PositionsDistinct(payloads, e1, k1, e2, k2);
    var i, j := Offset(payloads, e1) + k1, Offset(payloads, e2) + k2;
    var docs := AllDocuments(payloads);
    if i < j {
      assert docs[i].id == docs[j].id;
    } else {
      assert docs[j].id == docs[i].id;
    }
  }
}
