/** One Fireflies transcript turned into the document that is stored in the
    "presale_calls" collection: an id, a five-key metadata map and a text body
    with one "speaker: text" line per sentence. */
module TranscriptDocument {
  import opened Text

  /** One utterance. The speaker name is required: the conversion reads it
      with no fallback. */
  datatype Sentence = Sentence(speakerName: string, text: string)

  /** The fields of a fetched transcript record that the conversion reads. */
  datatype Transcript = Transcript(
    id: string,
    title: string,
    participants: seq<string>,
    dateString: string,
    transcriptUrl: string,
    sentences: seq<Sentence>)

  /** The stored form: `{"id": …, "metadata": {…}, "content": …}`. */
  datatype Document = Document(id: string, metadata: map<string, string>, content: string)

  const ParticipantSeparator: char := ','

  /** The five metadata keys the conversion writes, and no others. */
  const MetadataKeys: set<string> := {"id", "title", "participants", "dateString", "transcript_url"}

  /** One line of the body: `speaker_name + ": " + text + "\n"`. */
  function Line(s: Sentence): string
  {
    s.speakerName + ": " + s.text + "\n"
  }

  /** The body as the loop leaves it: the lines of all sentences, in order.
      It is empty exactly when there are no sentences, and otherwise ends
      with a newline. */
  function Content(sentences: seq<Sentence>): (r: string)
    ensures r == "" <==> sentences == []
    ensures sentences != [] ==> r[|r| - 1] == '\n'
  {
    if sentences == [] then ""
    else Content(sentences[..|sentences| - 1]) + Line(sentences[|sentences| - 1])
  }

  /** The metadata map built from the transcript's header fields. */
  function Metadata(t: Transcript): (m: map<string, string>)
    ensures m.Keys == MetadataKeys
    ensures "is_internal" !in m
    ensures m["id"] == t.id && m["title"] == t.title
    ensures m["participants"] == Join(t.participants, ParticipantSeparator)
    ensures m["dateString"] == t.dateString && m["transcript_url"] == t.transcriptUrl
  {
    map["id" := t.id,
        "title" := t.title,
        "participants" := Join(t.participants, ParticipantSeparator),
        "dateString" := t.dateString,
        "transcript_url" := t.transcriptUrl]
  }

  /** The document the conversion returns for `t`. */
  function DocumentOf(t: Transcript): Document
  {
    Document(t.id, Metadata(t), Content(t.sentences))
  }

  /** The conversion itself: the metadata map, then the body accumulated one
      sentence at a time. */
  method TranscriptToDocument(t: Transcript) returns (d: Document)
    ensures d.metadata == Metadata(t)
    ensures d.id == t.id && d.metadata["id"] == t.id
    ensures d.content == Content(t.sentences)
    ensures d == DocumentOf(t)
  {
    var metadata := map["id" := t.id,
                         "title" := t.title,
                         "participants" := Join(t.participants, ParticipantSeparator),
                         "dateString" := t.dateString,
                         "transcript_url" := t.transcriptUrl];
    var content := "";
    for i := 0 to |t.sentences|
      invariant content == Content(t.sentences[..i])
    {
      var sentence := t.sentences[i];
      assert t.sentences[..i + 1][..i] == t.sentences[..i];
      content := content + sentence.speakerName + ": " + sentence.text + "\n";
    }
    assert t.sentences[..|t.sentences|] == t.sentences;
    d := Document(t.id, metadata, content);
  }

  /** The body of a concatenation of sentence lists is the concatenation of
      their bodies. */
  lemma {:induction false} ContentAppend(a: seq<Sentence>, b: seq<Sentence>)
    ensures Content(a + b) == Content(a) + Content(b)
  {
    if b == [] {
      assert a + b == a;
    } else {
      var front, last := b[..|b| - 1], b[|b| - 1];
      assert (a + b)[..|a + b| - 1] == a + front;
      assert (a + b)[|a + b| - 1] == last;
      ContentAppend(a, front);
      calc {
        Content(a + b);
        Content(a + front) + Line(last);
        (Content(a) + Content(front)) + Line(last);
        Content(a) + (Content(front) + Line(last));
        Content(a) + Content(b);
      }
    }
  }

  lemma {:induction false} ContentSingle(s: Sentence)
    ensures Content([s]) == Line(s)
  {
    assert [s][..0] == [];
  }

  /** Every sentence's line sits in the body, in its place: the lines before it
      come first and the lines after it follow. No sentence is dropped or moved. */
  lemma {:induction false} ContentAt(sentences: seq<Sentence>, i: nat)
    requires i < |sentences|
    ensures Content(sentences) ==
            Content(sentences[..i]) + Line(sentences[i]) + Content(sentences[i + 1..])
  {
    var before, here, after := sentences[..i], [sentences[i]], sentences[i + 1..];
    ContentSingle(sentences[i]);
    calc {
      Content(sentences);
      { assert sentences == (before + here) + after; }
      Content((before + here) + after);
      { ContentAppend(before + here, after); }
      Content(before + here) + Content(after);
      { ContentAppend(before, here); }
      Content(before) + Line(sentences[i]) + Content(after);
    }
  }

  /** The body starts with the first sentence's line. */
  lemma {:induction false} ContentFirst(sentences: seq<Sentence>)
    requires sentences != []
    ensures Content(sentences) == Line(sentences[0]) + Content(sentences[1..])
  {
    ContentAt(sentences, 0);
    assert sentences[..0] == [];
    assert Content(sentences[..0]) == "";
  }

  /** The body's length, summed sentence by sentence from the front. */
  function LineLengths(sentences: seq<Sentence>): nat
  {
    if sentences == [] then 0
    else |sentences[0].speakerName| + 2 + |sentences[0].text| + 1 + LineLengths(sentences[1..])
  }

  lemma {:induction false} ContentLength(sentences: seq<Sentence>)
    ensures |Content(sentences)| == LineLengths(sentences)
  {
    if sentences != [] {
      ContentLength(sentences[1..]);
      ContentFirst(sentences);
    }
  }

  /** The line without its newline, as `split("\n")` gives it back. */
  function LineText(s: Sentence): string
  {
    s.speakerName + ": " + s.text
  }

  /** Neither the speaker name nor the text holds a line break. */
  predicate SingleLine(s: Sentence)
  {
    '\n' !in s.speakerName && '\n' !in s.text
  }

  /** The sentences' lines without their newlines, in order. */
  function LineTexts(sentences: seq<Sentence>): seq<string>
  {
    if sentences == [] then [] else [LineText(sentences[0])] + LineTexts(sentences[1..])
  }

  /** When no sentence holds a line break, `content.split("\n")` gives back
      the sentences' lines in order, followed by the empty piece after the
      final newline. */
  lemma {:induction false} ContentSplitsIntoLines(sentences: seq<Sentence>)
    requires forall i :: 0 <= i < |sentences| ==> SingleLine(sentences[i])
    ensures Split(Content(sentences), '\n') == LineTexts(sentences) + [""]
  {
    if sentences == [] {
      assert Split("", '\n') == [""];
    } else {
      var s, rest := sentences[0], sentences[1..];
      assert '\n' !in LineText(s) by {
        assert SingleLine(s);
      }
      calc {
        Split(Content(sentences), '\n');
        { ContentFirst(sentences);
          assert Line(s) == LineText(s) + ['\n']; }
        Split(LineText(s) + ['\n'] + Content(rest), '\n');
        { SplitAfterPiece(LineText(s), '\n', Content(rest)); }
        [LineText(s)] + Split(Content(rest), '\n');
        { ContentSplitsIntoLines(rest); }
        [LineText(s)] + (LineTexts(rest) + [""]);
        LineTexts(sentences) + [""];
      }
    }
  }

  /** The stored participants string gives back the participants list when it
      is not empty and no entry holds a comma. */
  lemma ParticipantsRoundTrip(t: Transcript)
    requires t.participants != []
    requires forall i :: 0 <= i < |t.participants| ==> ParticipantSeparator !in t.participants[i]
    ensures Split(DocumentOf(t).metadata["participants"], ParticipantSeparator) == t.participants
  {
    SplitJoin(t.participants, ParticipantSeparator);
  }

  /** The metadata keeps every header field: the id, title, date and URL as
      they were, and the participants up to the commas that joining inserts. */
  lemma MetadataDeterminesHeader(t1: Transcript, t2: Transcript)
    requires Metadata(t1) == Metadata(t2)
    ensures t1.id == t2.id && t1.title == t2.title
    ensures t1.dateString == t2.dateString && t1.transcriptUrl == t2.transcriptUrl
    ensures Join(t1.participants, ParticipantSeparator) == Join(t2.participants, ParticipantSeparator)
  {
  }

  /** Joining loses where entries end when an entry holds a comma: these two
      different participant lists are stored as the same string. */
  lemma ParticipantsJoinLosesCommas()
    ensures Join(["a,b"], ParticipantSeparator) == Join(["a", "b"], ParticipantSeparator)
  {
  }
}
