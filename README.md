# chat-with-transcripts: transcript ingestion, modelled in Dafny

The ingestion script of chat-with-transcripts pulls sales-call transcripts from
Fireflies and stores them in a Chroma collection named "presale_calls". This
project models the logic of that script between fetching and storing:

- **`transcript_to_document`** (module `TranscriptDocument`, file
  `transcript_document.dfy`). It turns one transcript record into a
  document `{id, metadata, content}`. The metadata is a map with exactly five
  keys: `id`, `title`, `participants` (the list joined with `","`),
  `dateString` and `transcript_url`. The content is built by a loop that
  appends `speaker_name + ": " + text + "\n"` for each sentence. The loop is the
  method `TranscriptToDocument`. It is proved equal to the recursive
  specification `Content`, and the lemmas about `Content` give its order, its
  length, where each line sits and what splitting on newlines gives back.
- **The document accumulation of `__main__`** (module `DocumentBatch`, file
  `document_batch.dfy`). A nested loop goes over the participant emails and
  then over each email's fetched transcripts, and appends one document per
  transcript. The fetched payloads are a parameter (`seq<seq<Transcript>>`,
  one list per email). The method `AssembleDocuments` is proved equal to the
  specification `AllDocuments`. The lemmas show that transcript `k` of email
  `e` sits at position `Offset(e) + k`, that nothing else is in the list, and
  that nothing is deduplicated.
- **The three column lists of `store_embeddings_in_chroma`** (module
  `ChromaColumns`, file `chroma_columns.dfy`). These are the contents, metadatas
  and ids passed to `collection.add`. They have the length of the document list
  and are aligned by index. Zipping them back gives the documents.
- **Python's `str.join`** (module `Text`, file `text.dfy`), with `str.split` as
  its inverse.

Strings are sequences of characters. Python dictionaries with fixed keys are
datatypes, except for the metadata: it is a `map<string, string>`, so that "exactly
these five keys" can be stated.

The code does not chunk transcripts or deduplicate documents. It writes no
`is_internal` key and has no fallback for a missing speaker name. The model
follows the code: `Metadata` states that the map has no `is_internal` key,
and `RepeatedTranscriptsKept` that repeated transcripts are kept. Yet the
retrieval tool filters on
that key by default (`chat_with_transcripts/tools.py:19`). The model says only
that the key is never written. The query side is not part of this model.

## Model

| member | source | states |
|---|---|---|
| Text.Join | chat_with_transcripts/pull_transcripts.py:78 | `",".join`: the empty list gives `""`, one part gives itself, otherwise the length is the parts' total length plus one separator between each pair of neighbours |
| Text.SplitJoin | chat_with_transcripts/pull_transcripts.py:78 | splitting the joined string on the separator gives back the list, when the list is not empty and no part holds the separator |
| Text.JoinSplit | chat_with_transcripts/pull_transcripts.py:78 | joining is onto: every string is the join of its own split, so the two are inverse on separator-free lists |
| TranscriptDocument.Content | chat_with_transcripts/pull_transcripts.py:83-85 | the body is empty exactly when there are no sentences, and otherwise ends with `"\n"` |
| TranscriptDocument.Metadata | chat_with_transcripts/pull_transcripts.py:75-81 | the metadata has exactly the keys id, title, participants, dateString, transcript_url and no `is_internal` key; id, title, date and URL are copied unchanged, and participants is the list joined with `","` in order |
| TranscriptDocument.TranscriptToDocument | chat_with_transcripts/pull_transcripts.py:73-87 | the loop that appends one line per sentence yields `Content(sentences)`; the returned id, `metadata["id"]` and the transcript id are equal |
| TranscriptDocument.ContentAppend | chat_with_transcripts/pull_transcripts.py:83-85 | the body of two sentence lists placed one after the other is the two bodies concatenated |
| TranscriptDocument.ContentAt | chat_with_transcripts/pull_transcripts.py:83-85 | for every sentence i, the body is the lines of the sentences before i, then sentence i's `speaker: text` line, then the lines after i; no sentence is dropped or moved |
| TranscriptDocument.ContentFirst | chat_with_transcripts/pull_transcripts.py:83-85 | a non-empty body starts with the first sentence's line, followed by the body of the remaining sentences |
| TranscriptDocument.ContentLength | chat_with_transcripts/pull_transcripts.py:84-85 | the body's length is the sum over sentences of `len(speaker_name) + 2 + len(text) + 1` |
| TranscriptDocument.ContentSplitsIntoLines | chat_with_transcripts/pull_transcripts.py:83-85 | when no speaker name or text holds a line break, `content.split("\n")` is the sentences' `speaker: text` lines in order followed by one empty piece |
| TranscriptDocument.ParticipantsRoundTrip | chat_with_transcripts/pull_transcripts.py:78 | the stored participants string splits back into the participants list when that list is not empty and comma-free |
| TranscriptDocument.MetadataDeterminesHeader | chat_with_transcripts/pull_transcripts.py:75-81 | two transcripts with equal metadata have the same id, title, date and URL and the same joined participants |
| TranscriptDocument.ParticipantsJoinLosesCommas | chat_with_transcripts/pull_transcripts.py:78 | the joined participants string does not show where entries end: `["a,b"]` and `["a", "b"]` are stored alike |
| DocumentBatch.DocumentsOf | chat_with_transcripts/pull_transcripts.py:136-137 | one payload gives one document per transcript, in the payload's order |
| DocumentBatch.AllDocuments | chat_with_transcripts/pull_transcripts.py:130-137 | the accumulated list holds exactly as many documents as transcripts were fetched |
| DocumentBatch.AssembleDocuments | chat_with_transcripts/pull_transcripts.py:130-137 | the nested loop over emails and then transcripts builds `AllDocuments(payloads)`, whose length is the total number of transcripts fetched |
| DocumentBatch.DocumentAt | chat_with_transcripts/pull_transcripts.py:133-137 | transcript k of email e becomes the document at position `Offset(e) + k`: email order first, then payload order |
| DocumentBatch.SourceOf | chat_with_transcripts/pull_transcripts.py:130-137 | every position of the list holds the document of some fetched transcript at that position; nothing else is added |
| DocumentBatch.OffsetsOrdered | chat_with_transcripts/pull_transcripts.py:133 | all documents of an earlier email come before those of a later email |
| DocumentBatch.PositionsDistinct | chat_with_transcripts/pull_transcripts.py:133-137 | two different fetch positions map to two different list positions |
| DocumentBatch.RepeatedTranscriptsKept | chat_with_transcripts/pull_transcripts.py:133-137 | no deduplication: a transcript id fetched twice, for example under two emails, yields two documents with that id, so the ids are not all distinct |
| ChromaColumns.DocumentsContent | chat_with_transcripts/pull_transcripts.py:105 | the contents list has the documents' length and holds `documents[i].content` at every index i |
| ChromaColumns.DocumentsMetadata | chat_with_transcripts/pull_transcripts.py:106 | the metadatas list has the documents' length and holds `documents[i].metadata` at every index i |
| ChromaColumns.DocumentsIds | chat_with_transcripts/pull_transcripts.py:107 | the ids list has the documents' length and holds `documents[i].id` at every index i |
| ChromaColumns.ColumnsRebuild | chat_with_transcripts/pull_transcripts.py:105-107 | zipping the three lists row by row gives back the documents, so the split loses nothing and keeps rows together |
| ChromaColumns.RebuildColumns | chat_with_transcripts/pull_transcripts.py:105-107 | conversely, any three equally long lists are the columns of their zip |
| ChromaColumns.BatchRow | chat_with_transcripts/pull_transcripts.py:105-111 | the row passed to `collection.add` for transcript k of email e holds that transcript's id, metadata and body |
| ChromaColumns.RepeatedIdsReachStore | chat_with_transcripts/pull_transcripts.py:107-111 | a transcript fetched twice puts its id at two different rows of the ids list passed to `collection.add` |

## Left out

- `fetch_transcripts` (`pull_transcripts.py:9-70`) is not modelled. It loads the API key, posts a GraphQL request, and raises when the response has a non-empty `errors` list. All of that is network and environment I/O. Its result is a parameter of `AssembleDocuments`. A failed fetch raises out of `__main__` before anything is stored, so the model covers only runs in which every fetch succeeded.
- The Chroma side is not modelled: client creation, the OpenAI embedding function, `collection.add`, `peek` and `count` (`pull_transcripts.py:97-115`). These are foreign library calls and persistence. So the model does not say what Chroma does with the repeated ids that `RepeatedIdsReachStore` exhibits.
- The `print` calls are not modelled; they are logging.
- Malformed records are not modelled, and the model covers only records whose header fields are strings. A missing key raises `KeyError` (`pull_transcripts.py:76-80`, `:84-85`).
- `Transcript` types `id`, `title`, `dateString` and `transcript_url` as strings, so the model cannot represent a `None` value in these fields. The source does not raise on such a value: `transcript_to_document` copies it into the metadata dict unchanged (`pull_transcripts.py:76-80`). `Metadata`'s contract holds only for string values.
- The model does not represent `None` in the fields the source reads as strings or lists. The source raises `TypeError` for a `None` participants list, for a `None` entry in it (`pull_transcripts.py:78`), for a `None` sentence list (`:84`), and for a `None` speaker name or sentence text (`:85`). In the model every participant, speaker name and text is a string, and both lists are sequences.
- `chat_with_transcripts/tools.py`, `chat.py`, `connect.py` and `collection.py` are not part of this model. They cover the query wrapper, agent orchestration, the users request and the collection lookup.
- Python strings are sequences of code points. The model treats them as sequences of Dafny characters, which does not change joining, concatenation or lengths here.
