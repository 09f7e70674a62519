# PDF chatbot RAG pipeline — Dafny model

This project models the data-shaping logic of a retrieval-augmented PDF
chatbot. The system has a FastAPI backend (`backend/app.py`) and a
Streamlit frontend (`frontend/main.py`). The model covers:

- **Ingestion** (`Ingest`). `process_pdf` accepts a file only if its
  lower-cased name ends in `.pdf`. It draws one pdf_id, then turns every
  split of every page into a chunk record: text, source file name, pdf_id
  and 1-based page number. `add_embeddings` embeds all chunk texts in one
  call. It wraps chunk i into the record (fresh id, embedding i, chunk i)
  and upserts the records in batches of 100.
- **Reranking** (`Rerank`). `rerank_docs` asks the reranking service for
  the top 3 documents. It maps the service's results, in order, to
  (index, relevance_score) entries. If the service raises, it returns one
  entry per document, in document order, each with score 0.
- **Retrieval** (`Retrieve`). `get_retrieved_docs` embeds the question. It
  then queries the index for 5 matches filtered on pdf_id and returns each
  match's stored metadata in the index's order. Any exception gives the
  empty list.
- **Answer assembly** (`Answer`). The frontend builds the context by
  joining, with a blank line, the texts `retrieved_docs[r.index]` of the
  reranked entries r. It builds one citation (text, page) per reranked
  entry from the same indices. The chat model gets two messages: the
  system prompt with the context filled in, and the user question. The
  streamed answer is accumulated token by token. Indexing follows Python:
  a negative index counts from the end, and any other out-of-range index
  raises.
- **Session** (`Session`). The upload is posted only while pdf_id is
  unset. pdf_id is set only from a reply with status 200. A question turn
  always appends the user message. It appends the assistant message, with
  its citations, only when every step succeeded.
- **Wiring** (`Pipeline`). These lemmas connect the backend endpoints to
  the frontend turn. They follow a document from ingestion to the
  citations shown under an answer.

The external services are function parameters: the PDF reader's per-page
text, the text splitter, the embedding service, the vector index's upsert
and query, the reranking service, the chat model and `uuid.uuid4`. A
parameter returns `None` (or `false`) when the call raised. `uuid(k)` is
the k-th identifier drawn: the pdf_id is `uuid(0)` and record i gets
`uuid(i + 1)`, which is the order the code draws them in. Scores are opaque
reals and vectors are sequences of reals.

Behaviours of the code worth knowing, which the model keeps as written:

- When the reranking service fails, the code returns an entry for **every**
  document (`range(len(docs))`). The fallback is not capped at top_n (3). `Rerank.FallbackNotCapped`
  states this: more than 3 documents give more than 3 entries. By
  `Pipeline.WiredTurnAnswers`, the answer then has one citation per entry.
- When ingestion fails after the pdf_id was drawn, the code reports only
  "Failed to process pdf". It does not report the allocated pdf_id.
- The chunk size (1000) and overlap (0) are settings of a library
  splitter. The splitter's behaviour is not part of this model.

## Model

| member | source | states |
|---|---|---|
| `Ingest.AcceptsFilename` | backend/app.py:68-69 | A file name is accepted exactly when its last four characters are `.`, then `p`/`P`, `d`/`D`, `f`/`F`, i.e. it ends in `.pdf` in any letter case |
| `Ingest.ChunksOfPages` | backend/app.py:79-88 | The chunk list has one record per split, so its length is the sum of the per-page split counts. Every record carries the given source and pdf_id, and a page number in 1..number of pages |
| `Ingest.BuildChunks` | backend/app.py:77-88 | The nested page/split loop with one append per split builds exactly the page-ordered chunk list |
| `Ingest.ChunkPosition` | backend/app.py:79-88 | Split j of page p sits at position (splits of pages before p) + j, with page p+1 and the shared source and pdf_id. So chunks are ordered by page, then by split order |
| `Ingest.PagesNonDecreasing` | backend/app.py:79-88 | Page numbers never decrease along the chunk list |
| `Ingest.ChunkOrigin` | backend/app.py:80-87 | Every chunk's text is one of the splits of the page its page number names, and that number lies in 1..number of pages |
| `Ingest.TwoPageExample` | backend/app.py:79-88 | Two pages splitting into 3 and 2 pieces give 5 chunks with pages 1,1,1,2,2 and one shared pdf_id |
| `Ingest.WrapRecords` | backend/app.py:42-48 | Wrapping succeeds exactly when there are at least as many embeddings as chunks (otherwise `embeddings[i]` raises). Record i then has the identifier of draw number firstDraw + i and embedding i, and its metadata, read back, is the original chunk list |
| `Ingest.AddEmbeddings` | backend/app.py:39-50 | The records are produced only if the one embedding call over the chunk texts succeeds, returns enough vectors and the upsert (batch size 100) succeeds. They preserve length and order, and metadata i is chunk i unchanged |
| `Ingest.IngestPages` | backend/app.py:71-93 | After the guard: an unreadable file gives "Failed to process pdf". A readable file is processed exactly when embedding and upserting its page-ordered chunks succeeds, and the records are the ones upserted. On success the pdf_id is the first id drawn, the records' metadata is the page-ordered chunk list, and record i carries the (i+1)-th id |
| `Ingest.ProcessPdf` | backend/app.py:66-93 | A name without `.pdf` is rejected with "Invalid file type" before anything is read, and only such a name is. Any other name gets the outcome of the ingestion body |
| `Ingest.ProcessedProvenance` | backend/app.py:75-89 | After a successful ingestion, every record shares the returned pdf_id and the file name as source, and has a page in 1..number of pages. There is one record per split |
| `Ingest.RecordIdsFresh` | backend/app.py:42-48 | With a collision-free id supply, record ids are pairwise distinct and differ from the pdf_id |
| `Rerank.RerankDocs` | backend/app.py:53-64 | On success the entries are the service's results in order, each (index, relevance_score), none added or dropped. On failure there is one entry per document, entry i has index i and score 0 |
| `Rerank.RerankIndicesValid` | backend/app.py:56-64 | If the service keeps its promise, both branches give indices into the documents, no index twice, and non-increasing scores |
| `Rerank.FallbackNotCapped` | backend/app.py:63-64 | The fallback's indices are exactly `range(len(docs))`. With more than 3 documents it has more than top_n entries |
| `Retrieve.GetRetrievedDocs` | backend/app.py:96-112 | An embedding failure, a query failure or a match without metadata gives the empty list. Otherwise the result is each match's metadata, in the index's order |
| `Retrieve.QueryAskedForPdfTopK` | backend/app.py:101-107 | The index is queried only with the pdf_id equality filter and top_k 5: indexes that agree on those queries give the same result |
| `Retrieve.RetrievalRespectsFilter` | backend/app.py:100-110 | If the index honours the pdf_id filter and top_k=5, retrieval returns at most 5 documents. Each is the metadata of a stored record with that pdf_id |
| `Answer.Resolve` | frontend/main.py:102 | Looking up the reranked indices succeeds exactly when every index is a valid Python index. The result then lists, in reranked order, the retrieved documents they point at |
| `Answer.BuildCitations` | frontend/main.py:129 | The citation list exists exactly when every reranked index is a valid Python index. It then has one citation per reranked entry, in the same order, with the text and page of the document that index points at |
| `Answer.BuildContext` | frontend/main.py:102 | The context exists exactly when the citations do. It is then the citation texts joined by a blank line, so context and citations always agree |
| `Answer.EmptyRerankedEmptyContext` | frontend/main.py:102-129 | No reranked entry gives the empty context and no citation |
| `Answer.CitedPassageInContext` | frontend/main.py:102-129 | Each cited text appears in the context, at the offset left by the passages and separators before it |
| `Answer.BuildMessages` | frontend/main.py:104 | Exactly two messages go to the model: a system message from which the context is read back unchanged (the prompt with the context substituted), then the user question |
| `Answer.TokenOf` | frontend/main.py:113-121 | A chunk raises out of the loop exactly when it is a bare object that rejects `+ " "`. It adds no text exactly when it is a None delta or a bare None. A delta's string is taken as is, a bare string gets one trailing space |
| `Answer.StreamAnswer` | frontend/main.py:107-123 | The accumulated answer exists exactly when no chunk of the stream raises |
| `Answer.StreamAnswerIsConcat` | frontend/main.py:107-123 | The accumulation completes exactly when no chunk raises. The answer is then the in-order concatenation of the chunks' texts: a delta's string as is, a bare string with a trailing space, nothing for None |
| `Answer.NoneTokenContributesNothing` | frontend/main.py:111-121 | Inserting a None token anywhere in the stream leaves the answer unchanged |
| `Answer.AccumulateTokens` | frontend/main.py:107-123 | The loop returns the accumulated answer exactly when the stream does not raise. Each text shown along the way is the answer so far and a prefix of the final answer. When a chunk raises, one text was shown for each chunk before it, and that chunk is the one that raised |
| `Session.Upload` | frontend/main.py:51-62 | The file is posted exactly when one is chosen and pdf_id is unset. pdf_id changes only after a posted upload whose reply has status 200, and it takes the reply's `pdf_id`. The history is untouched |
| `Session.FirstUploadFromInitial` | frontend/main.py:22-62 | A fresh session (no pdf_id, empty history) cannot chat. A chosen file is posted, and no upload happens without one. A 200 reply with a JSON object sets pdf_id to its `pdf_id` with the history still empty, and chatting is enabled exactly when that pdf_id is a non-empty string |
| `Session.UploadOnlyOnce` | frontend/main.py:51-57 | Once pdf_id is set, later uploads are not posted and change nothing |
| `Session.AnswerFromDocs` | frontend/main.py:100-130 | After a 200 retrieval, the turn is answered exactly when the rerank call returns, every reranked index is valid, the chat call returns and its stream does not raise. The assistant message then holds the streamed answer and the citations. Any other path is the error branch and changes nothing |
| `Session.AskQuestion` | frontend/main.py:79-144 | With no usable pdf_id or an empty question nothing happens. Otherwise the user message is appended. A non-200 retrieval reply, and only that, gives "Failed to get the answer.". A 200 reply whose rerank, index lookups, chat call and stream all succeed is answered. An answer, and only an answer, appends the assistant message with the streamed answer of the two-message request and the citations of the reranked entries |
| `Session.InvalidIndexEndsTurn` | frontend/main.py:97-144 | A reranked index outside the retrieved list ends the turn in the error branch with only the user message added, whatever the chat model would answer |
| `Session.RerankAskedAboutRetrievedTexts` | frontend/main.py:101 | The reranker is consulted only on (question, the retrieved texts in retrieval order) |
| `Pipeline.WiredTurnAnswers` | frontend/main.py:101-129 | With the backend's rerank endpoint, an honest reranking service and a completing stream, the turn is answered. It has one citation per reranked entry and never more citations than retrieved documents |
| `Pipeline.EmptyRetrievalNoCitations` | frontend/main.py:100-129 | Empty retrieval gives no reranked entry. The model is asked with an empty context and the answer has no citations |
| `Pipeline.RetrievedFromPages` | backend/app.py:100-110 | If the index is honest and holds no other record under the pdf_id, the documents retrieved for an ingested pdf_id come from that document's pages and splits |
| `Pipeline.RecordsFromPages` | backend/app.py:79-89 | Every record of a successful ingestion has a page of the document and a text the splitter produced for that page |
| `Pipeline.AnsweredTurnCitesPages` | frontend/main.py:125-130 | An answered turn's citations have the provenance shared by all documents of the retrieval reply |
| `Pipeline.CitationsFromPages` | frontend/main.py:129 | Citations inherit the page and text provenance of the retrieved documents |
| `Pipeline.CitationsTraceToIngestion` | frontend/main.py:125-130 | End to end, every citation of an answer names a page of the ingested document and carries a text the splitter produced for that page |

## Left out

- PDF text extraction, the text splitter, the embedding service, the
  vector index, the reranking service and the chat model are parameters.
  Their internals (similarity ordering, scoring, chunk size 1000 with
  overlap 0, token generation) are not modelled.
- HTTP transport is not modelled. This covers FastAPI routing, the
  `(dict, 500)` tuple returns and how backend outcomes become status codes
  and JSON bodies. The frontend sees each reply as a parameter. The wiring
  lemmas assume the retrieval endpoint answers 200 with its list, as its
  handler catches every exception. `Pipeline.BackendRetrieve` and
  `Pipeline.BackendRerank` are the stand-ins for the two endpoints that the
  wiring lemmas use. They wrap the backend functions and compute nothing
  of their own.
- `uuid.uuid4` is not modelled as random. It is an abstract supply of
  identifiers, and freshness is a hypothesis where it is needed.
- `time.sleep(3)` and the index's eventual consistency are timing, not
  logic.
- `.env` loading, `print` calls, and Streamlit rendering (markdown, HTML,
  avatars, expanders, and redisplaying history and citations at lines
  67-77 and 132-139) are output only.
- Ingest.AcceptsFilename: lower-casing is ASCII only. Python's `str.lower`
  also folds non-ASCII letters. No non-ASCII character lowercases to `.`,
  `p`, `d` or `f`, but this is not proved.
- Answer.TokenOf: a bare stream chunk is one of the three kinds below.
  Other Python objects are not represented.
- Answer.StreamAnswerIsConcat: a bare stream chunk is modelled as a
  string, None, or an object that rejects `+ " "`. An object that accepts
  `+ " "` without becoming a string is not represented. Such an object
  would contribute nothing.
- The index returns numeric metadata as floats, so a page comes back as
  `1.0`. The model keeps pages as integers.
- Cancelling a stream mid-flight and concurrent requests are not
  modelled. Every turn is one sequential evaluation.
- The frontend's `type=["pdf"]` filter on the file picker is a UI
  restriction. The model relies on the backend's own name check.
