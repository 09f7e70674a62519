/** The backend endpoints wired into the frontend turn, as the deployed
    system connects them: the retrieval endpoint always answers 200 with
    `get_retrieved_docs`, the rerank endpoint always answers with
    `rerank_docs`. These lemmas follow a document from ingestion to the
    citations shown under an answer. */
module Pipeline {
  import opened Common
  import opened Ingest
  import opened Rerank
  import opened Retrieve
  import opened Answer
  import opened Session

  /** Stand-in for the `/get_retrieved_docs` endpoint as the frontend
      sees it: status 200 with `get_retrieved_docs`, whose handler catches
      every exception. */
  function BackendRetrieve(embedQuery: string -> Option<Vector>,
                           query: (Vector, string, nat) -> Option<seq<Match>>)
    : (string, string) -> Option<HttpReply<seq<ChunkMeta>>>
  {
    (pdfId: string, question: string) => Some(HttpReply(200, GetRetrievedDocs(question, pdfId, embedQuery, query)))
  }

  /** Stand-in for the `/get_reranked_docs` endpoint as the frontend sees
      it: the reply of `rerank_docs`, which never raises. */
  function BackendRerank(cohere: (string, seq<string>, nat) -> Option<seq<CohereResult>>)
    : (string, seq<string>) -> Option<seq<RerankEntry>>
  {
    (question: string, docs: seq<string>) => Some(RerankDocs(question, docs, cohere))
  }

  /** With the backend's own rerank endpoint and a reranking service that
      keeps its promise, every reranked index points into the retrieved
      list, in the success branch and in the fallback alike; so a turn whose
      chat stream completes always ends Answered, with one citation per
      reranked entry and never more than one per retrieved document. */
  lemma WiredTurnAnswers(s: State, question: string,
                         retrieve: (string, string) -> Option<HttpReply<seq<ChunkMeta>>>,
                         cohere: (string, seq<string>, nat) -> Option<seq<CohereResult>>,
                         chat: seq<Message> -> Option<seq<StreamChunk>>)
    requires ChatEnabled(s) && question != ""
    requires retrieve(s.pdfId.value, question).Some? && retrieve(s.pdfId.value, question).value.status == 200
    requires forall docs: seq<string>, res: seq<CohereResult> ::
               cohere(question, docs, TopN) == Some(res) ==> HonoursRerank(res, docs, TopN)
    requires forall m: seq<Message> :: chat(m).Some? && NoRaise(chat(m).value)
    ensures var r := AskQuestion(s, question, retrieve, BackendRerank(cohere), chat);
            var docs := retrieve(s.pdfId.value, question).value.body;
            && r.outcome == Answered
            && |r.state.history[|s.history| + 1].citations| == |RerankDocs(question, Texts(docs), cohere)|
            && |r.state.history[|s.history| + 1].citations| <= |docs|
  {
    var docs := retrieve(s.pdfId.value, question).value.body;
    var texts := Texts(docs);
    var reranked := RerankDocs(question, texts, cohere);
    RerankIndicesValid(question, texts, cohere);
    assert BackendRerank(cohere)(question, texts) == Some(reranked);
    forall i | 0 <= i < |reranked|
      ensures PyIndex(docs, reranked[i].index).Some?
    {
      assert 0 <= reranked[i].index < |docs|;
    }
    var context := BuildContext(docs, reranked).value;
    StreamAnswerIsConcat(chat(BuildMessages(context, question)).value);
    DistinctIndicesBounded(reranked, |docs|);
  }

  /** The degraded turn: when retrieval finds nothing (an unknown pdf_id, or
      a failing index), the rerank endpoint returns no entry, the model is
      asked with an empty context, and the answer carries no citation. */
  lemma EmptyRetrievalNoCitations(s: State, question: string,
                                  retrieve: (string, string) -> Option<HttpReply<seq<ChunkMeta>>>,
                                  cohere: (string, seq<string>, nat) -> Option<seq<CohereResult>>,
                                  chat: seq<Message> -> Option<seq<StreamChunk>>)
    requires ChatEnabled(s) && question != ""
    requires retrieve(s.pdfId.value, question) == Some(HttpReply(200, []))
    requires cohere(question, [], TopN).Some? ==> HonoursRerank(cohere(question, [], TopN).value, [], TopN)
    ensures RerankDocs(question, [], cohere) == []
    ensures var r := AskQuestion(s, question, retrieve, BackendRerank(cohere), chat);
            r.outcome == Answered ==>
              r.state.history[|s.history| + 1]
              == AssistantEntry(StreamAnswer(chat(BuildMessages("", question)).value).value, [])
  {
    var empty: seq<ChunkMeta> := [];
    assert Texts(empty) == [];
    RerankIndicesValid(question, [], cohere);
    DistinctIndicesBounded(RerankDocs(question, [], cohere), 0);
    assert BackendRerank(cohere)(question, []) == Some([]);
    EmptyRerankedEmptyContext(empty);
  }

  /** Entries with pairwise distinct indices in [0, n) number at most n. */
  lemma DistinctIndicesBounded(entries: seq<RerankEntry>, n: nat)
    requires IndicesWithin(entries, n)
    requires forall i, k :: 0 <= i < k < |entries| ==> entries[i].index != entries[k].index
    ensures |entries| <= n
  {
    var idx := set i | 0 <= i < |entries| :: entries[i].index;
    InjectiveImageSize(entries);
    BoundedSetSize(idx, n);
  }

  /** {0, 1, ..., n - 1}. */
  function RangeSet(n: nat): (r: set<int>)
    ensures |r| == n
    ensures forall x :: x in r <==> 0 <= x < n
  {
    if n == 0 then {} else RangeSet(n - 1) + {n - 1}
  }

  /** A set of integers drawn from [0, n) has at most n elements. */
  lemma BoundedSetSize(xs: set<int>, n: nat)
    requires forall x :: x in xs ==> 0 <= x < n
    ensures |xs| <= n
  {
    var all := RangeSet(n);
    assert xs <= all;
    assert all == xs + (all - xs);
  }

  /** Pairwise distinct indices: as many indices as entries. */
  lemma {:induction false} InjectiveImageSize(entries: seq<RerankEntry>)
    requires forall i, k :: 0 <= i < k < |entries| ==> entries[i].index != entries[k].index
    ensures |set i | 0 <= i < |entries| :: entries[i].index| == |entries|
    decreases |entries|
  {
    if |entries| > 0 {
      var front := entries[..|entries| - 1];
      InjectiveImageSize(front);
      var last := entries[|entries| - 1].index;
      var sf := set i | 0 <= i < |front| :: front[i].index;
      var se := set i | 0 <= i < |entries| :: entries[i].index;
      assert se == sf + {last} by {
        forall x | x in se ensures x in sf + {last} {
          var i :| 0 <= i < |entries| && entries[i].index == x;
          if i < |front| { assert front[i] == entries[i]; }
        }
        forall x | x in sf ensures x in se {
          var i :| 0 <= i < |front| && front[i].index == x;
          assert entries[i] == front[i];
        }
      }
      forall i | 0 <= i < |front| ensures front[i].index != last {
        assert front[i] == entries[i];
      }
      assert last !in sf;
    }
  }

  /** A document whose page and text come from the given pages. */
  predicate FromPages(d: ChunkMeta, pages: seq<string>, split: string -> seq<string>)
  {
    1 <= d.page <= |pages| && d.text in split(pages[d.page - 1])
  }

  /** Every record of an ingestion comes from its pages. */
  lemma RecordsFromPages(filename: string, pages: seq<string>, split: string -> seq<string>,
                         embed: seq<string> -> Option<seq<Vector>>,
                         upsert: (seq<IndexRecord>, nat) -> bool, uuid: nat -> string)
    requires ProcessPdf(filename, Some(pages), split, embed, upsert, uuid).Processed?
    ensures var records := ProcessPdf(filename, Some(pages), split, embed, upsert, uuid).records;
            forall k :: 0 <= k < |records| ==> FromPages(records[k].metadata, pages, split)
  {
    var ing := ProcessPdf(filename, Some(pages), split, embed, upsert, uuid);
    assert ing == IngestPages(filename, Some(pages), split, embed, upsert, uuid);
    var chunks := ChunksOfPages(pages, split, filename, uuid(0));
    assert Metadata(ing.records) == chunks;
    forall k | 0 <= k < |ing.records| ensures FromPages(ing.records[k].metadata, pages, split) {
      assert Metadata(ing.records)[k] == ing.records[k].metadata;
      ChunkOrigin(pages, split, filename, uuid(0), k);
    }
  }

  /** Whatever an honest index returns for the pdf_id of an ingestion
      comes from that ingestion's pages, provided no other stored record
      carries that pdf_id. */
  lemma RetrievedFromPages(filename: string, pages: seq<string>, split: string -> seq<string>,
                           embed: seq<string> -> Option<seq<Vector>>,
                           upsert: (seq<IndexRecord>, nat) -> bool, uuid: nat -> string,
                           store: seq<IndexRecord>, question: string,
                           embedQuery: string -> Option<Vector>,
                           query: (Vector, string, nat) -> Option<seq<Match>>)
    requires ProcessPdf(filename, Some(pages), split, embed, upsert, uuid).Processed?
    requires forall j :: 0 <= j < |store| && store[j].metadata.pdfId == uuid(0) ==>
               store[j] in ProcessPdf(filename, Some(pages), split, embed, upsert, uuid).records
    requires forall v: Vector, ms: seq<Match> ::
               query(v, uuid(0), TopK) == Some(ms) ==> HonoursQuery(store, uuid(0), TopK, ms)
    ensures var docs := GetRetrievedDocs(question, uuid(0), embedQuery, query);
            forall m :: 0 <= m < |docs| ==> FromPages(docs[m], pages, split)
  {
    var records := ProcessPdf(filename, Some(pages), split, embed, upsert, uuid).records;
    RecordsFromPages(filename, pages, split, embed, upsert, uuid);
    var docs := GetRetrievedDocs(question, uuid(0), embedQuery, query);
    RetrievalRespectsFilter(question, uuid(0), store, embedQuery, query);
    forall m | 0 <= m < |docs| ensures FromPages(docs[m], pages, split) {
      var j :| 0 <= j < |store| && store[j].metadata == docs[m];
      assert store[j] in records;
      var k :| 0 <= k < |records| && records[k] == store[j];
      assert FromPages(records[k].metadata, pages, split);
    }
  }

  /** Every citation names a page of `pages` and carries a split of it. */
  predicate CitesPages(cs: seq<Citation>, pages: seq<string>, split: string -> seq<string>)
  {
    forall i :: 0 <= i < |cs| ==> 1 <= cs[i].pageNum <= |pages| && cs[i].text in split(pages[cs[i].pageNum - 1])
  }

  /** Citations inherit the provenance of the retrieved documents. */
  lemma CitationsFromPages(docs: seq<ChunkMeta>, reranked: seq<RerankEntry>,
                           pages: seq<string>, split: string -> seq<string>)
    requires forall m :: 0 <= m < |docs| ==> FromPages(docs[m], pages, split)
    requires BuildCitations(docs, reranked).Some?
    ensures CitesPages(BuildCitations(docs, reranked).value, pages, split)
  {
    var cs := BuildCitations(docs, reranked).value;
    forall i | 0 <= i < |cs|
      ensures 1 <= cs[i].pageNum <= |pages| && cs[i].text in split(pages[cs[i].pageNum - 1])
    {
      var d := PyIndex(docs, reranked[i].index).value;
      var m :| 0 <= m < |docs| && docs[m] == d;
      assert FromPages(docs[m], pages, split);
    }
  }

  /** An answered turn cites only documents of the retrieval reply. */
  lemma AnsweredTurnCitesPages(s: State, question: string,
                               retrieve: (string, string) -> Option<HttpReply<seq<ChunkMeta>>>,
                               rerank: (string, seq<string>) -> Option<seq<RerankEntry>>,
                               chat: seq<Message> -> Option<seq<StreamChunk>>,
                               pages: seq<string>, split: string -> seq<string>)
    requires AskQuestion(s, question, retrieve, rerank, chat).outcome == Answered
    requires var docs := retrieve(s.pdfId.value, question).value.body;
             forall m :: 0 <= m < |docs| ==> FromPages(docs[m], pages, split)
    ensures var r := AskQuestion(s, question, retrieve, rerank, chat);
            CitesPages(r.state.history[|s.history| + 1].citations, pages, split)
  {
    var docs := retrieve(s.pdfId.value, question).value.body;
    CitationsFromPages(docs, rerank(question, Texts(docs)).value, pages, split);
  }

  /** Provenance end to end: a document ingested by `process_pdf`, asked
      about through the backend's retrieval endpoint over an index that
      keeps its filter promise and holds no other record under that pdf_id.
      Every citation of the answer then names a page of that document and
      carries a text the splitter produced for that very page. */
  lemma CitationsTraceToIngestion(filename: string, pages: seq<string>, split: string -> seq<string>,
                                  embed: seq<string> -> Option<seq<Vector>>,
                                  upsert: (seq<IndexRecord>, nat) -> bool, uuid: nat -> string,
                                  store: seq<IndexRecord>, s: State, question: string,
                                  embedQuery: string -> Option<Vector>,
                                  query: (Vector, string, nat) -> Option<seq<Match>>,
                                  rerank: (string, seq<string>) -> Option<seq<RerankEntry>>,
                                  chat: seq<Message> -> Option<seq<StreamChunk>>)
    requires ProcessPdf(filename, Some(pages), split, embed, upsert, uuid).Processed?
    requires s.pdfId == Some(uuid(0))
    requires forall j :: 0 <= j < |store| && store[j].metadata.pdfId == uuid(0) ==>
               store[j] in ProcessPdf(filename, Some(pages), split, embed, upsert, uuid).records
    requires forall v: Vector, ms: seq<Match> ::
               query(v, uuid(0), TopK) == Some(ms) ==> HonoursQuery(store, uuid(0), TopK, ms)
    requires AskQuestion(s, question, BackendRetrieve(embedQuery, query), rerank, chat).outcome == Answered
    ensures var r := AskQuestion(s, question, BackendRetrieve(embedQuery, query), rerank, chat);
            CitesPages(r.state.history[|s.history| + 1].citations, pages, split)
  {
    var retrieve := BackendRetrieve(embedQuery, query);
    var docs := GetRetrievedDocs(question, uuid(0), embedQuery, query);
    assert retrieve(uuid(0), question).value.body == docs;
    RetrievedFromPages(filename, pages, split, embed, upsert, uuid, store, question, embedQuery, query);
    AnsweredTurnCitesPages(s, question, retrieve, rerank, chat, pages, split);
  }
}
