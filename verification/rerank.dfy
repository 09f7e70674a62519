/** `rerank_docs` on the backend: asks the reranking service for the top 3
    of the given documents and reshapes its answer into (index, score)
    entries; when the service raises, it falls back to one entry per
    document, in document order, with score 0.

    The reranking service is the parameter `cohere(query, documents,
    top_n)`, returning its results list or None when the call raised.
    Scores are taken as opaque reals. */
module Rerank {
  import opened Common

  /** One element of the service's `response.results`. */
  datatype CohereResult = CohereResult(index: int, relevanceScore: real)

  /** One element of the endpoint's `reranked_docs`. */
  datatype RerankEntry = RerankEntry(index: int, relevanceScore: real)

  /** The `top_n` requested from the service. */
  const TopN: nat := 3

  /** The placeholder score of the fallback ranking. */
  const FallbackScore: real := 0.0

  function Indices(entries: seq<RerankEntry>): (r: seq<int>)
    ensures |r| == |entries|
    ensures forall i :: 0 <= i < |entries| ==> r[i] == entries[i].index
  {
    seq(|entries|, i requires 0 <= i < |entries| => entries[i].index)
  }

  /** The fallback ranking: position i of the documents, score 0. */
  function Fallback(docs: seq<string>): seq<RerankEntry>
  {
    seq(|docs|, i requires 0 <= i < |docs| => RerankEntry(i, FallbackScore))
  }

  function FromResults(results: seq<CohereResult>): seq<RerankEntry>
  {
    seq(|results|, i requires 0 <= i < |results| => RerankEntry(results[i].index, results[i].relevanceScore))
  }

  /** `rerank_docs(question, docs)`. */
  function RerankDocs(question: string, docs: seq<string>,
                      cohere: (string, seq<string>, nat) -> Option<seq<CohereResult>>)
    : (r: seq<RerankEntry>)
    ensures cohere(question, docs, TopN).Some? ==>
      var results := cohere(question, docs, TopN).value;
      && |r| == |results|
      && forall i :: 0 <= i < |r| ==>
           r[i].index == results[i].index && r[i].relevanceScore == results[i].relevanceScore
    ensures cohere(question, docs, TopN).None? ==>
      && |r| == |docs|
      && forall i :: 0 <= i < |r| ==> r[i].index == i && r[i].relevanceScore == 0.0
  {
    match cohere(question, docs, TopN)
    case Some(results) => FromResults(results)
    case None => Fallback(docs)
  }

  /** What the reranking service promises: at most top_n results, each
      naming a position of the documents, no position twice, scores
      non-increasing. */
  predicate HonoursRerank(results: seq<CohereResult>, docs: seq<string>, topN: nat)
  {
    && |results| <= topN
    && (forall i :: 0 <= i < |results| ==> 0 <= results[i].index < |docs|)
    && (forall i, k :: 0 <= i < k < |results| ==> results[i].index != results[k].index)
    && (forall i, k :: 0 <= i < k < |results| ==> results[i].relevanceScore >= results[k].relevanceScore)
  }

  /** Every entry names a position of the documents it was asked about. */
  predicate IndicesWithin(entries: seq<RerankEntry>, n: nat)
  {
    forall i :: 0 <= i < |entries| ==> 0 <= entries[i].index < n
  }

  /** With a service that keeps its promise, both branches yield indices
      that point into `docs`, no index twice, scores non-increasing, and at
      most one entry per document. */
  lemma RerankIndicesValid(question: string, docs: seq<string>,
                           cohere: (string, seq<string>, nat) -> Option<seq<CohereResult>>)
    requires cohere(question, docs, TopN).Some? ==> HonoursRerank(cohere(question, docs, TopN).value, docs, TopN)
    ensures var r := RerankDocs(question, docs, cohere);
            && IndicesWithin(r, |docs|)
            && (forall i, k :: 0 <= i < k < |r| ==> r[i].index != r[k].index)
            && (forall i, k :: 0 <= i < k < |r| ==> r[i].relevanceScore >= r[k].relevanceScore)
  {
  }

  /** On success the output is capped by top_n (given the service keeps its
      promise); the fallback is not capped: it has one entry per document,
      so five documents give five entries. */
  lemma FallbackNotCapped(question: string, docs: seq<string>,
                          cohere: (string, seq<string>, nat) -> Option<seq<CohereResult>>)
    requires cohere(question, docs, TopN).None?
    ensures Indices(RerankDocs(question, docs, cohere)) == Range(|docs|)
    ensures |docs| > TopN ==> |RerankDocs(question, docs, cohere)| > TopN
  {
    var r := RerankDocs(question, docs, cohere);
    assert Indices(r) == Range(|docs|);
  }

  /** [0, 1, ..., n - 1], Python's `range(n)`. */
  function Range(n: nat): (r: seq<int>)
    ensures |r| == n
    ensures forall i :: 0 <= i < n ==> r[i] == i
  {
    seq(n, i => i)
  }
}
