/** `get_retrieved_docs` on the backend: embed the question, query the
    vector index for the 5 nearest records whose pdf_id equals the given
    one, and return the stored metadata of each match in the index's order.
    Any exception (embedding, query, a match without metadata) yields the
    empty list.

    The embedding service is `embedQuery` (None when it raised) and the
    index query is `query(vector, pdf_id filter, top_k)` (None when it
    raised); their internals, similarity ordering included, are not
    modelled. `HonoursQuery` states what a well-behaved index returns for a
    given store. */
module Retrieve {
  import opened Common
  import opened Ingest

  /** One element of the query's `matches`; metadata is None when the key
      is absent. */
  datatype Match = Match(id: string, score: real, metadata: Option<ChunkMeta>)

  /** The `top_k` requested from the index. */
  const TopK: nat := 5

  predicate AllHaveMetadata(matches: seq<Match>)
  {
    forall i :: 0 <= i < |matches| ==> matches[i].metadata.Some?
  }

  function MetadataOf(matches: seq<Match>): seq<ChunkMeta>
    requires AllHaveMetadata(matches)
  {
    seq(|matches|, i requires 0 <= i < |matches| => matches[i].metadata.value)
  }

  /** `get_retrieved_docs(question, pdf_id)`. */
  function GetRetrievedDocs(question: string, pdfId: string, embedQuery: string -> Option<Vector>,
                            query: (Vector, string, nat) -> Option<seq<Match>>)
    : (r: seq<ChunkMeta>)
    ensures embedQuery(question).None? ==> r == []
    ensures embedQuery(question).Some? ==>
      var answer := query(embedQuery(question).value, pdfId, TopK);
      && (answer.None? ==> r == [])
      && (answer.Some? && !AllHaveMetadata(answer.value) ==> r == [])
      && (answer.Some? && AllHaveMetadata(answer.value) ==>
            |r| == |answer.value| &&
            forall i :: 0 <= i < |r| ==> Some(r[i]) == answer.value[i].metadata)
  {
    match embedQuery(question)
    case None => []
    case Some(vector) =>
      match query(vector, pdfId, TopK)
      case None => []
      case Some(matches) => if AllHaveMetadata(matches) then MetadataOf(matches) else []
  }

  /** The index is asked only for the top 5 matches under the given pdf_id:
      two indexes that agree on those queries give the same retrieval. */
  lemma QueryAskedForPdfTopK(question: string, pdfId: string, embedQuery: string -> Option<Vector>,
                             query: (Vector, string, nat) -> Option<seq<Match>>,
                             query': (Vector, string, nat) -> Option<seq<Match>>)
    requires forall v: Vector :: query(v, pdfId, TopK) == query'(v, pdfId, TopK)
    ensures GetRetrievedDocs(question, pdfId, embedQuery, query) == GetRetrievedDocs(question, pdfId, embedQuery, query')
  {
  }

  /** What a well-behaved index returns for `query(.., filter, topK)` over
      the records in `store`: at most topK matches, each the id and metadata
      of a stored record whose pdf_id equals the filter. */
  predicate HonoursQuery(store: seq<IndexRecord>, filter: string, topK: nat, matches: seq<Match>)
  {
    && |matches| <= topK
    && forall i :: 0 <= i < |matches| ==>
         && matches[i].metadata.Some?
         && matches[i].metadata.value.pdfId == filter
         && exists j :: 0 <= j < |store| && store[j].id == matches[i].id
                                          && store[j].metadata == matches[i].metadata.value
  }

  /** With a well-behaved index, retrieval for pdf_id D returns at most 5
      documents, each the metadata of a stored record of D; it never returns
      a document of another pdf_id. */
  lemma RetrievalRespectsFilter(question: string, pdfId: string, store: seq<IndexRecord>,
                                embedQuery: string -> Option<Vector>,
                                query: (Vector, string, nat) -> Option<seq<Match>>)
    requires forall v: Vector, ms: seq<Match> ::
               query(v, pdfId, TopK) == Some(ms) ==> HonoursQuery(store, pdfId, TopK, ms)
    ensures var r := GetRetrievedDocs(question, pdfId, embedQuery, query);
            && |r| <= TopK
            && forall i :: 0 <= i < |r| ==>
                 r[i].pdfId == pdfId && exists j :: 0 <= j < |store| && store[j].metadata == r[i]
  {
    var r := GetRetrievedDocs(question, pdfId, embedQuery, query);
    if embedQuery(question).Some? {
      var answer := query(embedQuery(question).value, pdfId, TopK);
      if answer.Some? && AllHaveMetadata(answer.value) {
        var ms := answer.value;
        assert HonoursQuery(store, pdfId, TopK, ms);
        forall i | 0 <= i < |r|
          ensures r[i].pdfId == pdfId && exists j :: 0 <= j < |store| && store[j].metadata == r[i]
        {
          assert Some(r[i]) == ms[i].metadata;
          var j :| 0 <= j < |store| && store[j].id == ms[i].id && store[j].metadata == ms[i].metadata.value;
          assert store[j].metadata == r[i];
        }
      }
    }
  }
}
