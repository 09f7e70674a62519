/** Ingestion on the backend: `process_pdf` turns the per-page text of an
    uploaded PDF into chunk records carrying provenance (text, source file,
    one shared pdf_id, 1-based page number), and `add_embeddings` wraps each
    chunk into an index record (id, vector, metadata) before the upsert.

    The PDF reader, the text splitter, the embedding service, the vector
    index upsert and `uuid.uuid4` are parameters: the reader's per-page
    text is an input (None when reading raised), `split` stands for
    `splitter.split_text`, `embed` and `upsert` return None / false when the
    service raised, and `uuid(k)` is the k-th identifier drawn. */
module Ingest {
  import opened Common

  type Vector = seq<real>

  /** The metadata dict of one chunk: {"text", "source", "pdf_id", "page"}. */
  datatype ChunkMeta = ChunkMeta(text: string, source: string, pdfId: string, page: int)

  /** One record handed to the index: {"id", "values", "metadata"}. */
  datatype IndexRecord = IndexRecord(id: string, values: Vector, metadata: ChunkMeta)

  /** The three ways `process_pdf` can answer. */
  datatype IngestOutcome =
    | InvalidFileType                                   // {"error": "Invalid file type"}
    | FailedToProcess                                   // {"error": "Failed to process pdf"}
    | Processed(pdfId: string, records: seq<IndexRecord>) // {"success": ..., "pdf_id": ...}

  const PdfSuffix: string := ".pdf"

  /** Upsert batch size passed to the index. */
  const UpsertBatchSize: nat := 100

  /** The extension guard: `filename.lower().endswith('.pdf')`. */
  function AcceptsFilename(filename: string): (ok: bool)
    ensures ok <==>
      && |filename| >= 4
      && filename[|filename| - 4] == '.'
      && filename[|filename| - 3] in {'p', 'P'}
      && filename[|filename| - 2] in {'d', 'D'}
      && filename[|filename| - 1] in {'f', 'F'}
  {
    var low := Lower(filename);
    var n := |filename|;
    assert n >= 4 ==> low[n - 4..] == [low[n - 4], low[n - 3], low[n - 2], low[n - 1]];
    EndsWith(low, PdfSuffix)
  }

  /** The chunk records of one page, in split order. */
  function PageChunks(splits: seq<string>, source: string, pdfId: string, page: int): (r: seq<ChunkMeta>)
    ensures |r| == |splits|
    ensures forall j :: 0 <= j < |splits| ==> r[j] == ChunkMeta(splits[j], source, pdfId, page)
  {
    seq(|splits|, j requires 0 <= j < |splits| => ChunkMeta(splits[j], source, pdfId, page))
  }

  /** Total number of splits over the given pages. */
  function SplitCount(pages: seq<string>, split: string -> seq<string>): nat
    decreases |pages|
  {
    if |pages| == 0 then 0
    else SplitCount(pages[..|pages| - 1], split) + |split(pages[|pages| - 1])|
  }

  /** The chunk list the page loop of `process_pdf` builds: the pages in
      order, each contributing its splits tagged with its 1-based number. */
  function ChunksOfPages(pages: seq<string>, split: string -> seq<string>, source: string, pdfId: string)
    : (r: seq<ChunkMeta>)
    ensures |r| == SplitCount(pages, split)
    ensures forall i :: 0 <= i < |r| ==>
      r[i].source == source && r[i].pdfId == pdfId && 1 <= r[i].page <= |pages|
    decreases |pages|
  {
    if |pages| == 0 then []
    else
      ChunksOfPages(pages[..|pages| - 1], split, source, pdfId)
      + PageChunks(split(pages[|pages| - 1]), source, pdfId, |pages|)
  }

  /** The page loop of `process_pdf` (one append per split). */
  method BuildChunks(pages: seq<string>, split: string -> seq<string>, source: string, pdfId: string)
    returns (chunks: seq<ChunkMeta>)
    ensures chunks == ChunksOfPages(pages, split, source, pdfId)
  {
    chunks := [];
    var pageNum := 0;
    while pageNum < |pages|
      invariant 0 <= pageNum <= |pages|
      invariant chunks == ChunksOfPages(pages[..pageNum], split, source, pdfId)
    {
      var pageSplits := split(pages[pageNum]);
      var k := 0;
      while k < |pageSplits|
        invariant 0 <= k <= |pageSplits|
        invariant chunks == ChunksOfPages(pages[..pageNum], split, source, pdfId)
                            + PageChunks(pageSplits[..k], source, pdfId, pageNum + 1)
      {
        chunks := chunks + [ChunkMeta(pageSplits[k], source, pdfId, pageNum + 1)];
        k := k + 1;
      }
      assert pageSplits[..k] == pageSplits;
      assert pages[..pageNum + 1][..pageNum] == pages[..pageNum];
      pageNum := pageNum + 1;
    }
    assert pages[..pageNum] == pages;
  }

  /** Where a split lands: split j of page p (0-based) is the chunk at
      position SplitCount(pages[..p]) + j, carries page p + 1 and the shared
      source and pdf_id. So chunks are ordered by page, then by split. */
  lemma {:induction false} ChunkPosition(pages: seq<string>, split: string -> seq<string>,
                                         source: string, pdfId: string, p: nat, j: nat)
    requires p < |pages| && j < |split(pages[p])|
    ensures var r := ChunksOfPages(pages, split, source, pdfId);
            var off := SplitCount(pages[..p], split);
            off + j < |r| && r[off + j] == ChunkMeta(split(pages[p])[j], source, pdfId, p + 1)
    decreases |pages|
  {
    var n := |pages|;
    var front := pages[..n - 1];
    var r := ChunksOfPages(pages, split, source, pdfId);
    if p == n - 1 {
      assert pages[..p] == front;
    } else {
      ChunkPosition(front, split, source, pdfId, p, j);
      assert front[p] == pages[p];
      assert front[..p] == pages[..p];
      SplitCountPrefix(pages, split, p);
    }
  }

  /** The splits of earlier pages never outnumber those of all pages. */
  lemma {:induction false} SplitCountPrefix(pages: seq<string>, split: string -> seq<string>, p: nat)
    requires p <= |pages|
    ensures SplitCount(pages[..p], split) <= SplitCount(pages, split)
    decreases |pages|
  {
    if p < |pages| {
      var front := pages[..|pages| - 1];
      SplitCountPrefix(front, split, p);
      assert front[..p] == pages[..p];
    } else {
      assert pages[..p] == pages;
    }
  }

  /** Every chunk comes from a split of the page it names. */
  lemma {:induction false} ChunkOrigin(pages: seq<string>, split: string -> seq<string>,
                                       source: string, pdfId: string, i: nat)
    requires i < |ChunksOfPages(pages, split, source, pdfId)|
    ensures var c := ChunksOfPages(pages, split, source, pdfId)[i];
            1 <= c.page <= |pages| && c.text in split(pages[c.page - 1])
    decreases |pages|
  {
    var front := pages[..|pages| - 1];
    var a := ChunksOfPages(front, split, source, pdfId);
    var b := PageChunks(split(pages[|pages| - 1]), source, pdfId, |pages|);
    assert ChunksOfPages(pages, split, source, pdfId) == a + b;
    if i < |a| {
      ChunkOrigin(front, split, source, pdfId, i);
      assert (a + b)[i] == a[i];
      assert front[a[i].page - 1] == pages[a[i].page - 1];
    } else {
      assert (a + b)[i] == b[i - |a|];
    }
  }

  predicate PagesSorted(chunks: seq<ChunkMeta>)
  {
    forall i, k :: 0 <= i <= k < |chunks| ==> chunks[i].page <= chunks[k].page
  }

  /** Page numbers never decrease along the chunk list. */
  lemma {:induction false} PagesNonDecreasing(pages: seq<string>, split: string -> seq<string>,
                                              source: string, pdfId: string)
    ensures PagesSorted(ChunksOfPages(pages, split, source, pdfId))
    decreases |pages|
  {
    if |pages| > 0 {
      var front := pages[..|pages| - 1];
      PagesNonDecreasing(front, split, source, pdfId);
      var a := ChunksOfPages(front, split, source, pdfId);
      var b := PageChunks(split(pages[|pages| - 1]), source, pdfId, |pages|);
      var r := a + b;
      assert r == ChunksOfPages(pages, split, source, pdfId);
      forall i, k | 0 <= i <= k < |r|
        ensures r[i].page <= r[k].page
      {
        if k >= |a| {
          assert r[k] == b[k - |a|];
          assert r[k].page == |pages|;
          if i < |a| {
            assert r[i] == a[i];
            assert a[i].page <= |front|;
          } else {
            assert r[i] == b[i - |a|];
          }
        } else {
          assert r[i] == a[i] && r[k] == a[k];
          assert PagesSorted(a);
        }
      }
    }
  }

  /** The example of a two-page document whose pages give three and two
      splits: five chunks, pages 1, 1, 1, 2, 2, all with the same pdf_id. */
  lemma TwoPageExample(source: string, pdfId: string)
    ensures var split := (t: string) => if t == "one" then ["a", "b", "c"] else ["d", "e"];
            var r := ChunksOfPages(["one", "two"], split, source, pdfId);
            |r| == 5 &&
            (forall i :: 0 <= i < 5 ==> r[i].pdfId == pdfId) &&
            r[0].page == 1 && r[1].page == 1 && r[2].page == 1 && r[3].page == 2 && r[4].page == 2
  {
    var split := (t: string) => if t == "one" then ["a", "b", "c"] else ["d", "e"];
    var pages: seq<string> := ["one", "two"];
    assert pages[..1] == ["one"];
    assert pages[..1][..0] == [];
    var r := ChunksOfPages(pages, split, source, pdfId);
    assert r == PageChunks(["a", "b", "c"], source, pdfId, 1) + PageChunks(["d", "e"], source, pdfId, 2);
  }

  function Texts(chunks: seq<ChunkMeta>): (r: seq<string>)
    ensures |r| == |chunks|
    ensures forall i :: 0 <= i < |chunks| ==> r[i] == chunks[i].text
  {
    seq(|chunks|, i requires 0 <= i < |chunks| => chunks[i].text)
  }

  function Metadata(records: seq<IndexRecord>): (r: seq<ChunkMeta>)
    ensures |r| == |records|
    ensures forall i :: 0 <= i < |records| ==> r[i] == records[i].metadata
  {
    seq(|records|, i requires 0 <= i < |records| => records[i].metadata)
  }

  function Values(records: seq<IndexRecord>): (r: seq<Vector>)
    ensures |r| == |records|
    ensures forall i :: 0 <= i < |records| ==> r[i] == records[i].values
  {
    seq(|records|, i requires 0 <= i < |records| => records[i].values)
  }

  /** The wrapping loop of `add_embeddings`: chunk i becomes a record with
      identifier draw number firstDraw + i, the i-th embedding and the chunk
      itself as metadata.
      `embeddings[i]` raises when the service returned fewer vectors. */
  function WrapRecords(chunks: seq<ChunkMeta>, embeddings: seq<Vector>, uuid: nat -> string, firstDraw: nat)
    : (r: Option<seq<IndexRecord>>)
    ensures r.Some? <==> |chunks| <= |embeddings|
    ensures r.Some? ==>
      && Metadata(r.value) == chunks
      && Values(r.value) == embeddings[..|chunks|]
      && forall i :: 0 <= i < |chunks| ==> r.value[i].id == uuid(firstDraw + i)
  {
    if |chunks| <= |embeddings| then
      Some(seq(|chunks|, i requires 0 <= i < |chunks| => IndexRecord(uuid(firstDraw + i), embeddings[i], chunks[i])))
    else None
  }

  /** `add_embeddings`: embed all chunk texts in one call, wrap, upsert. The
      result is the record list handed to the index, or None when any step
      raised. */
  function AddEmbeddings(chunks: seq<ChunkMeta>, embed: seq<string> -> Option<seq<Vector>>,
                         uuid: nat -> string, firstDraw: nat, upsert: (seq<IndexRecord>, nat) -> bool)
    : (r: Option<seq<IndexRecord>>)
    ensures r.Some? ==>
      && embed(Texts(chunks)).Some?
      && |chunks| <= |embed(Texts(chunks)).value|
      && |r.value| == |chunks|
      && Metadata(r.value) == chunks
      && Values(r.value) == embed(Texts(chunks)).value[..|chunks|]
      && (forall i :: 0 <= i < |chunks| ==> r.value[i].id == uuid(firstDraw + i))
      && upsert(r.value, UpsertBatchSize)
    ensures r.None? <==>
      || embed(Texts(chunks)).None?
      || |embed(Texts(chunks)).value| < |chunks|
      || !upsert(WrapRecords(chunks, embed(Texts(chunks)).value, uuid, firstDraw).value, UpsertBatchSize)
  {
    match embed(Texts(chunks))
    case None => None
    case Some(embeddings) =>
      match WrapRecords(chunks, embeddings, uuid, firstDraw)
      case None => None
      case Some(records) => if upsert(records, UpsertBatchSize) then Some(records) else None
  }

  /** The body of `process_pdf` after the extension guard. The pdf_id is
      the first identifier drawn, after the file was read, and every record
      id is drawn after it. A readable file whose records are embedded and
      upserted is Processed; any failure gives FailedToProcess (the
      allocated pdf_id is not reported). */
  function IngestPages(filename: string, pdf: Option<seq<string>>, split: string -> seq<string>,
                       embed: seq<string> -> Option<seq<Vector>>, upsert: (seq<IndexRecord>, nat) -> bool,
                       uuid: nat -> string)
    : (r: IngestOutcome)
    ensures !r.InvalidFileType?
    ensures pdf.None? ==> r == FailedToProcess
    ensures pdf.Some? ==>
      (r.Processed? <==> AddEmbeddings(ChunksOfPages(pdf.value, split, filename, uuid(0)), embed, uuid, 1, upsert).Some?)
    ensures r.Processed? ==>
      Some(r.records) == AddEmbeddings(ChunksOfPages(pdf.value, split, filename, uuid(0)), embed, uuid, 1, upsert)
    ensures r.Processed? ==>
      && pdf.Some?
      && r.pdfId == uuid(0)
      && Metadata(r.records) == ChunksOfPages(pdf.value, split, filename, uuid(0))
      && (forall i :: 0 <= i < |r.records| ==> r.records[i].id == uuid(i + 1))
  {
    match pdf
    case None => FailedToProcess
    case Some(pages) =>
      var pdfId := uuid(0);
      var chunks := ChunksOfPages(pages, split, filename, pdfId);
      match AddEmbeddings(chunks, embed, uuid, 1, upsert)
      case None => FailedToProcess
      case Some(records) => Processed(pdfId, records)
  }

  /** `process_pdf`: the extension guard runs before anything is read. */
  function ProcessPdf(filename: string, pdf: Option<seq<string>>, split: string -> seq<string>,
                      embed: seq<string> -> Option<seq<Vector>>, upsert: (seq<IndexRecord>, nat) -> bool,
                      uuid: nat -> string)
    : (r: IngestOutcome)
    ensures r.InvalidFileType? <==> !AcceptsFilename(filename)
    ensures AcceptsFilename(filename) ==> r == IngestPages(filename, pdf, split, embed, upsert, uuid)
  {
    if !AcceptsFilename(filename) then InvalidFileType
    else IngestPages(filename, pdf, split, embed, upsert, uuid)
  }

  /** Every record of one ingestion shares the pdf_id and source, and its
      page lies in 1..number of pages. */
  lemma ProcessedProvenance(filename: string, pdf: Option<seq<string>>, split: string -> seq<string>,
                            embed: seq<string> -> Option<seq<Vector>>, upsert: (seq<IndexRecord>, nat) -> bool,
                            uuid: nat -> string)
    ensures var r := ProcessPdf(filename, pdf, split, embed, upsert, uuid);
            r.Processed? ==>
              && |r.records| == SplitCount(pdf.value, split)
              && forall i :: 0 <= i < |r.records| ==>
                   var m := r.records[i].metadata;
                   m.pdfId == r.pdfId && m.source == filename && 1 <= m.page <= |pdf.value|
  {
    var r := ProcessPdf(filename, pdf, split, embed, upsert, uuid);
    if r.Processed? {
      var chunks := ChunksOfPages(pdf.value, split, filename, uuid(0));
      assert Metadata(r.records) == chunks;
      forall i | 0 <= i < |r.records|
        ensures r.records[i].metadata == chunks[i]
      {
        assert Metadata(r.records)[i] == r.records[i].metadata;
      }
    }
  }

  /** With a collision-free identifier supply, the record ids of one
      ingestion are pairwise distinct and differ from the pdf_id. */
  lemma RecordIdsFresh(filename: string, pdf: Option<seq<string>>, split: string -> seq<string>,
                       embed: seq<string> -> Option<seq<Vector>>, upsert: (seq<IndexRecord>, nat) -> bool,
                       uuid: nat -> string)
    requires forall a: nat, b: nat :: a != b ==> uuid(a) != uuid(b)
    ensures var r := ProcessPdf(filename, pdf, split, embed, upsert, uuid);
            r.Processed? ==>
              && (forall i :: 0 <= i < |r.records| ==> r.records[i].id != r.pdfId)
              && (forall i, k :: 0 <= i < k < |r.records| ==> r.records[i].id != r.records[k].id)
  {
  }
}
