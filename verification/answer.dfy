/** Answer assembly on the frontend: the context string and the citation
    list built from reranked indices pointing back into the retrieved
    documents, the two messages sent to the chat model, and the
    accumulation of the streamed answer. Indexing follows Python: a
    negative index counts from the end, anything else out of range raises. */
module Answer {
  import opened Common
  import opened Ingest
  import opened Rerank

  datatype Citation = Citation(text: string, pageNum: int)

  datatype Role = System | User
  datatype Message = Message(role: Role, content: string)

  /** Separator between passages of the context. */
  const ContextSeparator: string := "\n\n"

  /** The system prompt template up to its `{context}` field, and after it. */
  const PromptHead: string :=
    "\nYou are Samantha.ai. Your primary role is to assist the user by answering the question from the context given to you.\n"
    + "You are provided with the context, which contains extracts from various information sources, which may or may not be relevant to the user query.\n"
    + "If you do not have enough context to answer the query, politely inform the user that \"Hmm, I don't know enough to give you a confident answer yet.\"\n"
    + "\n<Context>\n"
  const PromptTail: string := "\n"

  /** The retrieved documents the reranked entries point at, in reranked
      order; None when some index is out of range (IndexError). */
  function Resolve(retrieved: seq<ChunkMeta>, reranked: seq<RerankEntry>): (r: Option<seq<ChunkMeta>>)
    ensures r.Some? <==> forall i :: 0 <= i < |reranked| ==> PyIndex(retrieved, reranked[i].index).Some?
    ensures r.Some? ==>
      && |r.value| == |reranked|
      && forall i :: 0 <= i < |reranked| ==> PyIndex(retrieved, reranked[i].index) == Some(r.value[i])
    decreases |reranked|
  {
    if |reranked| == 0 then Some([])
    else
      match PyIndex(retrieved, reranked[0].index)
      case None => None
      case Some(doc) =>
        match Resolve(retrieved, reranked[1..])
        case None => None
        case Some(rest) => Some([doc] + rest)
  }

  function CitationsOf(docs: seq<ChunkMeta>): seq<Citation>
  {
    seq(|docs|, i requires 0 <= i < |docs| => Citation(docs[i].text, docs[i].page))
  }

  function CitationTexts(citations: seq<Citation>): seq<string>
  {
    seq(|citations|, i requires 0 <= i < |citations| => citations[i].text)
  }

  /** The "citations" list of the assistant message: it exists exactly when
      every reranked index is a valid Python index, and then holds, per
      reranked entry and in the same order, the text and page of the
      document that index points at. */
  function BuildCitations(retrieved: seq<ChunkMeta>, reranked: seq<RerankEntry>): (r: Option<seq<Citation>>)
    ensures r.Some? <==> forall i :: 0 <= i < |reranked| ==> PyIndex(retrieved, reranked[i].index).Some?
    ensures r.Some? ==>
      && |r.value| == |reranked|
      && forall i :: 0 <= i < |reranked| ==>
           var d := PyIndex(retrieved, reranked[i].index).value;
           r.value[i] == Citation(d.text, d.page)
  {
    match Resolve(retrieved, reranked)
    case None => None
    case Some(docs) => Some(CitationsOf(docs))
  }

  /** The context: the texts of the retrieved documents the reranked
      indices point at, joined by a blank line. It exists exactly when the
      citations do, and is then the citations' texts joined, so context
      and citations agree. */
  function BuildContext(retrieved: seq<ChunkMeta>, reranked: seq<RerankEntry>): (r: Option<string>)
    ensures r.Some? <==> BuildCitations(retrieved, reranked).Some?
    ensures r.Some? ==> r.value == Join(CitationTexts(BuildCitations(retrieved, reranked).value), ContextSeparator)
  {
    match Resolve(retrieved, reranked)
    case None => None
    case Some(docs) =>
      assert CitationTexts(CitationsOf(docs)) == Texts(docs);
      Some(Join(Texts(docs), ContextSeparator))
  }

  /** No reranked entry: empty context, no citation. */
  lemma EmptyRerankedEmptyContext(retrieved: seq<ChunkMeta>)
    ensures BuildContext(retrieved, []) == Some("")
    ensures BuildCitations(retrieved, []) == Some([])
  {
    assert CitationsOf([]) == [];
  }

  /** Every cited passage occurs in the context, at the offset left by the
      passages and separators before it. */
  lemma CitedPassageInContext(retrieved: seq<ChunkMeta>, reranked: seq<RerankEntry>, i: nat)
    requires BuildCitations(retrieved, reranked).Some?
    requires i < |reranked|
    ensures var cs := BuildCitations(retrieved, reranked).value;
            var ctx := BuildContext(retrieved, reranked).value;
            var off := SumLengths(CitationTexts(cs)[..i]) + i * |ContextSeparator|;
            off + |cs[i].text| <= |ctx| && ctx[off..off + |cs[i].text|] == cs[i].text
  {
    var cs := BuildCitations(retrieved, reranked).value;
    JoinContainsParts(CitationTexts(cs), ContextSeparator, i);
  }

  /** `system_prompt.format(context=context)`. */
  function FormatPrompt(context: string): string
  {
    PromptHead + context + PromptTail
  }

  /** Reads the context back out of a formatted system prompt. */
  function PromptContext(content: string): Option<string>
  {
    if |PromptHead| + |PromptTail| <= |content|
       && content[..|PromptHead|] == PromptHead
       && content[|content| - |PromptTail|..] == PromptTail
    then Some(content[|PromptHead|..|content| - |PromptTail|])
    else None
  }

  /** The messages sent to the chat model: the system prompt with the
      context substituted, then the user's question, and nothing else. */
  function BuildMessages(context: string, question: string): (r: seq<Message>)
    ensures |r| == 2
    ensures r[0].role == System && PromptContext(r[0].content) == Some(context)
    ensures r[1] == Message(User, question)
  {
    var content := FormatPrompt(context);
    assert content[..|PromptHead|] == PromptHead;
    assert content[|content| - |PromptTail|..] == PromptTail;
    assert content[|PromptHead|..|content| - |PromptTail|] == context;
    [Message(System, content), Message(User, question)]
  }

  /** A value the stream may hand out when `chunk.choices[0].delta.content`
      raised: a string, None, or an object that `+ " "` rejects. */
  datatype RawChunk = RawText(s: string) | RawNone | RawUnaddable

  /** One element of the streamed response. */
  datatype StreamChunk =
    | Delta(content: Option<string>)  // `chunk.choices[0].delta.content` succeeded
    | Bare(raw: RawChunk)             // it raised, and the chunk itself is the token

  /** What one chunk adds to the answer. */
  datatype Token = Text(s: string) | NoText | Raises

  /** The token step of the loop: a delta's string content as is; a bare
      string with a trailing space; None adds nothing; a bare object that
      cannot take `+ " "` raises TypeError out of the loop. */
  function TokenOf(c: StreamChunk): (r: Token)
    ensures r == Raises <==> c == Bare(RawUnaddable)
    ensures r == NoText <==> c == Delta(None) || c == Bare(RawNone)
    ensures c.Delta? && c.content.Some? ==> r == Text(c.content.value)
    ensures c.Bare? && c.raw.RawText? ==> r == Text(c.raw.s + " ")
  {
    match c
    case Delta(Some(s)) => Text(s)
    case Delta(None) => NoText
    case Bare(RawText(s)) => Text(s + " ")
    case Bare(RawNone) => NoText
    case Bare(RawUnaddable) => Raises
  }

  /** The answer buffer after consuming `stream`; it exists exactly when
      no chunk raises. */
  function StreamAnswer(stream: seq<StreamChunk>): (r: Option<string>)
    ensures r.Some? <==> NoRaise(stream)
    decreases |stream|
  {
    if |stream| == 0 then Some("")
    else
      var front := stream[..|stream| - 1];
      var last := stream[|stream| - 1];
      assert stream == front + [last];
      NoRaiseAppend(front, [last]);
      assert NoRaise([last]) <==> TokenOf(last) != Raises by {
        assert [last][0] == last;
      }
      match StreamAnswer(front)
      case None => None
      case Some(prefix) =>
        match TokenOf(last)
        case Text(s) => Some(prefix + s)
        case NoText => Some(prefix)
        case Raises => None
  }

  /** The text a chunk contributes, read independently of the loop. */
  function TokenText(c: StreamChunk): string
  {
    match TokenOf(c)
    case Text(s) => s
    case _ => ""
  }

  /** Reference reading of the answer: the chunks' texts concatenated front
      to back. */
  function ConcatTokens(stream: seq<StreamChunk>): string
    decreases |stream|
  {
    if |stream| == 0 then "" else TokenText(stream[0]) + ConcatTokens(stream[1..])
  }

  predicate NoRaise(stream: seq<StreamChunk>)
  {
    forall i :: 0 <= i < |stream| ==> TokenOf(stream[i]) != Raises
  }

  lemma {:induction false} ConcatTokensSnoc(stream: seq<StreamChunk>)
    requires |stream| > 0
    ensures ConcatTokens(stream) == ConcatTokens(stream[..|stream| - 1]) + TokenText(stream[|stream| - 1])
    decreases |stream|
  {
    if |stream| > 1 {
      var tail := stream[1..];
      ConcatTokensSnoc(tail);
      assert tail[..|tail| - 1] == stream[..|stream| - 1][1..];
    } else {
      assert stream[..0] == [];
    }
  }

  /** The loop completes exactly when no chunk raises, and then the answer
      is the in-order concatenation of the chunks' texts. */
  lemma {:induction false} StreamAnswerIsConcat(stream: seq<StreamChunk>)
    ensures StreamAnswer(stream).Some? <==> NoRaise(stream)
    ensures NoRaise(stream) ==> StreamAnswer(stream) == Some(ConcatTokens(stream))
    decreases |stream|
  {
    if |stream| > 0 && NoRaise(stream) {
      var front := stream[..|stream| - 1];
      var last := stream[|stream| - 1];
      assert stream == front + [last];
      NoRaiseAppend(front, [last]);
      assert TokenOf(last) != Raises by {
        assert [last][0] == last;
      }
      StreamAnswerIsConcat(front);
      ConcatTokensSnoc(stream);
      var prefix := ConcatTokens(front);
      assert StreamAnswer(front) == Some(prefix);
      match TokenOf(last) {
        case Text(t) =>
          assert StreamAnswer(stream) == Some(prefix + t);
        case NoText =>
          assert prefix + TokenText(last) == prefix;
          assert StreamAnswer(stream) == Some(prefix);
      }
    }
  }

  lemma NoRaiseAppend(x: seq<StreamChunk>, y: seq<StreamChunk>)
    ensures NoRaise(x + y) <==> NoRaise(x) && NoRaise(y)
  {
    if NoRaise(x + y) {
      forall i | 0 <= i < |x| ensures TokenOf(x[i]) != Raises {
        assert x[i] == (x + y)[i];
      }
      forall i | 0 <= i < |y| ensures TokenOf(y[i]) != Raises {
        assert y[i] == (x + y)[|x| + i];
      }
    }
    if NoRaise(x) && NoRaise(y) {
      forall i | 0 <= i < |x + y| ensures TokenOf((x + y)[i]) != Raises {
        if i < |x| { assert (x + y)[i] == x[i]; } else { assert (x + y)[i] == y[i - |x|]; }
      }
    }
  }

  /** A chunk without text (a None delta or a bare None) changes nothing. */
  lemma NoneTokenContributesNothing(a: seq<StreamChunk>, b: seq<StreamChunk>, c: StreamChunk)
    requires c == Delta(None) || c == Bare(RawNone)
    ensures StreamAnswer(a + [c] + b) == StreamAnswer(a + b)
  {
    var cb := [c] + b;
    assert a + [c] + b == a + cb;
    assert cb[1..] == b;
    assert NoRaise(cb) <==> NoRaise(b) by {
      NoRaiseAppend([c], b);
    }
    NoRaiseAppend(a, cb);
    NoRaiseAppend(a, b);
    StreamAnswerIsConcat(a + cb);
    StreamAnswerIsConcat(a + b);
    if NoRaise(a + b) {
      ConcatTokensAppend(a, cb);
      ConcatTokensAppend(a, b);
      assert ConcatTokens(cb) == TokenText(c) + ConcatTokens(b);
      assert TokenText(c) + ConcatTokens(b) == ConcatTokens(b);
    }
  }

  lemma {:induction false} ConcatTokensAppend(a: seq<StreamChunk>, b: seq<StreamChunk>)
    ensures ConcatTokens(a + b) == ConcatTokens(a) + ConcatTokens(b)
    decreases |a|
  {
    if |a| == 0 {
      assert a + b == b;
    } else {
      ConcatTokensAppend(a[1..], b);
      assert (a + b)[1..] == a[1..] + b;
    }
  }

  /** The accumulation loop. `shown[k]` is what the container displays after
      chunk k: each is the answer so far and a prefix of the final answer.
      When the loop raises, nothing is returned as the answer, and the
      container has shown one text per chunk before the raising one. */
  method AccumulateTokens(stream: seq<StreamChunk>) returns (ok: bool, answer: string, shown: seq<string>)
    ensures ok <==> StreamAnswer(stream).Some?
    ensures |shown| <= |stream|
    ensures ok ==> answer == StreamAnswer(stream).value && |shown| == |stream|
    ensures forall k :: 0 <= k < |shown| ==> StreamAnswer(stream[..k + 1]) == Some(shown[k])
    ensures ok ==> forall k :: 0 <= k < |shown| ==> shown[k] <= answer
    ensures !ok ==> |shown| < |stream| && TokenOf(stream[|shown|]) == Raises
  {
    answer := "";
    shown := [];
    var i := 0;
    while i < |stream|
      invariant 0 <= i <= |stream|
      invariant StreamAnswer(stream[..i]) == Some(answer)
      invariant |shown| == i
      invariant forall k :: 0 <= k < i ==> StreamAnswer(stream[..k + 1]) == Some(shown[k])
      invariant forall k :: 0 <= k < i ==> shown[k] <= answer
    {
      assert stream[..i + 1][..i] == stream[..i];
      match TokenOf(stream[i]) {
        case Raises =>
          ok := false;
          RaiseIsFinal(stream, i + 1);
          return;
        case Text(s) =>
          answer := answer + s;
        case NoText =>
      }
      shown := shown + [answer];
      i := i + 1;
    }
    assert stream[..i] == stream;
    ok := true;
  }

  /** Once the loop has raised, later chunks do not revive it: a chunk
      that raises in a prefix still raises in the whole stream. */
  lemma RaiseIsFinal(stream: seq<StreamChunk>, k: nat)
    requires k <= |stream|
    requires StreamAnswer(stream[..k]).None?
    ensures StreamAnswer(stream).None?
  {
  }
}
