/** The frontend's session: the guard around the PDF upload that sets
    pdf_id, and one question turn (retrieve, rerank, build context, stream
    the answer, append the assistant message with its citations).

    The three backend calls and the chat model are parameters: `retrieve`
    posts {pdf_id, question} and gives the status and `retrieved_docs`,
    `rerank` posts {question, docs} and gives `reranked_docs`, `chat` takes
    the message list and gives the stream; each is None when the call
    raised. Rendering (markdown, avatars, expanders) is not modelled. */
module Session {
  import opened Common
  import opened Ingest
  import opened Rerank
  import opened Answer

  /** One element of `chat_history` (avatars left out). */
  datatype ChatEntry =
    | UserEntry(content: string)
    | AssistantEntry(content: string, citations: seq<Citation>)

  /** `st.session_state`: pdf_id and chat_history. */
  datatype State = State(pdfId: Option<string>, history: seq<ChatEntry>)

  /** The state set up on first load. */
  const Initial: State := State(None, [])

  /** Status code and decoded JSON body of a reply. */
  datatype HttpReply<T> = HttpReply(status: int, body: T)

  /** The body of the upload reply: a JSON object whose "pdf_id" key may be
      missing, or some other JSON value (on which `.get` raises). */
  datatype UploadBody = JsonObject(pdfId: Option<string>) | NotAnObject

  /** Whether the upload was posted, and the state afterwards. */
  datatype UploadStep = UploadStep(posted: bool, state: State)

  /** The sidebar: post the chosen file only while pdf_id is None; on status
      200 take `pdf_id` from the reply; any other status, or a raised call,
      leaves the state as it was. */
  function Upload(s: State, fileChosen: bool, reply: Option<HttpReply<UploadBody>>): (r: UploadStep)
    ensures r.posted <==> fileChosen && s.pdfId.None?
    ensures r.state.history == s.history
    ensures r.state.pdfId != s.pdfId ==>
      && r.posted
      && reply.Some? && reply.value.status == 200
      && reply.value.body == JsonObject(r.state.pdfId)
    ensures r.posted && reply.Some? && reply.value.status == 200 && reply.value.body.JsonObject? ==>
      r.state.pdfId == reply.value.body.pdfId
  {
    if fileChosen && s.pdfId.None? then
      match reply
      case Some(HttpReply(200, JsonObject(id))) => UploadStep(true, s.(pdfId := id))
      case _ => UploadStep(true, s)
    else UploadStep(false, s)
  }

  /** Once pdf_id is set, further uploads are never posted and change
      nothing. */
  lemma UploadOnlyOnce(s: State, fileChosen: bool, reply: Option<HttpReply<UploadBody>>,
                       fileChosen': bool, reply': Option<HttpReply<UploadBody>>)
    requires Upload(s, fileChosen, reply).state.pdfId.Some?
    ensures var s1 := Upload(s, fileChosen, reply).state;
            Upload(s1, fileChosen', reply') == UploadStep(false, s1)
  {
  }

  /** A fresh session has no pdf_id, so chatting is off until an upload
      succeeds; the first chosen file is posted, and a 200 reply carrying
      a pdf_id sets it and enables the chat. */
  lemma FirstUploadFromInitial(reply: Option<HttpReply<UploadBody>>)
    ensures !ChatEnabled(Initial)
    ensures Upload(Initial, true, reply).posted
    ensures Upload(Initial, false, reply) == UploadStep(false, Initial)
    ensures reply.Some? && reply.value.status == 200 && reply.value.body.JsonObject? ==>
      && Upload(Initial, true, reply).state == State(reply.value.body.pdfId, [])
      && (ChatEnabled(Upload(Initial, true, reply).state) <==>
            reply.value.body.pdfId.Some? && reply.value.body.pdfId.value != "")
  {
  }

  /** `if st.session_state.pdf_id:` (the empty string is false). */
  predicate ChatEnabled(s: State)
  {
    s.pdfId.Some? && s.pdfId.value != ""
  }

  /** How a turn ended: no turn at all (no usable pdf_id, or an empty
      question), an answer, a non-200 retrieval status ("Failed to get the
      answer."), or an exception caught by the outer handler. */
  datatype TurnOutcome = Idle | Answered | FailedToGetAnswer | RaisedError

  datatype TurnResult = TurnResult(outcome: TurnOutcome, state: State)

  /** The steps after the retrieval reply was 200, applied to the history
      that already holds the user's message. The turn is answered exactly
      when the rerank call returns, every reranked index is valid, the chat
      call returns and its stream does not raise; any other path is the
      error branch and leaves the state alone. */
  function AnswerFromDocs(s1: State, question: string, docs: seq<ChunkMeta>,
                          rerank: (string, seq<string>) -> Option<seq<RerankEntry>>,
                          chat: seq<Message> -> Option<seq<StreamChunk>>): (r: TurnResult)
    ensures r.outcome == Answered || r == TurnResult(RaisedError, s1)
    ensures var reranked := rerank(question, Texts(docs));
      r.outcome == Answered <==>
        && reranked.Some?
        && (forall i :: 0 <= i < |reranked.value| ==> PyIndex(docs, reranked.value[i].index).Some?)
        && var messages := BuildMessages(BuildContext(docs, reranked.value).value, question);
        && chat(messages).Some?
        && NoRaise(chat(messages).value)
    ensures r.outcome == Answered ==>
      var reranked := rerank(question, Texts(docs)).value;
      var messages := BuildMessages(BuildContext(docs, reranked).value, question);
      r.state == s1.(history := s1.history + [AssistantEntry(StreamAnswer(chat(messages).value).value,
                                                             BuildCitations(docs, reranked).value)])
  {
    match rerank(question, Texts(docs))
    case None => TurnResult(RaisedError, s1)
    case Some(reranked) =>
      match BuildContext(docs, reranked)
      case None => TurnResult(RaisedError, s1)
      case Some(context) =>
        match chat(BuildMessages(context, question))
        case None => TurnResult(RaisedError, s1)
        case Some(stream) =>
          match StreamAnswer(stream)
          case None => TurnResult(RaisedError, s1)
          case Some(answer) =>
            var citations := BuildCitations(docs, reranked).value;
            TurnResult(Answered, s1.(history := s1.history + [AssistantEntry(answer, citations)]))
  }

  /** One question turn of the main panel. */
  function AskQuestion(s: State, question: string,
                       retrieve: (string, string) -> Option<HttpReply<seq<ChunkMeta>>>,
                       rerank: (string, seq<string>) -> Option<seq<RerankEntry>>,
                       chat: seq<Message> -> Option<seq<StreamChunk>>): (r: TurnResult)
    ensures r.outcome == Idle <==> !ChatEnabled(s) || question == ""
    ensures r.outcome == Idle ==> r.state == s
    ensures r.outcome != Idle ==>
      && r.state.pdfId == s.pdfId
      && |r.state.history| == |s.history| + (if r.outcome == Answered then 2 else 1)
      && r.state.history[..|s.history| + 1] == s.history + [UserEntry(question)]
    ensures r.outcome == FailedToGetAnswer <==>
      && ChatEnabled(s) && question != ""
      && retrieve(s.pdfId.value, question).Some?
      && retrieve(s.pdfId.value, question).value.status != 200
    ensures ChatEnabled(s) && question != "" ==>
      var reply := retrieve(s.pdfId.value, question);
      reply.Some? && reply.value.status == 200 ==>
      var docs := reply.value.body;
      var reranked := rerank(question, Texts(docs));
      reranked.Some? && (forall i :: 0 <= i < |reranked.value| ==> PyIndex(docs, reranked.value[i].index).Some?) ==>
      var messages := BuildMessages(BuildContext(docs, reranked.value).value, question);
      chat(messages).Some? && NoRaise(chat(messages).value) ==>
      r.outcome == Answered
    ensures r.outcome == Answered ==>
      var reply := retrieve(s.pdfId.value, question);
      && reply.Some? && reply.value.status == 200
      && var docs := reply.value.body;
      && rerank(question, Texts(docs)).Some?
      && var reranked := rerank(question, Texts(docs)).value;
      && BuildContext(docs, reranked).Some?
      && var messages := BuildMessages(BuildContext(docs, reranked).value, question);
      && chat(messages).Some?
      && StreamAnswer(chat(messages).value).Some?
      && r.state.history[|s.history| + 1]
         == AssistantEntry(StreamAnswer(chat(messages).value).value, BuildCitations(docs, reranked).value)
  {
    if !ChatEnabled(s) || question == "" then TurnResult(Idle, s)
    else
      var s1 := s.(history := s.history + [UserEntry(question)]);
      match retrieve(s.pdfId.value, question)
      case None => TurnResult(RaisedError, s1)
      case Some(reply) =>
        if reply.status != 200 then TurnResult(FailedToGetAnswer, s1)
        else AnswerFromDocs(s1, question, reply.body, rerank, chat)
  }

  /** A reranked index outside the retrieved list ends the turn in the
      error branch: no assistant message, and what the chat model would
      have said plays no part. */
  lemma InvalidIndexEndsTurn(s: State, question: string,
                             retrieve: (string, string) -> Option<HttpReply<seq<ChunkMeta>>>,
                             rerank: (string, seq<string>) -> Option<seq<RerankEntry>>,
                             chat: seq<Message> -> Option<seq<StreamChunk>>,
                             chat': seq<Message> -> Option<seq<StreamChunk>>, k: nat)
    requires ChatEnabled(s) && question != ""
    requires retrieve(s.pdfId.value, question).Some?
    requires retrieve(s.pdfId.value, question).value.status == 200
    requires var docs := retrieve(s.pdfId.value, question).value.body;
             rerank(question, Texts(docs)).Some? &&
             k < |rerank(question, Texts(docs)).value| &&
             PyIndex(docs, rerank(question, Texts(docs)).value[k].index).None?
    ensures var r := AskQuestion(s, question, retrieve, rerank, chat);
            && r.outcome == RaisedError
            && r.state == s.(history := s.history + [UserEntry(question)])
            && r == AskQuestion(s, question, retrieve, rerank, chat')
  {
    var docs := retrieve(s.pdfId.value, question).value.body;
  }

  /** Reranking is asked about the texts of the retrieved documents, in
      retrieval order, and about nothing else: two reranking services that
      agree on that request give the same turn. */
  lemma RerankAskedAboutRetrievedTexts(s: State, question: string,
                                       retrieve: (string, string) -> Option<HttpReply<seq<ChunkMeta>>>,
                                       rerank: (string, seq<string>) -> Option<seq<RerankEntry>>,
                                       rerank': (string, seq<string>) -> Option<seq<RerankEntry>>,
                                       chat: seq<Message> -> Option<seq<StreamChunk>>)
    requires ChatEnabled(s) && question != ""
    requires retrieve(s.pdfId.value, question).Some?
    requires var docs := retrieve(s.pdfId.value, question).value.body;
             rerank(question, Texts(docs)) == rerank'(question, Texts(docs))
    ensures AskQuestion(s, question, retrieve, rerank, chat) == AskQuestion(s, question, retrieve, rerank', chat)
  {
  }
}
