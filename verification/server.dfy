/** The FastAPI application: the `chat_sessions` registry and the outcomes of the `/chat/`,
    `/feedback/` and `/clear_chat/{user_id}` endpoints. Every external service is a parameter:
    whether Redis answers, spaCy's analysis, the vector store, the embedder, the language model,
    the web search, the SHAP explainer, the feedback store and the fresh session id. */
module Server {
  import opened Wrappers
  import opened RedisList
  import opened ChatMemory
  import Feedback
  import FactCheck
  import QueryPreprocessing
  import Embeddings
  import Chroma

  /** One entry of `chat_sessions`: who asked what, and what they were told. */
  datatype Session = Session(userId: string, userInput: string, response: string)

  /** The server's state: the session registry, the Redis chat memory and the feedback store. */
  datatype ServerState = ServerState(
    sessions: map<string, Session>,
    memory: ChatDb,
    feedbackLog: seq<Feedback.FeedbackRow>)

  /** An endpoint's answer: a body, or an `HTTPException` with its status and detail. */
  datatype Response<T> = Ok(body: T) | HttpError(status: int, detail: string)

  /** The new state and the answer of one request. */
  datatype Outcome<T> = Outcome(state: ServerState, reply: Response<T>)

  const ProcessFailed: string := "Failed to process request"
  const SessionNotFound: string := "Session not found"
  const StoreFailed: string := "Failed to store feedback"
  const ClearFailed: string := "Failed to clear chat history"
  const FeedbackThanks: string := "Feedback received. Thank you!"
  const ClearDone: string := "Chat history cleared successfully."

  /** What SHAP reports for one answer. */
  datatype Explanation = ShapValues(values: seq<real>)

  /** The object handed to `explain_response` as its `model`: the Hugging Face causal language
      model (`transformer_model.model`, which has `generate`), the `TransformerModel` wrapper
      (which has only `get_embedding` and `get_response`), or a string. */
  datatype ExplainTarget = CausalLmTarget | WrapperTarget | TextTarget(text: string)

  /** Whether `model.generate` exists on the target. */
  predicate HasGenerate(model: ExplainTarget) {
    model.CausalLmTarget?
  }

  /** `explain_response(model, query, knowledge)`: `model.generate` is looked up first, so a
      target without it raises an attribute error; with the causal language model, `shap` is
      what the explainer produces (or `None` when it raises). */
  function ExplainResponse(model: ExplainTarget, shap: Option<Explanation>): (r: Option<Explanation>)
    ensures model.TextTarget? ==> r.None?
    ensures model.WrapperTarget? ==> r.None?
    ensures model.CausalLmTarget? ==> r == shap
  {
    if HasGenerate(model) then shap else None
  }

  /** Everything `chat_endpoint` calls out to. `historyReadOk` and `historyWriteOk` say whether
      Redis answers the read and the write. */
  datatype ChatServices = ChatServices(
    historyReadOk: bool,
    historyWriteOk: bool,
    nlp: string -> seq<QueryPreprocessing.Token>,
    vectorStore: Chroma.ChromaClient,
    embedder: Embeddings.EmbeddingModel,
    llm: string -> Option<string>,
    search: FactCheck.Search,
    explain: (string, seq<string>) -> Option<Explanation>)

  /** The body of a successful `/chat/` answer. */
  datatype ChatReply = ChatReply(
    sessionId: string, response: string, explanation: Explanation, chatHistory: seq<ChatEntry>)

  /** The processed query, the retrieved passages and the checked answer of one request, or
      `None` when a step raised. */
  function Pipeline(userInput: string, svc: ChatServices): Option<(string, seq<string>, string)> {
    var processed := QueryPreprocessing.PreprocessQuery(userInput, svc.nlp);
    var knowledge := Chroma.RetrieveKnowledge(svc.vectorStore, processed, svc.embedder);
    var raw := svc.llm(processed);
    match FactCheck.FactCheck(raw, svc.search)
    case Failure(_) => None
    case Success(validated) => Some((processed, knowledge, validated))
  }

  /** Redis answers both calls, the pipeline runs to a checked answer and the explainer
      answers. */
  predicate ChatSucceeds(userInput: string, svc: ChatServices) {
    && svc.historyReadOk && svc.historyWriteOk
    && match Pipeline(userInput, svc)
       case None => false
       case Some((processed, knowledge, _)) => svc.explain(processed, knowledge).Some?
  }

  /** `chat_endpoint` with the explainer given the causal language model
      (`transformer_model.model`): read the history, run the pipeline, store the exchange and
      register the session under `freshId`; any step that raises gives 500 and leaves the state
      as it was. */
  function ChatEndpoint(st: ServerState, userId: string, userInput: string, svc: ChatServices,
                        freshId: string): (o: Outcome<ChatReply>)
    ensures o.reply.Ok? <==> ChatSucceeds(userInput, svc)
    ensures o.reply.HttpError? ==> o.reply == HttpError(500, ProcessFailed) && o.state == st
    ensures o.reply.Ok? ==>
      var validated := Pipeline(userInput, svc).value.2;
      && o.reply.body.sessionId == freshId
      && o.reply.body.response == validated
      && o.reply.body.chatHistory == GetChatHistory(st.memory, userId, DefaultLimit)
      && o.state.sessions == st.sessions[freshId := Session(userId, userInput, validated)]
      && o.state.memory == StoreChatHistory(st.memory, userId, userInput, validated)
      && o.state.feedbackLog == st.feedbackLog
  {
    ChatEndpointWith(st, userId, userInput, svc, freshId, CausalLmTarget)
  }

  /** The endpoint's steps, with `target` the object handed to the explainer as its model. */
  function ChatEndpointWith(st: ServerState, userId: string, userInput: string, svc: ChatServices,
                            freshId: string, target: ExplainTarget): Outcome<ChatReply> {
    if !svc.historyReadOk then Outcome(st, HttpError(500, ProcessFailed))
    else
      var history := GetChatHistory(st.memory, userId, DefaultLimit);
      match Pipeline(userInput, svc)
      case None => Outcome(st, HttpError(500, ProcessFailed))
      case Some((processed, knowledge, validated)) =>
        match ExplainResponse(target, svc.explain(processed, knowledge))
        case None => Outcome(st, HttpError(500, ProcessFailed))
        case Some(explanation) =>
          if !svc.historyWriteOk then Outcome(st, HttpError(500, ProcessFailed))
          else
            var memory := StoreChatHistory(st.memory, userId, userInput, validated);
            var sessions := st.sessions[freshId := Session(userId, userInput, validated)];
            Outcome(ServerState(sessions, memory, st.feedbackLog),
                    Ok(ChatReply(freshId, validated, explanation, history)))
  }

  /** `chat_endpoint` as the file calls the explainer: `explain_response(processed_query,
      retrieved_knowledge, validated_response)` hands the processed query, a string, to the
      parameter that expects the model. */
  function ChatEndpointAsWritten(st: ServerState, userId: string, userInput: string,
                                 svc: ChatServices, freshId: string): (o: Outcome<ChatReply>)
    ensures o.reply.HttpError? ==> o.state == st
  {
    var processed := QueryPreprocessing.PreprocessQuery(userInput, svc.nlp);
    ChatEndpointWith(st, userId, userInput, svc, freshId, TextTarget(processed))
  }

  /** As written, no chat request can succeed: the explainer always raises, so every request
      is answered 500 and no session is ever registered. */
  lemma ChatAsWrittenAlwaysFails(st: ServerState, userId: string, userInput: string,
                                 svc: ChatServices, freshId: string)
    ensures ChatEndpointAsWritten(st, userId, userInput, svc, freshId) ==
      Outcome(st, HttpError(500, ProcessFailed))
  {
  }

  /** Handing the explainer the `TransformerModel` wrapper instead of the string does not
      repair the endpoint: the wrapper has no `generate` either, so every request still fails. */
  lemma ChatWithWrapperAlwaysFails(st: ServerState, userId: string, userInput: string,
                                   svc: ChatServices, freshId: string)
    ensures ChatEndpointWith(st, userId, userInput, svc, freshId, WrapperTarget) ==
      Outcome(st, HttpError(500, ProcessFailed))
  {
  }

  /** `chat_sessions.get(session_id)`. */
  function Lookup(sessions: map<string, Session>, id: string): (r: Option<Session>)
    ensures r.Some? <==> id in sessions
    ensures r.Some? ==> r.value == sessions[id]
  {
    if id in sessions then Some(sessions[id]) else None
  }

  /** The answer of a successful `/feedback/`. */
  datatype FeedbackReply = FeedbackReply(message: string)

  /** `feedback_endpoint` as written. The 404 for an unknown session and the inner 500 for a
      failed store are both raised inside the outer `try`, whose handler turns every exception
      into 500 "Failed to process request". `storeUp` says whether the store accepts the row
      and `day` is its clock. */
  function FeedbackEndpoint(st: ServerState, sessionId: string, userFeedback: string,
                            storeUp: bool, day: int): (o: Outcome<FeedbackReply>)
    ensures sessionId !in st.sessions ==> o == Outcome(st, HttpError(500, ProcessFailed))
    ensures sessionId in st.sessions && !storeUp ==> o == Outcome(st, HttpError(500, ProcessFailed))
    ensures o.reply.Ok? <==> sessionId in st.sessions && storeUp
    ensures o.reply.Ok? ==> o.reply.body == FeedbackReply(FeedbackThanks)
    ensures o.state.sessions == st.sessions && o.state.memory == st.memory
  {
    match Lookup(st.sessions, sessionId)
    case None => Outcome(st, HttpError(500, ProcessFailed))
    case Some(s) =>
      match Feedback.StoreFeedback(st.feedbackLog, s.userId, s.userInput, s.response, userFeedback, day, storeUp)
      case Failure(_) => Outcome(st, HttpError(500, ProcessFailed))
      case Success(log) =>
        Outcome(st.(feedbackLog := log), Ok(FeedbackReply(FeedbackThanks)))
  }

  /** The feedback endpoint as its raises evidently mean it: 404 for an unknown session, 500
      "Failed to store feedback" when the store fails. */
  function FeedbackEndpointIntended(st: ServerState, sessionId: string, userFeedback: string,
                                    storeUp: bool, day: int): (o: Outcome<FeedbackReply>)
    ensures sessionId !in st.sessions ==> o == Outcome(st, HttpError(404, SessionNotFound))
    ensures sessionId in st.sessions && !storeUp ==> o == Outcome(st, HttpError(500, StoreFailed))
    ensures o.reply.Ok? <==> sessionId in st.sessions && storeUp
  {
    if sessionId !in st.sessions then Outcome(st, HttpError(404, SessionNotFound))
    else
      match Feedback.StoreFeedback(st.feedbackLog, st.sessions[sessionId].userId,
                                   st.sessions[sessionId].userInput, st.sessions[sessionId].response,
                                   userFeedback, day, storeUp)
      case Failure(_) => Outcome(st, HttpError(500, StoreFailed))
      case Success(log) => Outcome(st.(feedbackLog := log), Ok(FeedbackReply(FeedbackThanks)))
  }

  /** As written, an unknown session id answers 500 instead of the 404 the handler raises,
      and the two endpoints differ on exactly the failures. */
  lemma UnknownSessionIs500NotFound404(st: ServerState, sessionId: string, userFeedback: string,
                                       storeUp: bool, day: int)
    requires sessionId !in st.sessions
    ensures FeedbackEndpoint(st, sessionId, userFeedback, storeUp, day).reply.status == 500
    ensures FeedbackEndpointIntended(st, sessionId, userFeedback, storeUp, day).reply.status == 404
  {
  }

  /** Both versions agree on every success, and on the state in every case. */
  lemma FeedbackVersionsAgreeOnSuccess(st: ServerState, sessionId: string, userFeedback: string,
                                       storeUp: bool, day: int)
    ensures var a := FeedbackEndpoint(st, sessionId, userFeedback, storeUp, day);
      var b := FeedbackEndpointIntended(st, sessionId, userFeedback, storeUp, day);
      a.state == b.state && (a.reply.Ok? <==> b.reply.Ok?) && (a.reply.Ok? ==> a.reply == b.reply)
  {
  }

  /** A successful feedback stores exactly the session's triple, the feedback text and its
      reward. */
  lemma FeedbackForwardsSession(st: ServerState, sessionId: string, userFeedback: string,
                                storeUp: bool, day: int)
    requires FeedbackEndpoint(st, sessionId, userFeedback, storeUp, day).reply.Ok?
    ensures var o := FeedbackEndpoint(st, sessionId, userFeedback, storeUp, day);
      var s := st.sessions[sessionId];
      o.state.feedbackLog == st.feedbackLog +
        [Feedback.FeedbackRow(s.userId, s.userInput, s.response, userFeedback,
                              Feedback.Reward(userFeedback), day)]
  {
    var o := FeedbackEndpoint(st, sessionId, userFeedback, storeUp, day);
    var log := o.state.feedbackLog;
    assert log == log[..|st.feedbackLog|] + [log[|st.feedbackLog|]];
  }

  /** Sessions are never removed: feedback on an id can be given again, and a second
      successful feedback appends a second row. */
  lemma RepeatFeedbackReachesStore(st: ServerState, sessionId: string, f1: string, f2: string,
                                   day1: int, day2: int)
    requires sessionId in st.sessions
    ensures var o1 := FeedbackEndpoint(st, sessionId, f1, true, day1);
      var o2 := FeedbackEndpoint(o1.state, sessionId, f2, true, day2);
      o1.reply.Ok? && o2.reply.Ok? && |o2.state.feedbackLog| == |st.feedbackLog| + 2
  {
  }

  /** `clear_chat_memory(user_id)`: delete that user's history; when Redis fails, 500 and no
      change. */
  function ClearChatMemory(st: ServerState, userId: string, redisOk: bool): (o: Outcome<string>)
    ensures redisOk ==> o.reply == Ok(ClearDone) && o.state.memory == ClearChatHistory(st.memory, userId)
    ensures !redisOk ==> o == Outcome(st, HttpError(500, ClearFailed))
    ensures o.state.sessions == st.sessions && o.state.feedbackLog == st.feedbackLog
  {
    if redisOk then Outcome(st.(memory := ClearChatHistory(st.memory, userId)), Ok(ClearDone))
    else Outcome(st, HttpError(500, ClearFailed))
  }

  /** A feedback row was written for a session: same user, question and answer. */
  predicate FromSession(row: Feedback.FeedbackRow, s: Session) {
    row.userId == s.userId && row.userInput == s.userInput && row.response == s.response
  }

  /** Each stored chat list holds between 1 and 20 exchanges. */
  ghost predicate MemoryBounded(memory: ChatDb) {
    NoEmptyLists(memory) && forall k :: |Get(memory, k)| <= Capacity
  }

  /** Some registered session wrote `row`. */
  ghost predicate HasSession(row: Feedback.FeedbackRow, sessions: map<string, Session>) {
    exists id :: id in sessions && FromSession(row, sessions[id])
  }

  /** Every feedback row was written for a registered session. */
  ghost predicate RowsFromSessions(log: seq<Feedback.FeedbackRow>, sessions: map<string, Session>) {
    forall i :: 0 <= i < |log| ==> HasSession(log[i], sessions)
  }

  /** Every stored reward is the reward of its feedback text. */
  ghost predicate RewardsMatch(log: seq<Feedback.FeedbackRow>) {
    forall i :: 0 <= i < |log| ==> log[i].reward == Feedback.Reward(log[i].feedback)
  }

  /** What every reachable state satisfies. */
  ghost predicate Invariant(st: ServerState) {
    MemoryBounded(st.memory) && RowsFromSessions(st.feedbackLog, st.sessions) && RewardsMatch(st.feedbackLog)
  }

  function Initial(): (st: ServerState)
    ensures Invariant(st)
  {
    ServerState(map[], map[], [])
  }

  /** Storing an exchange keeps every list bounded. */
  lemma StoreKeepsBound(memory: ChatDb, userId: string, message: string, response: string)
    requires MemoryBounded(memory)
    ensures MemoryBounded(StoreChatHistory(memory, userId, message, response))
  {
    var m := StoreChatHistory(memory, userId, message, response);
    forall k
      ensures |Get(m, k)| <= Capacity
    {
      if k == ChatKey(userId) {
        assert Get(m, k) == History(m, userId);
      }
    }
  }

  /** Registering a fresh session keeps every row's session. */
  lemma FreshSessionKeepsRows(log: seq<Feedback.FeedbackRow>, sessions: map<string, Session>,
                              freshId: string, s: Session)
    requires RowsFromSessions(log, sessions) && freshId !in sessions
    ensures RowsFromSessions(log, sessions[freshId := s])
  {
    var sessions' := sessions[freshId := s];
    forall i | 0 <= i < |log|
      ensures HasSession(log[i], sessions')
    {
      assert HasSession(log[i], sessions);
      var id :| id in sessions && FromSession(log[i], sessions[id]);
      assert id in sessions' && sessions'[id] == sessions[id];
    }
  }

  /** A chat request keeps the invariant when the session id it draws is fresh, as `uuid4`
      makes it in practice. */
  lemma ChatKeepsInvariant(st: ServerState, userId: string, userInput: string, svc: ChatServices,
                           freshId: string)
    requires Invariant(st)
    requires freshId !in st.sessions
    ensures Invariant(ChatEndpoint(st, userId, userInput, svc, freshId).state)
  {
    var o := ChatEndpoint(st, userId, userInput, svc, freshId);
    if o.reply.Ok? {
      var validated := Pipeline(userInput, svc).value.2;
      StoreKeepsBound(st.memory, userId, userInput, validated);
      FreshSessionKeepsRows(st.feedbackLog, st.sessions, freshId, Session(userId, userInput, validated));
    }
  }

  /** Appending a row written for a registered session keeps every row's session. */
  lemma AppendKeepsRows(log: seq<Feedback.FeedbackRow>, sessions: map<string, Session>,
                        row: Feedback.FeedbackRow, id: string)
    requires RowsFromSessions(log, sessions) && id in sessions && FromSession(row, sessions[id])
    ensures RowsFromSessions(log + [row], sessions)
  {
    var log' := log + [row];
    forall i | 0 <= i < |log'|
      ensures HasSession(log'[i], sessions)
    {
      if i < |log| {
        assert log'[i] == log[i];
      } else {
        assert FromSession(log'[i], sessions[id]);
      }
    }
  }

  /** Feedback keeps the invariant, as written and as intended: the new row is written for
      the session it names. */
  lemma FeedbackKeepsInvariant(st: ServerState, sessionId: string, userFeedback: string,
                               storeUp: bool, day: int)
    requires Invariant(st)
    ensures Invariant(FeedbackEndpoint(st, sessionId, userFeedback, storeUp, day).state)
    ensures Invariant(FeedbackEndpointIntended(st, sessionId, userFeedback, storeUp, day).state)
  {
    FeedbackVersionsAgreeOnSuccess(st, sessionId, userFeedback, storeUp, day);
    var o := FeedbackEndpoint(st, sessionId, userFeedback, storeUp, day);
    if o.reply.Ok? {
      FeedbackForwardsSession(st, sessionId, userFeedback, storeUp, day);
      var s := st.sessions[sessionId];
      var row := Feedback.FeedbackRow(s.userId, s.userInput, s.response, userFeedback,
                                      Feedback.Reward(userFeedback), day);
      AppendKeepsRows(st.feedbackLog, st.sessions, row, sessionId);
      var log := o.state.feedbackLog;
      forall i | 0 <= i < |log|
        ensures log[i].reward == Feedback.Reward(log[i].feedback)
      {
        if i < |st.feedbackLog| {
          assert log[i] == st.feedbackLog[i];
        }
      }
    }
  }

  /** Clearing a user's history keeps the invariant. */
  lemma ClearKeepsInvariant(st: ServerState, userId: string, redisOk: bool)
    requires Invariant(st)
    ensures Invariant(ClearChatMemory(st, userId, redisOk).state)
  {
    var o := ClearChatMemory(st, userId, redisOk);
    assert o.state.sessions == st.sessions && o.state.feedbackLog == st.feedbackLog;
    forall k
      ensures |Get(o.state.memory, k)| <= Capacity
    {
      if redisOk && k == ChatKey(userId) {
        assert Get(o.state.memory, k) == History(o.state.memory, userId);
      }
    }
  }

  /** No endpoint ever removes a session. */
  lemma SessionsOnlyGrow(st: ServerState, userId: string, userInput: string, svc: ChatServices,
                         freshId: string, sessionId: string, userFeedback: string, storeUp: bool,
                         day: int, redisOk: bool)
    ensures st.sessions.Keys <= ChatEndpoint(st, userId, userInput, svc, freshId).state.sessions.Keys
    ensures st.sessions.Keys <= FeedbackEndpoint(st, sessionId, userFeedback, storeUp, day).state.sessions.Keys
    ensures st.sessions.Keys <= ClearChatMemory(st, userId, redisOk).state.sessions.Keys
  {
  }

  /** A chat turn followed by feedback on the session it returned: the store receives the
      user's raw input and the checked answer, and the history the chat returned was read
      before the turn was stored, while the stored history now ends with the turn. */
  lemma ChatThenFeedback(st: ServerState, userId: string, userInput: string, svc: ChatServices,
                         freshId: string, userFeedback: string, day: int)
    ensures var o1 := ChatEndpoint(st, userId, userInput, svc, freshId);
      o1.reply.Ok? ==>
      var o2 := FeedbackEndpoint(o1.state, o1.reply.body.sessionId, userFeedback, true, day);
      var h := History(o1.state.memory, userId);
      && o2.reply == Ok(FeedbackReply(FeedbackThanks))
      && o2.state.feedbackLog == st.feedbackLog +
           [Feedback.FeedbackRow(userId, userInput, o1.reply.body.response, userFeedback,
                                 Feedback.Reward(userFeedback), day)]
      && o1.reply.body.chatHistory == GetChatHistory(st.memory, userId, DefaultLimit)
      && h[|h| - 1] == ChatEntry(userInput, o1.reply.body.response)
  {
    var o1 := ChatEndpoint(st, userId, userInput, svc, freshId);
    if o1.reply.Ok? {
      FeedbackForwardsSession(o1.state, o1.reply.body.sessionId, userFeedback, true, day);
    }
  }
}
