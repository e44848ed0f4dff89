# chatbot_RAG_RL: feedback, chat memory, RL data and request outcomes in Dafny

This project models the deterministic core of a retrieval-augmented chatbot backend written in
Python (FastAPI, Redis, ChromaDB, a PPO agent) and proves properties of that model. It covers:

- the keyword reward that `store_feedback` assigns to a feedback text, and the row it stores;
- the per-user chat memory in Redis (`RPUSH`, `LTRIM -20 -1`, `LRANGE -limit -1`, `DEL`), with
  Redis's negative-index rules written out;
- the RL environment (`reset`, `step`), the floored exponential time weight
  `max(0.95^d, 0.1)` over exact reals, the length feature, the `[1]` placeholder for missing
  training data, agent construction and the fail-safe `get_best_action`;
- the fact-check decision over given search results, with Python's polymorphic `in`;
- the text normalisation of `preprocess_query` (lower-case, delete punctuation, collapse
  whitespace, strip) and the stop-word filter, with spaCy as a parameter;
- prompt construction in `generate_response`, the embedding check of `EmbeddingModel`, and the
  guards and document flattening of the Chroma client;
- the `chat_sessions` registry and the outcomes of the `/chat/`, `/feedback/` and
  `/clear_chat/{user_id}` endpoints, with an invariant kept by every endpoint.

Every external service is a parameter of the function that calls it. These are: whether Redis
answers, spaCy's analysis, the vector store's `query`, the transformer's `get_embedding` and
`get_response`, the language model, the web search, the SHAP explainer, whether the feedback
store accepts a write, the fresh session id drawn by `uuid4`, and the clock as a whole number of
days. A raised exception is a `Failure`, a `None`, or a `false` flag, depending on what the
caller does with it.

Files, one module each: `wrappers.dfy` (`Option`, `Result`), `text.dfy` (ASCII `lower`,
`needle in hay`, `join`, `split`), `feedback.dfy`, `redis_list.dfy`, `chat_memory.dfy`,
`rl_env.dfy`, `rl_agent.dfy`, `fact_check.dfy`, `query_preprocessing.dfy`, `generation.dfy`,
`embeddings.dfy`, `chroma.dfy`, `server.dfy`.

Behaviour of the code worth noting:

- Feedback on an unknown session is answered 500, not a client error (see Findings).
- Sessions are never removed or marked consumed, so a second feedback on the same id is stored
  again.
- In the chat pipeline, a step that raises aborts the whole request with 500. The steps that
  raise are the Redis read and write, the web search, `None in` a text snippet inside the fact
  check, and the explainer. Retrieval and the language model catch their own errors. Retrieval
  degrades to no passages and the language model to `None`, which the fact check then answers
  with "Response needs verification." or with a raise, depending on the search results.
- The RL agent is not consulted while serving: that step is commented out in `main.py`.

## Model

| member | source | states |
|---|---|---|
| Text.Lower | backend/agents/query_preprocessing.py:26 | `lower()` keeps the length, maps each character through the ASCII case map, and leaves no upper-case letter |
| Text.LowerIdempotent | backend/agents/query_preprocessing.py:26 | lower-casing twice is lower-casing once |
| Text.StrInIffOccurs | backend/agents/feedback.py:21-23 | the scan used for Python's `needle in hay` holds exactly when some window of `hay` spells `needle` |
| Text.SplitJoin | backend/agents/generation.py:27 | splitting `sep.join(parts)` on the separator gives `parts` back when no part holds the separator |
| Feedback.Reward | backend/agents/feedback.py:18-26 | the reward is 1, 0 or -1; it is 1 exactly when the lower-cased text mentions "good" or "helpful"; it is -1 exactly when it mentions "bad" or "incorrect" and neither positive word |
| Feedback.RewardIgnoresCase | backend/agents/feedback.py:21-23 | the reward of a text equals the reward of its lower-cased form |
| Feedback.RewardDependsOnlyOnLowercase | backend/agents/feedback.py:21-23 | two texts that lower-case to the same string get the same reward |
| Feedback.MixedFeedbackIsPositive | backend/agents/feedback.py:21-24 | "Good but incorrect" gets 1: the positive words take precedence |
| Feedback.UpperCaseKeywordIsPositive | backend/agents/feedback.py:21 | "HELPFUL" gets 1 |
| Feedback.NegativeFeedbackExample | backend/agents/feedback.py:23-24 | "bad response" gets -1 |
| Feedback.StoreFeedback | backend/agents/feedback.py:29-35 | a write that the store accepts appends exactly one row, holding the user, input, response and feedback unchanged, the reward of the feedback, and the day; earlier rows stay as they were |
| RedisList.Range | backend/database/redis_client.py:31-36 | the selected elements form one contiguous run of the list, in list order, starting at `start` (read from the tail when negative, clamped to the head) |
| RedisList.RangeSelects | backend/database/redis_client.py:31-36 | a position is selected exactly when it lies between start and stop, both inclusive, a negative bound counting from the tail; an empty selection gives [] |
| RedisList.LRange | backend/database/redis_client.py:36 | `LRANGE` on a missing key reads []; otherwise it reads one contiguous run of the stored list, in order, starting at the first selectable position |
| RedisList.RangeTail | backend/database/redis_client.py:36 | `LRANGE key -n -1` selects the last min(n, len) elements, oldest first |
| RedisList.RangeWhole | backend/database/redis_client.py:36 | `LRANGE key 0 -1` selects the whole list |
| RedisList.RangeDrop | backend/database/redis_client.py:36 | a non-negative start with stop -1 drops that many leading elements |
| RedisList.RPush | backend/database/redis_client.py:28 | RPUSH appends at the tail of that key and changes no other key |
| RedisList.LTrim | backend/database/redis_client.py:31 | LTRIM keeps the selected range of that key, deletes the key when nothing is kept, and changes no other key |
| RedisList.Del | backend/database/redis_client.py:42 | DEL leaves the key absent and changes no other key |
| ChatMemory.ChatKeyInjective | backend/database/redis_client.py:24 | different users never share a `chat:{user_id}` key |
| ChatMemory.StoreChatHistory | backend/database/redis_client.py:22-31 | after a store the user's history is the newest 20 of the old history plus the new exchange; it holds between 1 and 20 entries and ends with the new exchange; other users and keys are unchanged |
| ChatMemory.GetChatHistory | backend/database/redis_client.py:33-37 | a positive limit reads the newest min(limit, len) exchanges oldest first; limit 0 reads the whole history; a missing history reads as [] |
| ChatMemory.ClearChatHistory | backend/database/redis_client.py:39-42 | clearing empties that user's history and changes no other user or key |
| ChatMemory.ClearIdempotent | backend/database/redis_client.py:39-42 | clearing twice is clearing once |
| ChatMemory.ReadAfterClearIsEmpty | backend/database/redis_client.py:33-42 | after a clear every read of that user's history is empty, whatever the limit |
| ChatMemory.StoreAllKeepsNewest | backend/database/redis_client.py:28-31 | after any sequence of stores the history is the newest 20 of the old history followed by the new turns, in the order stored |
| RlEnv.NewEnv | backend/agents/reinforcement_learning.py:29-42 | a new environment holds the given features at index 0, which is exactly where `reset` puts it |
| RlEnv.Reset | backend/agents/reinforcement_learning.py:44-51 | reset puts the index at 0 and shows the first feature, or 0 for empty data |
| RlEnv.Step | backend/agents/reinforcement_learning.py:53-69 | the reward is 1 exactly for action 1 and -1 otherwise; the index advances by one; done holds exactly when the index reaches the data length; the next state is 0 when done and the next feature otherwise |
| RlEnv.EpisodeLength | backend/agents/reinforcement_learning.py:61-67 | from a reset, step k is done exactly when k+1 reaches the data length, and otherwise shows feature k+1 |
| RlEnv.Episode | backend/agents/reinforcement_learning.py:44-67 | an episode run to done takes as many steps as there are features (one step on empty data) and shows every feature in order |
| RlAgent.DecayFactorMonotone | backend/agents/reinforcement_learning.py:122 | 0.95^d does not increase as d grows |
| RlAgent.DecayCrossesFloor | backend/agents/reinforcement_learning.py:122-123 | 0.95^44 is above 0.1 and 0.95^45 is below it |
| RlAgent.TimeWeight | backend/agents/reinforcement_learning.py:115-126 | the weight is at least 0.1; it equals 0.1 exactly when the clock raised or the feedback is 45 or more days old; otherwise it is 0.95^d; it is at most 1 for past feedback and above 1 for feedback dated in the future |
| RlAgent.TimeWeightMonotone | backend/agents/reinforcement_learning.py:115-126 | older feedback never weighs more than newer feedback |
| RlAgent.TimeWeightExamples | backend/agents/reinforcement_learning.py:115-126 | a 10-day-old row weighs between 0.5987 and 0.5988; a 100-day-old row weighs 0.1 |
| RlAgent.EmbedText | backend/agents/reinforcement_learning.py:128-134 | the feature of a text is its number of characters; a value without a length gives 0 |
| RlAgent.Sample | backend/agents/reinforcement_learning.py:106-110 | a row yields its input length as the feature, its time weight for its age in days (at least 0.1), and its reward times that weight, which has the sign of the reward |
| RlAgent.Shape | backend/agents/reinforcement_learning.py:103-110 | one sample per row, in order: the input length as the feature, the row's time weight for its age in days (at least 0.1), and the reward times that weight, with the sign of the reward |
| RlAgent.LoadTrainingData | backend/agents/reinforcement_learning.py:92-113 | a failed fetch or no rows gives [1]; otherwise one feature per row, the length of its input, in row order |
| RlAgent.TrainingDataIgnoresRewards | backend/agents/reinforcement_learning.py:108-110 | the training data does not depend on rewards, responses or times: rows with the same inputs give the same data |
| RlAgent.InitAgent | backend/agents/reinforcement_learning.py:76-90 | the environment is built on the loaded training data when wrapping succeeds, and a model exists only when both wrapping and PPO construction succeed |
| RlAgent.GetBestAction | backend/agents/reinforcement_learning.py:144-154 | the answer is "positive" or "negative", and "positive" exactly when a model exists and predicts action 1 for the observation's length |
| RlAgent.FailedInitIsConservative | backend/agents/reinforcement_learning.py:88-90 | an agent whose PPO construction failed answers "negative" to every observation |
| FactCheck.InMeansSupports | backend/agents/fact_checking.py:25 | the `in` test on one result, when it does not raise, holds exactly when the result supports the response (substring of a snippet, key of a record) |
| FactCheck.AnyIn | backend/agents/fact_checking.py:25 | for a response text, `any(...)` holds exactly when some result supports it; for `None` it raises exactly when some result is a text snippet, and is false otherwise |
| FactCheck.FactCheck | backend/agents/fact_checking.py:15-29 | the answer is the response or "Response needs verification."; empty results give the literal; a supported response is kept; a failed search propagates |
| QueryPreprocessing.RemovePunctuation | backend/agents/query_preprocessing.py:29 | no punctuation remains; a character is kept exactly when it occurs in the input and is not punctuation; a single character is kept as it is, or deleted when it is punctuation |
| QueryPreprocessing.RemovePunctuationAppend | backend/agents/query_preprocessing.py:29 | deletion works piecewise, so the kept characters stay in their relative order |
| QueryPreprocessing.DropSpaces | backend/agents/query_preprocessing.py:32 | `lstrip` gives a suffix of its input that is empty or starts with a non-whitespace character |
| QueryPreprocessing.StripRight | backend/agents/query_preprocessing.py:32 | `rstrip` gives a prefix of its input that is empty or ends with a non-whitespace character |
| QueryPreprocessing.Squeeze | backend/agents/query_preprocessing.py:32 | `re.sub(r"\s+", " ", q)` is empty exactly when its input is; a leading non-whitespace character is kept and a leading whitespace run becomes one space |
| QueryPreprocessing.DropSpacesDropsSpaces | backend/agents/query_preprocessing.py:32 | `lstrip` removes only whitespace |
| QueryPreprocessing.StripRightDropsSpaces | backend/agents/query_preprocessing.py:32 | `rstrip` removes only whitespace |
| QueryPreprocessing.SqueezeCollapses | backend/agents/query_preprocessing.py:32 | after `re.sub(r"\s+", " ", q)` no two whitespace characters are adjacent and every whitespace character is a plain space |
| QueryPreprocessing.CollapseIsJoinedWords | backend/agents/query_preprocessing.py:32 | collapsing and stripping equals `" ".join(q.split())` |
| QueryPreprocessing.SqueezeKeepsCollapsed | backend/agents/query_preprocessing.py:32 | text that is already collapsed is left unchanged |
| QueryPreprocessing.CollapseIsClean | backend/agents/query_preprocessing.py:32 | the collapsed and stripped text has no leading, trailing or doubled whitespace, and keeps any character class that contains the space |
| QueryPreprocessing.Normalize | backend/agents/query_preprocessing.py:26-32 | the normalised query has no upper-case letters, no punctuation and no leading, trailing or doubled whitespace, and equals the words of the lower-cased, punctuation-free query joined by single spaces |
| QueryPreprocessing.NormalizeIdempotent | backend/agents/query_preprocessing.py:26-32 | normalising a normalised query changes nothing |
| QueryPreprocessing.KeptLemmas | backend/agents/query_preprocessing.py:36 | every kept lemma is the lemma of a non-stop token; nothing is dropped when no token is a stop word; nothing is kept when all are |
| QueryPreprocessing.KeptLemmasAppend | backend/agents/query_preprocessing.py:36 | the filter works token by token and keeps the order |
| QueryPreprocessing.PreprocessQuery | backend/agents/query_preprocessing.py:21-38 | the result is the lemmas of the non-stop tokens of the normalised query, joined by single spaces; a query whose tokens are all stop words gives ""; a single non-stop token gives its lemma |
| QueryPreprocessing.PreprocessSplitsBack | backend/agents/query_preprocessing.py:36-38 | when some lemma is kept and no kept lemma holds a space, splitting the result on spaces gives the kept lemmas back in token order |
| QueryPreprocessing.PreprocessNormalized | backend/agents/query_preprocessing.py:26-36 | preprocessing an already normalised query gives the same result as preprocessing the raw query |
| Generation.Context | backend/agents/generation.py:26-28 | no knowledge gives "No additional context available."; otherwise the context is the passages joined by newlines, and, when no passage holds a newline, it splits back, line by line, into the passages |
| Generation.Prompt | backend/agents/generation.py:31 | the context and the query sit at fixed places between "Context: ", "\n\nQuestion: " and "\n\nAnswer:" |
| Generation.PromptInjective | backend/agents/generation.py:31 | with the context fixed, different queries give different prompts, and with the query fixed, different contexts give different prompts |
| Generation.GenerateResponse | backend/agents/generation.py:18-41 | the answer is the model's answer to the prompt built from the knowledge and the query, or "Error generating response" when the model raises |
| Generation.PromptCarriesKnowledge | backend/agents/generation.py:26-31 | when no passage holds a newline, the prompt's context part splits back into the retrieved passages |
| Generation.NoKnowledgeLooksLikeOnePassage | backend/agents/generation.py:26-31 | no knowledge and a single passage reading "No additional context available." give the same prompt |
| Embeddings.InitEmbeddingModel | backend/models/embeddings.py:17-26 | the model is kept exactly when it is a transformer |
| Embeddings.Validate | backend/models/embeddings.py:34-48 | the result is non-empty exactly when the transformer answered a non-empty list, and is then that list unchanged |
| Embeddings.ValidateIsStable | backend/models/embeddings.py:36-45 | a vector that passed the check passes it again unchanged |
| Embeddings.GetEmbedding | backend/models/embeddings.py:28-48 | no model gives []; otherwise the checked answer of the transformer |
| Embeddings.NonEmptyEmbeddingIsGenuine | backend/models/embeddings.py:28-48 | a non-empty embedding comes only from an initialised model whose transformer answered exactly that list |
| Embeddings.WrongTypeGivesNoEmbeddings | backend/models/embeddings.py:17-32 | after a wrong-type initialisation every embedding is [] |
| Chroma.Strings | backend/database/chromadb_client.py:90 | a string is kept exactly when it is a string item of the list, and nothing else is added; a one-item list gives its text when it is a string and [] otherwise |
| Chroma.StringsKeepsOrder | backend/database/chromadb_client.py:90 | a list of strings is kept whole and in order |
| Chroma.StringsAppend | backend/database/chromadb_client.py:90 | the filter works item by item: the strings of two runs of items are the strings of each, in order |
| Chroma.Flatten | backend/database/chromadb_client.py:85-91 | a passage is in the result exactly when it is a string item of some entry that is a list; a single entry gives its strings when it is a list and [] otherwise |
| Chroma.FlattenAppend | backend/database/chromadb_client.py:87-91 | flattening works entry by entry, in order |
| Chroma.Documents | backend/database/chromadb_client.py:85-98 | a response whose "documents" is a list gives its flattened passages; a missing key or any other value gives [] |
| Chroma.RetrieveKnowledge | backend/database/chromadb_client.py:63-100 | no collection or an empty embedding gives [] without querying; a failed query gives []; otherwise the passages of the top-5 response |
| Chroma.Search | backend/database/chromadb_client.py:48-61 | no collection or a failed query gives []; otherwise the response as it came |
| Chroma.RetrieveIsSearchThenFlatten | backend/database/chromadb_client.py:48-100 | retrieval is a top-5 search on the query's embedding followed by flattening |
| Chroma.RetrievedPassagesComeFromResponse | backend/database/chromadb_client.py:79-96 | every retrieved passage is a string inside one of the response's document lists |
| Server.ExplainResponse | backend/agents/explainability.py:17-25 | `model.generate` is looked up first, so a string or the `TransformerModel` wrapper (which has no `generate`) makes the explainer raise; only the causal language model inside the wrapper yields SHAP's answer |
| Server.ChatEndpoint | main.py:84-149 | with the causal language model handed to the explainer, a chat succeeds exactly when Redis, the fact check, the explainer and the store all succeed; it then returns the history read before the turn was stored, stores the exchange and registers the session under the fresh id; a failure answers 500 and changes nothing |
| Server.ChatEndpointAsWritten | main.py:123-125 | a failed request leaves the state unchanged |
| Server.ChatWithWrapperAlwaysFails | backend/models/transformers.py:19-61 | handing the explainer the `TransformerModel` wrapper instead of the string still answers every chat request with 500, as the wrapper has no `generate` |
| Server.ChatAsWrittenAlwaysFails | main.py:123-125 | as the explainer is called, every chat request is answered 500 and changes nothing |
| Server.Lookup | main.py:155 | `chat_sessions.get` finds exactly the registered ids |
| Server.FeedbackEndpoint | main.py:152-174 | an unknown session, or a store that fails, answers 500 "Failed to process request" and changes nothing; success thanks the user; sessions and chat memory never change |
| Server.FeedbackEndpointIntended | main.py:155-171 | an unknown session answers 404 "Session not found", and a failed store answers 500 "Failed to store feedback" |
| Server.UnknownSessionIs500NotFound404 | main.py:155-157 | an unknown session gets 500 as written, where the handler raises 404 |
| Server.FeedbackVersionsAgreeOnSuccess | main.py:152-174 | both versions reach the same state and agree on every success |
| Server.FeedbackForwardsSession | main.py:159-166 | a successful feedback stores exactly the session's triple, the feedback text and its reward |
| Server.RepeatFeedbackReachesStore | main.py:155-168 | sessions are not consumed: a second feedback on the same id is stored again |
| Server.ClearChatMemory | main.py:177-184 | a clear empties exactly that user's history; when Redis fails it answers 500 and changes nothing |
| Server.Initial | main.py:81 | the empty server satisfies the invariant |
| Server.ChatKeepsInvariant | main.py:129-139 | with a fresh session id, a chat keeps every history at 1 to 20 entries and every feedback row tied to a registered session |
| Server.FeedbackKeepsInvariant | main.py:155-168 | feedback, as written and as intended, keeps the invariant: the new row belongs to the session it names and carries its text's reward |
| Server.ClearKeepsInvariant | main.py:177-181 | clearing keeps the invariant |
| Server.SessionsOnlyGrow | main.py:81 | no endpoint removes a session |
| Server.ChatThenFeedback | main.py:129-168 | after a successful chat, feedback on the session it returned stores the user's raw input and the checked answer; the chat returned the history from before its own turn, and the stored history now ends with that turn |

## Left out

- PPO training and prediction (`stable_baselines3`, `DummyVecEnv`, `learn`, `save`, `train_model`) are foreign library code. A constructed policy is a function from the observation to a prediction.
- The database layer (SQLAlchemy schema, sessions, commits) is left out. The feedback store is an append-only log of rows plus a flag saying whether it accepts the write.
- Feedback.StoreFeedback: the model's store succeeds whenever the flag says so. The repository's `DatabaseClient` has no `execute_query`, so the real call always raises, and every real feedback request ends in 500.
- RlAgent.LoadTrainingData: the fetched rows are taken as already shaped `(user_input, response, reward, timestamp)` tuples; `fetch_all` actually returns ORM objects.
- Network clients are left out: the web search (HTML parsing), the Milvus client, and the Groq call inside `generate_response_llm`. The language model is a function returning an answer or `None`.
- The transformer's tensors and SHAP's computation are left out; they appear as parameters that answer or raise.
- `backend/agents/retrieval.py` is not used by the served path and is not part of this model.
- spaCy's lemmas and stop-word decisions are a parameter of `PreprocessQuery`.
- Text.Lower: models `str.lower()` on ASCII letters only; Unicode case mapping is not modelled.
- QueryPreprocessing.IsSpace: `\s` and `str.isspace` are modelled on ASCII only; Unicode whitespace is not modelled.
- RlAgent.TimeWeight: computes 0.95^d over exact reals, where the source uses IEEE floats. In the source, `0.95 ** d` overflows for d <= -13838 (feedback dated about 38 years in the future); the handler then answers 0.1, where the model gives 0.95^d, which is above 1.
- RlAgent.TimeWeight: the age is the difference of two whole day stamps, given as a parameter in place of `datetime.now()`. The source floors the exact time difference (`(now - timestamp).days`), so the two can differ by one day around midnight.
- RlAgent.TimeWeightMonotone: holds over the reals; in the source it fails between d = -13838 (0.1, after the overflow) and d = -13837 (about 1.7e308).
- RlEnv.NewEnv: the action space (two actions) and the observation space (a box from 0 to 1000) are gym declarations that nothing in the model reads; they are not modelled.
- ChatMemory.StoreChatHistory: the RPUSH and LTRIM pair is modelled as one step. Redis failing between the two commands, which leaves the list untrimmed, is not modelled.
- Server.ChatEndpoint: Redis failures are two flags, one for the read and one for the write. The JSON encoding of chat entries is taken to round-trip exactly.
- Server.ChatEndpoint: the explainer is given the causal language model held by the transformer wrapper (`transformer_model.model`), the only object at hand that has `generate`; see Findings for the call as written.
- ChatMemory.StoreAllKeepsNewest: requires the starting history to hold at most 20 exchanges, which every history produced by a store does.
- Chroma.Documents: Chroma answers a query with a list (or nothing) under "documents". Any other value there is modelled as giving [], without following Python's iteration of it; a tuple of lists, for one, would yield its passages in the source.
- Concurrency, the FastAPI/uvicorn plumbing, logging and configuration are out of scope; the code has no locking to model.
- `generate_response` is not on the served path (`main.py` calls `generate_response_llm`); it is modelled on its own.

## Findings

| source | as written | input that shows it | evidently intended | confidence | as-written member | corrected member |
|---|---|---|---|---|---|---|
| main.py:155-157 | the 404 "Session not found" is raised inside the outer `try`, whose `except Exception` turns it into 500 "Failed to process request"; the inner 500 "Failed to store feedback" is rewritten the same way | feedback with a `session_id` that was never issued | 404 "Session not found" for an unknown session, 500 "Failed to store feedback" for a failed store | high, not executed | Server.UnknownSessionIs500NotFound404 | Server.FeedbackEndpointIntended |
| main.py:123-125 | `explain_response(processed_query, retrieved_knowledge, validated_response)` passes the processed query where `explain_response(model, query, knowledge)` expects the model; `model.generate` then raises an attribute error on a string | any chat request whose earlier steps succeed | the explainer receives an object with `generate`, the causal language model `transformer_model.model` (the `TransformerModel` wrapper has no `generate` and would raise too), and a chat whose steps all succeed registers a session | high, not executed | Server.ChatAsWrittenAlwaysFails | Server.ChatEndpoint |
