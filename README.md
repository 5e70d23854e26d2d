# Smart chat agent: query-answering pipeline

A Dafny model of the question-answering core of `chatbot_agent.py`. Questions
are answered in one pass over a fixed fallback order:

1. A blank question is refused.
2. A cached answer is served, marked "(From Database)".
3. Otherwise the question goes to the chat model. When retrieval over the
   uploaded documents finds context, the question is wrapped in that context.
   The answer is then written back to the cache on a best-effort basis.

The model has these modules:

- `FileRetrieval` (`file_rag.dfy`) models `FileRAG`, the class `FileRag`. It
  holds the ordered list of `(filename, text)` documents and the flat index.
  The index is rebuilt from the whole list on every `add_file`. `Search` is
  proved against `Retrieve`, which maps the labels returned by the
  nearest-neighbour search back to document texts. It keeps the filter exactly
  as written: a label is kept when `idx < len(docs)`. The embedder and the
  index's k-nearest-neighbour search are functions fixed when the store is
  created. Labels are `-1` or more, because the index pads with `-1` when it
  holds fewer than `k` vectors.
- `AnswerCache` (`answer_cache.dfy`) models `SQLDatabase`, the class
  `SqlDatabase`. It is an append-only sequence of rows. `Lookup` returns the
  answer of the first row, in rowid order, whose question matches
  `LIKE '%q%'`.
- `SqlLike` (`sql_like.dfy`) models SQLite's `LIKE` as the cache uses it.
  `%` and `_` are wildcards, there is no escape character, and letters are
  compared ignoring ASCII case.
- `GroqReply` (`groq_reply.dfy`) models the classification half of
  `_groq_chat`. It turns an abstract response into the answer string. The
  response is one of: the request raised, or a status with a parsed JSON body,
  or a status with a body that is not JSON. Python's `str()` of the JSON values
  and of the exceptions raised along the way is written out.
- `ChatAgent` (`chat_agent.dfy`) models `SmartChatAgent.handle_query`. `Decide`
  is the routing decision as a pure function. `HandleQuery` is the method; its
  contract ties the answer, the new cache rows and the calls made into the
  collaborators to `Decide`. `GroqChat` models `_groq_chat`: the
  classification of what the endpoint produced for the prompt. The endpoint
  is a function from prompt to response, fixed when the agent is created.
- `CallTrace` (`call_trace.dfy`) is a ghost log shared by the agent's
  collaborators. `SqlDatabase.Query`, `SqlDatabase.Insert`, `FileRag.Search`
  and `SmartChatAgent.GroqChat` each append their own entry when called, so
  the log shows which collaborators a call consulted and in what order.
- `Text` (`text.dfy`) holds Python's `str.isspace`, `str.strip`,
  `sep.join`, substring containment and `str(int)`. `Wrappers`
  (`wrappers.dfy`) holds `Option` and `Result`.

Behaviour of the code that a quick reading could miss:

- Cache lookup is SQLite `LIKE`, not case-sensitive substring containment.
  Containment always implies a hit (`SqlLike.ContainsImpliesMatches`). For a
  query without `%` or `_`, a hit is exactly containment ignoring ASCII case
  (`SqlLike.PlainMatchesIff`). A query of `_` hits every non-empty stored
  question.
- A cached answer is served only when it is non-empty, because the code tests
  `if db_answer:`. The lookup reads only the first matching row
  (`LIMIT 1`). When that row's answer is `""`, the question is handled as a
  miss, even if a later matching row has a non-empty answer. The answer then
  generated is appended after that row and is never served for this question
  (`ChatAgent.EmptyFirstAnswerShadowsLaterRows`).
- A body that is not JSON, sent with a 4xx or 5xx status, is reported as the
  `HTTPError` that `raise_for_status` raises ("Groq API exception: ..."). It is
  not reported as "returned non-JSON response".
- Every failure answer starts with the warning sign U+26A0 U+FE0F.
- Labels at or beyond `len(docs)` are skipped, but the padding label `-1` is
  not. Python reads `docs[-1]` as the last document. With one document and the
  default `top_k = 2`, the context is that document's text twice
  (`FileRetrieval.PaddingRepeatsLastDocument`).

## Model

| member | source | states |
|---|---|---|
| `FileRetrieval.FileRag.constructor` | chatbot_agent.py:26-28 | A new store has no documents and no index, and the index invariant holds. |
| `FileRetrieval.FileRag.AddFile` | chatbot_agent.py:30-32 | The pair is appended at the end and earlier documents are unchanged. The index is then non-null, holds one vector per document, and is the one built from the whole list. |
| `FileRetrieval.FileRag.RebuildIndex` | chatbot_agent.py:34-42 | Afterwards the index is the one built from the current documents: none when there are no documents, otherwise their embeddings in store order. |
| `FileRetrieval.BuildIndex` | chatbot_agent.py:34-42 | Definition, no contract of its own; characterised by `IndexAlignedWithDocs`. |
| `FileRetrieval.IndexAlignedWithDocs` | chatbot_agent.py:34-42 | There is no index exactly when the store is empty. Otherwise vector `i` is the embedding of document `i`'s text, with one vector per document. |
| `FileRetrieval.FileRag.Search` | chatbot_agent.py:44-53 | The result is the joined texts of the kept labels, in label order. It is `""` when there are no documents. The search is logged. |
| `FileRetrieval.FileRag.Retrieve` | chatbot_agent.py:44-53 | Definition, no contract of its own; `Search` is proved equal to it, and it is characterised through `Context` by `ContextEmptyIff` and `ContextContainsKeptText`. |
| `FileRetrieval.Position` | chatbot_agent.py:51-52 | A label below `len(docs)` reads a real position: itself when non-negative, the last document for `-1`. |
| `FileRetrieval.Kept` | chatbot_agent.py:50-52 | Definition, no contract of its own; characterised by `KeptTextsOfPositions` and `LabelsBeyondStoreSkipped`. |
| `FileRetrieval.KeptTexts` | chatbot_agent.py:50-52 | Definition, no contract of its own; characterised by `KeptTextsOfPositions`, `KeptTextsComeFromDocs`, `LabelsBeyondStoreSkipped` and `PaddingRepeatsLastDocument`. |
| `FileRetrieval.KeptTextsOfPositions` | chatbot_agent.py:50-52 | When every label is below `len(docs)`, the padding `-1` included, the results are exactly the texts at the labels' positions, one per label, in label order. |
| `FileRetrieval.KeptTextsComeFromDocs` | chatbot_agent.py:50-52 | Every collected text is the text of a stored document, and there are no more texts than labels. |
| `FileRetrieval.LabelsBeyondStoreSkipped` | chatbot_agent.py:51 | Labels at or beyond `len(docs)` contribute nothing. |
| `FileRetrieval.PaddingRepeatsLastDocument` | chatbot_agent.py:48-53 | The padding label `-1` passes the filter: one document with labels `[0, -1]` yields its text twice, joined by a blank line. |
| `FileRetrieval.ContextEmptyIff` | chatbot_agent.py:53 | The context is empty exactly when nothing was collected or the only collected text is empty. |
| `FileRetrieval.ContextContainsKeptText` | chatbot_agent.py:53 | Every collected text appears verbatim in the context. |
| `AnswerCache.Lookup` | chatbot_agent.py:76-79 | The result is None exactly when no row matches `%q%`. Otherwise it is the answer of a row that matches with no earlier row matching. |
| `AnswerCache.SqlDatabase.constructor` | chatbot_agent.py:58-70 | Opening the store keeps the rows already in the table. |
| `AnswerCache.SqlDatabase.Insert` | chatbot_agent.py:72-74 | Without a storage fault exactly one row is appended and no earlier row changes. With one, the rows are unchanged and the call reports failure. The write is logged either way. |
| `AnswerCache.SqlDatabase.Query` | chatbot_agent.py:76-79 | The answer is the first-match lookup. It is present exactly when some row matches. The lookup is logged. |
| `AnswerCache.InsertKeepsEarlierHits` | chatbot_agent.py:72-79 | Appending a row never changes a lookup that already hit. |
| `AnswerCache.AppendKeepsEarlierHits` | chatbot_agent.py:72-79 | Appending any number of rows never changes a lookup that already hit. |
| `AnswerCache.InsertAnswersMissedQuery` | chatbot_agent.py:72-79 | A lookup that missed before an insert afterwards returns the new answer if the new question matches, and still misses otherwise. |
| `AnswerCache.LookupAfterInsert` | chatbot_agent.py:72-79 | After `insert(q, a)`, looking up `q` hits. It returns `a` when no earlier row matched. |
| `AnswerCache.LookupHitsContainingQuestion` | chatbot_agent.py:76-79 | Any row whose question contains the query makes the lookup hit. |
| `AnswerCache.FranceExample` | chatbot_agent.py:76-79 | Storing ("capital of France", "Paris") answers a lookup of "France" with "Paris". |
| `SqlLike.Like` | chatbot_agent.py:77-78 | Definition, no contract of its own; characterised by `ContainsImpliesMatches`, `PlainMatchesIff`, `UnderscoreMatchesAnyNonEmpty` and `MatchIgnoresAsciiCase`. |
| `SqlLike.Matches` | chatbot_agent.py:77-78 | Definition, no contract of its own; characterised by the same lemmas and by `AnswerCache.Lookup`'s contract. |
| `SqlLike.ContainsImpliesMatches` | chatbot_agent.py:77-78 | A stored question containing the query matches `LIKE '%q%'`, whatever the query holds. |
| `SqlLike.PlainMatchesIff` | chatbot_agent.py:77-78 | For a query without wildcards, a match is exactly containment ignoring ASCII case. |
| `SqlLike.UnderscoreMatchesAnyNonEmpty` | chatbot_agent.py:77-78 | A lookup of `_` matches every non-empty stored question. |
| `SqlLike.MatchIgnoresAsciiCase` | chatbot_agent.py:77-78 | "france" matches "Capital of FRANCE". |
| `GroqReply.Find` | chatbot_agent.py:113-119 | A key that is found is stored with that value. When nothing is found, no entry has that key. |
| `GroqReply.FindReadsOnlyEntry` | chatbot_agent.py:113-119 | In a dict with distinct keys, as `json.loads` builds it, lookup returns the value of the one entry holding the key. |
| `GroqReply.Classify` | chatbot_agent.py:102-122 | Definition, no contract of its own; characterised by `ClassifyIsWarningOrStripped`, `NonJsonReplyIffNoErrorStatus`, `RequestFailureReported`, `ErrorReplyIsWarning`, `ClassifyOkReply` and the example lemmas below. |
| `GroqReply.ClassifyIsWarningOrStripped` | chatbot_agent.py:102-122 | Every answer either starts with the warning sign or has no whitespace at either end. No exception escapes. |
| `GroqReply.NonJsonReplyIffNoErrorStatus` | chatbot_agent.py:105-109 | For a body that is not JSON, the non-JSON answer is given exactly when the status is not 4xx/5xx. For 4xx/5xx the answer is the HTTP error, reported as an exception. |
| `GroqReply.RequestFailureReported` | chatbot_agent.py:102-122 | A request that raised is answered with "Groq API exception: " and the exception's text. |
| `GroqReply.ErrorReply` | chatbot_agent.py:111-114 | Definition, no contract of its own; characterised by `ErrorReplyIsWarning`, `ErrorStatusReportsErrorField` and `RateLimitedReported`. |
| `GroqReply.ErrorReplyIsWarning` | chatbot_agent.py:111-114 | A parsed reply with a status other than 200 is always answered with a warning. |
| `GroqReply.ErrorStatusReportsErrorField` | chatbot_agent.py:111-114 | A non-200 reply whose dict has a truthy "error" reports the status and that error. |
| `GroqReply.RateLimitedReported` | chatbot_agent.py:111-114 | HTTP 500 with body `{"error": "rate_limited"}` is answered with "Groq API error: 500 rate_limited". |
| `GroqReply.OkReply` | chatbot_agent.py:116-122 | Definition, no contract of its own; characterised by `OkReplyIsWarningOrStripped` and `ClassifyOkReply`. |
| `GroqReply.OkReplyIsWarningOrStripped` | chatbot_agent.py:116-122 | A 200 reply yields either a warning or stripped text. |
| `GroqReply.Content` | chatbot_agent.py:116-120 | Definition, no contract of its own; characterised by `ContentIsStripped`, `CompletionYieldsStrippedContent`, `TextFallbackYieldsStrippedText`, `MissingChoicesReported` and `EmptyChoicesReported`. |
| `GroqReply.ContentIsStripped` | chatbot_agent.py:116-120 | Extracted content is already stripped. |
| `GroqReply.ClassifyOkReply` | chatbot_agent.py:116-122 | A parsed 200 reply is answered with the extracted content, or with the text of the exception the extraction raised. |
| `GroqReply.CompletionYieldsStrippedContent` | chatbot_agent.py:117-120 | A typical completion is answered with its message content, stripped. |
| `GroqReply.TextFallbackYieldsStrippedText` | chatbot_agent.py:117-120 | Without a message, the choice's "text" is used, stripped. |
| `GroqReply.MissingChoicesReported` | chatbot_agent.py:116-122 | A 200 reply without "choices" is answered with the KeyError text `'choices'`. |
| `GroqReply.EmptyChoicesReported` | chatbot_agent.py:116-122 | A 200 reply with empty "choices" is answered with "list index out of range". |
| `ChatAgent.Decide` | chatbot_agent.py:124-151 | Definition, no contract of its own; characterised by `BlankQueryIffAskForQuestion`, `CacheHitIgnoresContext`, `MissGeneratesFromContext` and `RepeatedQueryServedFromCache`, and tied to the method by `HandleQuery`'s contract. |
| `ChatAgent.BlankQueryIffAskForQuestion` | chatbot_agent.py:125-126 | The question is refused exactly when it is empty or all whitespace. |
| `ChatAgent.CacheHitIgnoresContext` | chatbot_agent.py:128-131 | A non-empty cached answer wins, whatever retrieval would find. |
| `ChatAgent.MissPrompt` | chatbot_agent.py:133-146 | Definition, no contract of its own; characterised by `MissGeneratesFromContext`, and by `RagPromptCarriesContextAndQuestion` for the context case. |
| `ChatAgent.MissGeneratesFromContext` | chatbot_agent.py:133-146 | On a miss (or an empty cached answer) the prompt is the context-wrapped question when there is context. Otherwise it is the raw question. |
| `ChatAgent.RagPrompt` | chatbot_agent.py:136 | Definition, no contract of its own; characterised by `RagPromptCarriesContextAndQuestion`. |
| `ChatAgent.RagPromptCarriesContextAndQuestion` | chatbot_agent.py:136 | The context prompt starts with the instruction, carries the context verbatim right after it, and ends with "Question: " and the query. |
| `ChatAgent.RepeatedQueryServedFromCache` | chatbot_agent.py:128-151 | After a generated non-empty answer is cached for a question that missed, asking again is served from the cache. |
| `ChatAgent.EmptyFirstAnswerShadowsLaterRows` | chatbot_agent.py:128-151 | When the first matching row's answer is empty, the question is routed to the chat model whatever rows are appended later, including the one this call writes. |
| `ChatAgent.SmartChatAgent.constructor` | chatbot_agent.py:84-86 | A new agent has an empty document store, a cache holding the rows already stored and an empty call log shared by the store and the cache. |
| `ChatAgent.SmartChatAgent.GroqChat` | chatbot_agent.py:88-122 | The answer is the classification of what the endpoint produced for the prompt. It is a warning or stripped text. One chat request is logged. |
| `ChatAgent.SmartChatAgent.AnswerUncached` | chatbot_agent.py:133-151 | After a miss: the answer is `_groq_chat` of the context prompt, or of the bare question when retrieval found nothing. The pair is appended to the cache unless the write fails, and a failure is ignored. The log gains a retrieval, a chat request and a cache write, in that order. |
| `ChatAgent.SmartChatAgent.HandleQuery` | chatbot_agent.py:124-151 | Refusal: fixed message, cache unchanged, and nothing is logged, so no lookup, retrieval or chat call happens. Cache hit: marked answer, cache unchanged, and only the lookup is logged. Otherwise the answer is `_groq_chat` of the routed prompt, and the log gains a lookup, a retrieval, a chat request and a cache write, in that order. |
| `Text.Strip` | chatbot_agent.py:120-125 | Definition, no contract of its own; characterised by `StripEmptyIffBlank`, `StripIsTrimmedSlice` and `StripIdempotent`. |
| `Text.StripEmptyIffBlank` | chatbot_agent.py:125 | `s.strip()` is empty exactly when `s` is empty or all whitespace. |
| `Text.StripIsTrimmedSlice` | chatbot_agent.py:120 | `strip` keeps a slice of the text. Everything around the slice is whitespace, and the slice neither starts nor ends with whitespace. |
| `Text.StripIdempotent` | chatbot_agent.py:120 | Stripping twice is stripping once. |
| `Text.Join` | chatbot_agent.py:53 | Definition, no contract of its own; characterised by `JoinContainsPart` and `JoinEmptyIff`. |
| `Text.JoinContainsPart` | chatbot_agent.py:53 | Every joined part appears verbatim in the joined text. |
| `Text.DecimalString` | chatbot_agent.py:114 | `str(status)` is a non-empty run of decimal digits with no leading zero. |
| `Text.DecimalStringSpellsValue` | chatbot_agent.py:114 | Reading the digits of `str(n)` back, left to right, gives `n`. |

## Left out

- Sentence embedding and FAISS distance computation: foreign libraries doing float32 arithmetic. The embedder is a function on texts and the k-nearest-neighbour search is a function returning labels. Which labels it returns, and that they are the nearest by squared L2 distance, is not modelled.
- Labels below `-1`: the index never returns them. Python would raise `IndexError` for labels below `-len(docs)`.
- `requests.post`, headers, payload constants (model name, system message, temperature 0.7, 512 max tokens) and the 60-second timeout: network I/O. The endpoint is a function from the prompt to an abstract response. This over-constrains repeated calls: the same prompt always gets the same response, while the real endpoint samples at temperature 0.7 and can fail on one call and succeed on the next. No property stated here depends on it.
- JSON floats, and the `\x..`/`\u....` escapes `repr` uses for non-printable characters: the JSON model has null, booleans, integers, strings, lists and dicts, and `repr` escapes only backslash, the quote, newline, carriage return and tab.
- `raise_for_status` reason text: the reason phrase is taken as given. How `requests` decodes it is not modelled.
- The sqlite3 connection, table creation and `commit`: the table is a sequence of rows. A write failure is a boolean parameter that leaves the rows unchanged. A row inserted whose commit then failed is not modelled.
- `AnswerCache.SqlDatabase.Query`: never fails in the model. The real `SELECT` is outside any `try` in `handle_query` and can raise, for example on a locked database; that exception escapes `handle_query`, while a failed insert is swallowed.
- SQLite's limit on `LIKE` pattern length ("LIKE or GLOB pattern too complex") is not modelled.
- Loading `.env`, reading `GROQ_API_KEY`/`GROQ_MODEL` and the missing-key `RuntimeError`: configuration.
- `streamlit_app.py` and `app.py` (UI, HTTP routes, UTF-8 decoding of uploads) are not part of this model. They call `add_file` and `handle_query`. `test_groq.py` is a live network smoke script.
- Concurrency (`check_same_thread=False`): the model is sequential.
- Repeated keys in a JSON object: `json.loads` keeps the last value, while `GroqReply.Find` returns the first. Parsed dicts never hold a repeated key, and `GroqReply.FindReadsOnlyEntry` states that on such dicts the two agree.
