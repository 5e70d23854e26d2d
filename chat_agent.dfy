/** The query router (`SmartChatAgent`): one pass over a fixed fallback
    order. A blank question is refused; otherwise a truthy cached answer is
    returned marked as such; otherwise the question goes to the chat model,
    wrapped in the retrieved context when there is any, and the answer is
    written back to the cache on a best-effort basis. */
module ChatAgent {
  import opened Wrappers
  import opened Text
  import opened AnswerCache
  import opened FileRetrieval
  import opened GroqReply
  import opened CallTrace

  const PleaseType := Warning + " Please type a question."
  const FromDatabaseMarker := "(From Database)\n"
  const ContextInstruction := "Answer using only this context:\n"
  const QuestionLabel := "\n\nQuestion: "

  /** The prompt sent when retrieval found context. */
  function RagPrompt(ctx: string, query: string): string {
    ContextInstruction + ctx + (QuestionLabel + query)
  }

  /** Which way `handle_query` answers. */
  datatype Decision =
    | AskForQuestion
    | FromCache(answer: string)
    | Generate(prompt: string)

  /** The routing decision for `query`, given the cache rows and the context
      retrieval would produce (consulted only when the cache misses). */
  function Decide(query: string, rows: seq<Row>, ctx: string): Decision {
    if query == "" || Strip(query) == "" then AskForQuestion
    else
      var cached := Lookup(rows, query);
      if cached.Some? && cached.value != "" then FromCache(cached.value)
      else Generate(MissPrompt(ctx, query))
  }

  /** The prompt for a question the cache did not answer: wrapped in the
      retrieved context when there is any, the bare question otherwise. */
  function MissPrompt(ctx: string, query: string): string {
    if ctx != "" then RagPrompt(ctx, query) else query
  }

  /** The question is refused exactly when it is empty or all whitespace. */
  lemma BlankQueryIffAskForQuestion(query: string, rows: seq<Row>, ctx: string)
    ensures Decide(query, rows, ctx) == AskForQuestion <==> IsBlank(query)
  {
    StripEmptyIffBlank(query);
  }

  /** A truthy cached answer wins whatever retrieval would have found. */
  lemma CacheHitIgnoresContext(query: string, rows: seq<Row>, ctx: string, a: string)
    requires !IsBlank(query) && Lookup(rows, query) == Some(a) && a != ""
    ensures Decide(query, rows, ctx) == FromCache(a)
  {
    StripEmptyIffBlank(query);
  }

  /** On a miss (no matching row, or a first matching row whose answer is
      empty), retrieval decides the prompt: the context-wrapped question
      when there is context, the bare question otherwise. */
  lemma MissGeneratesFromContext(query: string, rows: seq<Row>, ctx: string)
    requires !IsBlank(query)
    requires Lookup(rows, query).None? || Lookup(rows, query) == Some("")
    ensures Decide(query, rows, ctx) == Generate(if ctx != "" then RagPrompt(ctx, query) else query)
  {
    StripEmptyIffBlank(query);
  }

  /** The context prompt starts with the instruction, carries the retrieved
      context verbatim right after it and ends with the question. */
  lemma RagPromptCarriesContextAndQuestion(ctx: string, query: string)
    ensures StartsWith(RagPrompt(ctx, query), ContextInstruction)
    ensures OccursAt(RagPrompt(ctx, query), ctx, |ContextInstruction|)
    ensures EndsWith(RagPrompt(ctx, query), QuestionLabel + query)
    ensures Contains(RagPrompt(ctx, query), ctx) && Contains(RagPrompt(ctx, query), query)
  {
    ConcatPieces(ContextInstruction, ctx, QuestionLabel + query);
    EndsWithTail(RagPrompt(ctx, query), QuestionLabel, query);
  }

  /** Once a generated, non-empty answer has been cached for a question that
      nothing in the cache matched, asking the same question again is served
      from the cache, whatever retrieval would find then. */
  lemma RepeatedQueryServedFromCache(query: string, rows: seq<Row>, ctx: string, a: string)
    requires !IsBlank(query) && Lookup(rows, query).None? && a != ""
    ensures Decide(query, rows + [Row(query, a)], ctx) == FromCache(a)
  {
    LookupAfterInsert(rows, query, a);
    StripEmptyIffBlank(query);
  }

  /** When the first matching row holds an empty answer, the question is
      handled as a miss for good: `LIMIT 1` never reaches a later matching
      row, so neither a non-empty answer stored further on nor the one
      generated now and appended behind it is ever served. */
  lemma EmptyFirstAnswerShadowsLaterRows(query: string, rows: seq<Row>, more: seq<Row>, ctx: string)
    requires !IsBlank(query) && Lookup(rows, query) == Some("")
    ensures Decide(query, rows + more, ctx) == Generate(MissPrompt(ctx, query))
  {
    AppendKeepsEarlierHits(rows, more, query);
    StripEmptyIffBlank(query);
  }

  class SmartChatAgent {
    const rag: FileRag
    const db: SqlDatabase
    /** The chat-completions endpoint: what `requests.post` produces for
        the request carrying a prompt. */
    const post: string -> Response
    /** The record of calls into the cache, the store and the endpoint. */
    const trace: CallLog

    /** The cache and the store record their calls in the agent's log. */
    predicate Wired() {
      rag.trace == trace && db.trace == trace
    }

    constructor (embed: string -> Vector, nearest: (FlatIndex, Vector, int) -> seq<Label>,
                 stored: seq<Row>, post: string -> Response)
      ensures fresh(rag) && fresh(db) && fresh(trace) && Wired()
      ensures rag.embed == embed && rag.nearest == nearest && this.post == post
      ensures rag.docs == [] && rag.Valid()
      ensures db.rows == stored && trace.calls == []
    {
      var log := new CallLog();
      trace := log;
      rag := new FileRag(embed, nearest, log);
      db := new SqlDatabase(stored, log);
      this.post := post;
    }

    /** How `handle_query` routes `query` against the cache `rows` and the
        current documents. */
    ghost function Route(query: string, rows: seq<Row>): Decision
      reads rag
    {
      Decide(query, rows, rag.Retrieve(query, DefaultTopK))
    }

    /** `_groq_chat(prompt)`: the classification of what the endpoint
        produced for the request carrying `prompt`. */
    method GroqChat(prompt: string) returns (reply: string)
      modifies trace
      ensures reply == Classify(post(prompt))
      ensures StartsWith(reply, Warning) || Strip(reply) == reply
      ensures trace.calls == old(trace.calls) + [ChatRequest(prompt)]
    {
      trace.calls := trace.calls + [ChatRequest(prompt)];
      var res := post(prompt);
      reply := Classify(res);
      ClassifyIsWarningOrStripped(res);
    }

    /** The steps of `handle_query` after a cache miss: retrieve context,
        ask the chat model with the context prompt or the bare question,
        then cache the answer under the question, best effort:
        `storageFault` says whether the cache write fails, and the failure
        is swallowed. */
    method AnswerUncached(query: string, storageFault: bool) returns (answer: string)
      requires Wired()
      modifies db, trace
      ensures var prompt := MissPrompt(rag.Retrieve(query, DefaultTopK), query);
        answer == Classify(post(prompt))
        && db.rows == (if storageFault then old(db.rows) else old(db.rows) + [Row(query, answer)])
        && trace.calls == old(trace.calls) + [Retrieval(query, DefaultTopK)] + [ChatRequest(prompt)] + [CacheWrite(query, answer)]
    {
      var ragCtx := rag.Search(query, DefaultTopK);
      var prompt := if ragCtx != "" then RagPrompt(ragCtx, query) else query;
      answer := GroqChat(prompt);
      var _ := db.Insert(query, answer, storageFault);
    }

    /** `handle_query(query)`; `storageFault` says whether the cache write
        fails. A blank question consults nobody, a cache hit consults only
        the cache, and a miss consults the cache, the store, the endpoint
        and the cache again, in that order. */
    method HandleQuery(query: string, storageFault: bool) returns (answer: string)
      requires Wired()
      modifies db, trace
      ensures old(Route(query, db.rows)) == AskForQuestion ==>
        answer == PleaseType && db.rows == old(db.rows) && trace.calls == old(trace.calls)
      ensures old(Route(query, db.rows)).FromCache? ==>
        answer == FromDatabaseMarker + old(Route(query, db.rows)).answer
        && db.rows == old(db.rows) && trace.calls == old(trace.calls) + [CacheLookup(query)]
      ensures old(Route(query, db.rows)).Generate? ==>
        var prompt := old(Route(query, db.rows)).prompt;
        answer == Classify(post(prompt))
        && db.rows == (if storageFault then old(db.rows) else old(db.rows) + [Row(query, answer)])
        && trace.calls == old(trace.calls) + [CacheLookup(query)] + [Retrieval(query, DefaultTopK)]
                          + [ChatRequest(prompt)] + [CacheWrite(query, answer)]
    {
      ghost var rows0 := db.rows;
      ghost var d := Route(query, rows0);
      if query == "" || Strip(query) == "" {
        return PleaseType;
      }

      var dbAnswer := db.Query(query);
      if dbAnswer.Some? && dbAnswer.value != "" {
        answer := FromDatabaseMarker + dbAnswer.value;
        assert d == FromCache(dbAnswer.value);
        return;
      }

      assert d == Generate(MissPrompt(rag.Retrieve(query, DefaultTopK), query));
      answer := AnswerUncached(query, storageFault);
    }
  }
}
