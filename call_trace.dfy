/** A ghost record of the calls the query router makes to its
    collaborators. The cache, the document store and the chat endpoint share
    one `CallLog` and each appends its own entry when it is called, so a
    caller's contract over the log states which collaborators it consulted
    and in what order. */
module CallTrace {
  /** One call into a collaborator of `handle_query`. */
  datatype Call =
    | CacheLookup(question: string)
    | Retrieval(query: string, topK: int)
    | ChatRequest(prompt: string)
    | CacheWrite(question: string, answer: string)

  class CallLog {
    ghost var calls: seq<Call>

    constructor ()
      ensures calls == []
    {
      calls := [];
    }
  }
}
