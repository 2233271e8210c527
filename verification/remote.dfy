/** The remote text-generation and embedding service and the wall clock, as inputs.
    The code cannot see inside either, and neither is deterministic, so each is a
    total function of a call ordinal: the `call`-th remote call of a run receives
    `chat(call, ...)` or `embeddings(call, ...)` and is timed by `clock(call)`.
    A reply of `Err(e)` is the client raising `e` (timeout, transport failure,
    response without usage or choices). */
module Remote {
  import opened Results
  import opened Values

  type Vector = seq<real>

  /** The arguments of `client.chat.completions.create`; `timeout` is absent when the
      caller does not pass one. */
  datatype ChatRequest = ChatRequest(
    model: string,
    messages: seq<Json>,
    maxTokens: int,
    temperature: real,
    topP: real,
    frequencyPenalty: real,
    timeout: Option<int>)

  /** What the caller reads from a chat response: `usage.prompt_tokens`,
      `usage.completion_tokens` and `choices[0].message.content` (which may be None). */
  datatype ChatReply = ChatReply(promptTokens: int, completionTokens: int, content: Option<string>)

  /** What the caller reads from an embedding response: the `embedding` of each entry
      of `data`, in order, and `usage.total_tokens`. */
  datatype EmbedReply = EmbedReply(data: seq<Vector>, totalTokens: int)

  /** `time() - t0` around the call, and the `strftime('%Y-%m-%d %H:%M:%S', gmtime())`
      text taken after it. */
  datatype Timing = Timing(timestamp: string, timeTaken: real)

  datatype World = World(
    chat: (nat, ChatRequest) -> Result<ChatReply>,
    /** Arguments: call ordinal, model, and the `input` list sent. */
    embeddings: (nat, string, seq<string>) -> Result<EmbedReply>,
    clock: nat -> Timing)
}
