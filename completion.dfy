/**
 The requests the core sends to the text-completion service. The service itself
 (a networked chat-completions endpoint) is outside the model: every operation
 that calls it takes it as a function parameter from a request to a reply.
 */
module Completion {

  import opened Wrappers

  /** The model identifier both components use unless told otherwise. */
  const DefaultModel: string := "llama-3.1-8b-instant"

  /** The fixed system instructions: summarise briefly, or extract the five-key user record as a JSON object. */
  datatype Instruction = SummarizeBriefly | ExtractUserDetails

  datatype CompletionRequest = CompletionRequest(
    model: string,
    instruction: Instruction,
    prompt: string,
    temperature: real,
    maxTokens: Option<nat>,
    jsonObjectMode: bool)
}
