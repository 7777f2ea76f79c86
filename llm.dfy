/** The text-generation capability, seen only through generate(prompt, max_tokens). */
module Llm {
  import opened Wrappers
  import opened Json

  /** A prompt, identified by the template it is built from and the values
      interpolated into it.  The idea prompt's text is
      OneDayApp.BuildIdeaPrompt(context), from which the context can be read
      back; the inspiration prompt is one fixed text. */
  datatype Prompt =
    | IdeaPrompt(userContext: string)
    | InspirationPrompt
    | SpecificationPrompt(idea: Json, themeName: Json)
    | UpdatePrompt(feedback: string, spec: Json)
    | MainFilePrompt(appName: Json, spec: Json)
    | ScreenPrompt(feature: string, context: Json)
    | ModelPrompt(model: string, context: Json)

  datatype Request = Request(prompt: Prompt, maxTokens: nat)

  /** What the next call returns, for a script of replies. */
  function NextReply(replies: seq<Option<string>>): Option<string> {
    if replies == [] then None else replies[0]
  }

  /** max_tokens when a caller passes none. */
  const DefaultMaxTokens: nat := 4000

  /** A provider whose replies are given in advance, in call order: Some(text)
      is a reply, None a call that raises (network, authentication or rate-limit
      error); once the replies are used up every call raises.  Every request is
      recorded. */
  class Provider {
    var replies: seq<Option<string>>
    var requests: seq<Request>

    constructor (script: seq<Option<string>>)
      ensures replies == script && requests == []
    {
      replies := script;
      requests := [];
    }

    method Generate(prompt: Prompt, maxTokens: nat) returns (reply: Option<string>)
      modifies this
      ensures requests == old(requests) + [Request(prompt, maxTokens)]
      ensures reply == NextReply(old(replies))
      ensures replies == if old(replies) == [] then [] else old(replies)[1..]
    {
      requests := requests + [Request(prompt, maxTokens)];
      if replies == [] {
        reply := None;
      } else {
        reply := replies[0];
        replies := replies[1..];
      }
    }
  }
}
