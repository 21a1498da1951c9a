/** What a language model answers with. */
module Response {
  import opened Wrappers
  import Json

  /** Arguments in the order the model gave them. */
  type Args = seq<Json.Member>

  datatype ToolCall = ToolCall(tool: string, args: Args, reasoning: Option<string>, id: Option<string>)

  datatype LLMResponse = ToolCalls(calls: seq<ToolCall>) | Text(content: string)
}
