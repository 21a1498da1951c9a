/** The messages of a conversation. */
module Transcript {
  import opened Wrappers

  datatype Role = System | User | Assistant | Tool

  datatype MessageType =
    | SystemPrompt | UserInput | ToolCall | ToolResult | Reasoning | TextResponse
    | StepNudge | PrerequisiteNudge | RetryNudge | ContextWarning | Summary

  predicate IsNudge(t: MessageType) {
    t.StepNudge? || t.PrerequisiteNudge? || t.RetryNudge?
  }

  /** One call of an assistant message: the tool's name and the call's identifier. */
  datatype CallInfo = CallInfo(name: string, callId: string)

  datatype Message = Message(
    role: Role,
    content: string,
    msgType: MessageType,
    stepIndex: Option<int>,
    toolName: Option<string>,
    toolCallId: Option<string>,
    toolCalls: Option<seq<CallInfo>>)
}
