/** Decides whether a model's answer is a usable batch of tool calls. */
module ResponseValidator {
  import opened Wrappers
  import opened Response

  datatype Rejection = EmptyBatch | UnknownTool(tool: string) | InvalidArguments | NoToolCall

  /** `argumentsClean` is the argument validator's verdict on a batch, and `rescue` whatever
      calls the text parser finds; of neither is anything assumed. */
  datatype Validator = Validator(
    toolNames: set<string>, argumentsClean: seq<ToolCall> -> bool,
    rescueEnabled: bool, rescue: string -> seq<ToolCall>)

  /** The first position at or after `i` of a call to a tool that is not known. */
  function FirstUnknown(names: set<string>, calls: seq<ToolCall>, i: nat): (p: nat)
    requires i <= |calls|
    ensures i <= p <= |calls|
    ensures p < |calls| ==> calls[p].tool !in names
    ensures forall j | i <= j < p :: calls[j].tool in names
    decreases |calls| - i
  {
    if i == |calls| || calls[i].tool !in names then i else FirstUnknown(names, calls, i + 1)
  }

  function ValidateToolCalls(v: Validator, calls: seq<ToolCall>): Result<seq<ToolCall>, Rejection> {
    if calls == [] then
      if v.toolNames == {} then Ok([]) else Err(EmptyBatch)
    else
      var p := FirstUnknown(v.toolNames, calls, 0);
      if p < |calls| then Err(UnknownTool(calls[p].tool))
      else if !v.argumentsClean(calls) then Err(InvalidArguments)
      else Ok(calls)
  }

  function Validate(v: Validator, response: LLMResponse): Result<seq<ToolCall>, Rejection> {
    match response
    case ToolCalls(calls) => ValidateToolCalls(v, calls)
    case Text(content) =>
      if v.rescueEnabled && v.rescue(content) != [] then Ok(v.rescue(content)) else Err(NoToolCall)
  }

  /** An answer of calls is passed on unchanged exactly when every tool is known and the arguments are
      clean; an empty one only where there are no tools. Text is accepted exactly as the calls rescued
      from it, whose arguments nobody has validated. */
  lemma ValidExactly(v: Validator, response: LLMResponse)
    ensures response.ToolCalls? ==>
              (Validate(v, response).Ok? <==>
                (forall i | 0 <= i < |response.calls| :: response.calls[i].tool in v.toolNames)
                && (if response.calls == [] then v.toolNames == {} else v.argumentsClean(response.calls)))
    ensures response.ToolCalls? && Validate(v, response).Ok? ==> Validate(v, response).value == response.calls
    ensures response.Text? ==> (Validate(v, response).Ok? <==> v.rescueEnabled && v.rescue(response.content) != [])
    ensures response.Text? && Validate(v, response).Ok? ==> Validate(v, response).value == v.rescue(response.content)
  {
  }

  /** Why an answer is rejected: an empty batch where there are tools, the first call to a tool that is not known,
      arguments that are not clean, or text without calls. */
  lemma {:induction false} RejectionsExactly(v: Validator, response: LLMResponse)
    ensures Validate(v, response) == Err(EmptyBatch) <==> response == ToolCalls([]) && v.toolNames != {}
    ensures forall t :: Validate(v, response) == Err(UnknownTool(t)) <==>
              response.ToolCalls? && exists i | 0 <= i < |response.calls| ::
                response.calls[i].tool == t && t !in v.toolNames
                    && forall j | 0 <= j < i :: response.calls[j].tool in v.toolNames
    ensures Validate(v, response) == Err(InvalidArguments) <==>
              response.ToolCalls? && response.calls != [] && !v.argumentsClean(response.calls)
              && forall i | 0 <= i < |response.calls| :: response.calls[i].tool in v.toolNames
    ensures Validate(v, response) == Err(NoToolCall) <==>
              response.Text? && !(v.rescueEnabled && v.rescue(response.content) != [])
  {
    if response.ToolCalls? {
      var p := FirstUnknown(v.toolNames, response.calls, 0);
      assert p < |response.calls| ==> response.calls[p].tool !in v.toolNames;
    }
  }
}
