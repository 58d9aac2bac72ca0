/** The router handler that executes a tool for a `tool_response` message
    and reports the outcome. The report is what the handler would log; it is
    returned here so its contents can be stated. */
module ToolCallMessages {
  import opened Common
  import Routing
  import Tools

  const Priority: int := 200

  /** The decoded payload: the tool's name and its arguments (a JSON null
      or absent `args` is the empty map). */
  datatype ToolCallPayload = ToolCallPayload(toolName: string, args: map<string, Value>)

  datatype Report = Report(toolName: string, result: Value, error: string, success: bool)

  /** `err` is what `Handle` returns; `executed` the call it made, if any;
      `report` the result record it built from that call. */
  datatype Handled = Handled(err: Option<string>, executed: Option<Tools.ToolCall>, report: Option<Report>)

  /** Decoding into the record: null leaves the zero record; an object
      supplies `tool_name` (string or null) and `args` (object or null);
      any other shape is rejected. */
  function DecodePayload(v: Value): (r: Decoded<ToolCallPayload>)
    ensures r.Decoded? <==>
      || v.Null?
      || (&& v.Object?
          && ("tool_name" in v.fields ==> v.fields["tool_name"].Null? || v.fields["tool_name"].Str?)
          && ("args" in v.fields ==> v.fields["args"].Null? || v.fields["args"].Object?))
    ensures v.Null? ==> r == Decoded(ToolCallPayload("", map[]))
    ensures r.Decoded? && v.Object? ==>
      && ("tool_name" in v.fields && v.fields["tool_name"].Str? ==> r.value.toolName == v.fields["tool_name"].s)
      && ("tool_name" !in v.fields || v.fields["tool_name"].Null? ==> r.value.toolName == "")
      && ("args" in v.fields && v.fields["args"].Object? ==> r.value.args == v.fields["args"].fields)
      && ("args" !in v.fields || v.fields["args"].Null? ==> r.value.args == map[])
  {
    match v
    case Null => Decoded(ToolCallPayload("", map[]))
    case Object(f) =>
      if "tool_name" in f && !(f["tool_name"].Null? || f["tool_name"].Str?) then Malformed("tool_name")
      else if "args" in f && !(f["args"].Null? || f["args"].Object?) then Malformed("args")
      else
        var name := if "tool_name" in f && f["tool_name"].Str? then f["tool_name"].s else "";
        var args := if "args" in f && f["args"].Object? then f["args"].fields else map[];
        Decoded(ToolCallPayload(name, args))
    case _ => Malformed("")
  }

  function EncodePayload(p: ToolCallPayload): Value
  {
    Object(map["tool_name" := Str(p.toolName), "args" := Object(p.args)])
  }

  lemma DecodeEncode(p: ToolCallPayload)
    ensures DecodePayload(EncodePayload(p)) == Decoded(p)
  {
    var fields := EncodePayload(p).fields;
    assert fields["tool_name"] == Str(p.toolName);
    assert fields["args"] == Object(p.args);
  }

  /** The handler as the router sees it: it sits in the `tool_response` list only. */
  const AsRouted: Routing.Handler := Routing.Handler("tool_call", OnlyTypes({Routing.ToolResponse}), Priority)

  /** Only `tool_response`, one of the types router registration looks at. */
  predicate CanHandle(msgType: string)
    ensures CanHandle(msgType) <==> Routing.CanHandle(AsRouted, msgType)
    ensures CanHandle(msgType) ==> msgType in Routing.RoutableTypes
  {
    msgType == Routing.ToolResponse
  }

  /** Any other type is ignored without a call; a payload that does not
      decode is the only error. Otherwise the call carries the message ID and
      the payload's name and arguments, and the handler succeeds whatever the
      tool did. */
  function Handle(tools: Tools.ToolManager, msg: Routing.Message, invoke: (Tools.Tool, map<string, Value>) -> Tools.HandlerOutcome): (r: Handled)
    reads tools
    ensures msg.msgType != Routing.ToolResponse ==> r == Handled(None, None, None)
    ensures msg.msgType == Routing.ToolResponse && DecodePayload(msg.payload).Malformed? ==>
      r.err.Some? && r.executed == None
    ensures msg.msgType == Routing.ToolResponse && DecodePayload(msg.payload).Decoded? ==>
      var p := DecodePayload(msg.payload).value;
      var call := Tools.ToolCall(msg.id, p.toolName, p.args);
      var result := tools.ExecuteTool(call, invoke);
      && r.err == None
      && r.executed == Some(call)
      && r.report == Some(Report(p.toolName, result.result, result.error, result.error == ""))
  {
    if msg.msgType != Routing.ToolResponse then Handled(None, None, None)
    else
      match DecodePayload(msg.payload)
      case Malformed(field) => Handled(Some("failed to parse tool call data: " + field), None, None)
      case Decoded(p) =>
        var call := Tools.ToolCall(msg.id, p.toolName, p.args);
        var result := tools.ExecuteTool(call, invoke);
        Handled(None, Some(call), Some(Report(p.toolName, result.result, result.error, result.error == "")))
  }

  /** A tool that is not registered still leaves the handler successful; the
      report says it failed. */
  lemma UnknownToolReportedNotFailed(tools: Tools.ToolManager, msg: Routing.Message,
                                      invoke: (Tools.Tool, map<string, Value>) -> Tools.HandlerOutcome)
    requires msg.msgType == Routing.ToolResponse
    requires DecodePayload(msg.payload).Decoded?
    requires DecodePayload(msg.payload).value.toolName !in tools.tools
    ensures Handle(tools, msg, invoke).err == None
    ensures !Handle(tools, msg, invoke).report.value.success
  {
    Tools.NotFoundMentionsTool(DecodePayload(msg.payload).value.toolName);
  }

  /** The reported success flag is true exactly when the tool is registered
      and its handler returned, or failed with an empty message. */
  lemma SuccessMeansToolRan(tools: Tools.ToolManager, msg: Routing.Message,
                            invoke: (Tools.Tool, map<string, Value>) -> Tools.HandlerOutcome)
    requires msg.msgType == Routing.ToolResponse
    requires DecodePayload(msg.payload).Decoded?
    ensures var p := DecodePayload(msg.payload).value;
      Handle(tools, msg, invoke).report.value.success <==>
        p.toolName in tools.tools
        && (invoke(tools.tools[p.toolName], p.args).Returned? || invoke(tools.tools[p.toolName], p.args) == Tools.Failed(""))
  {
    var p := DecodePayload(msg.payload).value;
    tools.ErrorEmptyMeansRan(Tools.ToolCall(msg.id, p.toolName, p.args), invoke);
  }
}
