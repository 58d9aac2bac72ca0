/** The tool registry: tools registered once under their name, looked up by
    name and executed through an abstract handler. What a tool's handler
    does with its arguments is the parameter `invoke`. */
module Tools {
  import opened Common
  import MapScan

  datatype Tool = Tool(name: string, description: string, parameters: map<string, Value>)

  datatype ToolCall = ToolCall(id: string, name: string, args: map<string, Value>)

  /** `error == ""` is Go's omitted error; `result == Null` is a nil result. */
  datatype ToolResult = ToolResult(id: string, name: string, result: Value, error: string)

  /** What a handler returns: a value, or an error carrying its message. */
  datatype HandlerOutcome = Returned(value: Value) | Failed(message: string)

  function AlreadyRegistered(name: string): string
  {
    "tool " + name + " already registered"
  }

  function NotFound(name: string): string
  {
    "tool " + name + " not found"
  }

  /** The not-found message always names the tool, so it is never empty. */
  lemma NotFoundMentionsTool(name: string)
    ensures |NotFound(name)| == |name| + 15
    ensures NotFound(name)[5..5 + |name|] == name
    ensures NotFound(name) != ""
  {
  }

  class ToolManager {
    var tools: map<string, Tool>

    /** Every tool is filed under its own name. */
    ghost predicate Valid()
      reads this
    {
      forall n :: n in tools ==> tools[n].name == n
    }

    constructor ()
      ensures Valid() && tools == map[]
    {
      tools := map[];
    }

    /** Rejects a name already taken; otherwise files the tool under its name. */
    method RegisterTool(t: Tool) returns (err: Option<string>)
      requires Valid()
      modifies this`tools
      ensures Valid()
      ensures t.name in old(tools) ==> err == Some(AlreadyRegistered(t.name)) && tools == old(tools)
      ensures t.name !in old(tools) ==> err == None && tools == old(tools)[t.name := t]
      ensures GetTool(t.name).Some?
    {
      if t.name in tools {
        return Some(AlreadyRegistered(t.name));
      }
      tools := tools[t.name := t];
      return None;
    }

    function GetTool(name: string): (r: Option<Tool>)
      reads this
      ensures r.Some? <==> name in tools
      ensures r.Some? ==> r.value == tools[name]
      ensures Valid() && r.Some? ==> r.value.name == name
    {
      if name in tools then Some(tools[name]) else None
    }

    /** One element per registered tool, in map-iteration order. */
    method ListTools() returns (r: seq<Tool>)
      requires Valid()
      ensures |r| == |tools|
      ensures forall t :: t in r <==> t in tools.Values
      ensures forall i, j :: 0 <= i < j < |r| ==> r[i].name != r[j].name
    {
      var names;
      names, r := MapScan.CollectWhere(tools, t => true);
      assert MapScan.KeysWhere(tools, t => true) == tools.Keys;
    }

    /** Never fails: the outcome, good or bad, is reported inside the result,
        which always echoes the call's ID and name. */
    function ExecuteTool(call: ToolCall, invoke: (Tool, map<string, Value>) -> HandlerOutcome): (r: ToolResult)
      reads this
      ensures r.id == call.id && r.name == call.name
      ensures GetTool(call.name).None? ==> r.error == NotFound(call.name) && r.result == Null
      ensures GetTool(call.name).Some? ==>
        match invoke(GetTool(call.name).value, call.args)
        case Failed(msg) => r.error == msg && r.result == Null
        case Returned(v) => r.error == "" && r.result == v
    {
      match GetTool(call.name)
      case None => ToolResult(call.id, call.name, Null, NotFound(call.name))
      case Some(t) =>
        match invoke(t, call.args)
        case Failed(msg) => ToolResult(call.id, call.name, Null, msg)
        case Returned(v) => ToolResult(call.id, call.name, v, "")
    }

    /** `error == ""` reports success unless a handler failed with an empty
        message: an unknown tool never looks successful. */
    lemma ErrorEmptyMeansRan(call: ToolCall, invoke: (Tool, map<string, Value>) -> HandlerOutcome)
      ensures ExecuteTool(call, invoke).error == "" <==>
        call.name in tools
        && (invoke(tools[call.name], call.args).Returned?
            || invoke(tools[call.name], call.args) == Failed(""))
    {
      NotFoundMentionsTool(call.name);
    }
  }
}
