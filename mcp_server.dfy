/**
 * The stdio JSON-RPC server (mcp_server.py): the method dispatcher, the
 * `initialize` and `tools/list` answers, tool-call routing and the error
 * objects, with the codes of section 5.1 of the JSON-RPC 2.0 Specification.
 * The three tool bodies read the console, so a routed call ends in
 * `InvokeTool` rather than in a response.
 */
module Mcp {
  import opened Json

  const JSONRPC_VERSION: string := "2.0"
  const PROTOCOL_VERSION: string := "2024-11-05"
  const SERVER_NAME: string := "vibecode-feedback-server"
  const SERVER_VERSION: string := "1.0.0"

  /** Section 5.1 of the JSON-RPC 2.0 Specification. */
  const METHOD_NOT_FOUND: int := -32601
  const INVALID_PARAMS: int := -32602
  const INTERNAL_ERROR: int := -32603

  const ASK_USER_QUESTION: string := "ask_user_question"
  const REQUEST_CODE_REVIEW: string := "request_code_review"
  const GET_USER_PREFERENCE: string := "get_user_preference"

  /** A declared tool: its name, description and JSON Schema for the arguments. */
  datatype Tool = Tool(name: string, description: string, inputSchema: Object)

  /** A schema property with a type and a description. */
  function Property(kind: string, description: string): Json {
    JObj(map["type" := JStr(kind), "description" := JStr(description)])
  }

  /** An object schema over the given properties. */
  function ObjectSchema(properties: Object, required: seq<string>): Object {
    map[
      "type" := JStr("object"),
      "properties" := JObj(properties),
      "required" := JArr(seq(|required|, k requires 0 <= k < |required| => JStr(required[k])))]
  }

  /** The tools the server declares, in declaration order. */
  function DeclaredTools(): seq<Tool> {
    [
      Tool(ASK_USER_QUESTION, "Ask the user a question and wait for their feedback",
        ObjectSchema(map[
          "question" := Property("string", "The question to ask the user"),
          "context" := Property("string", "Optional context about what you're working on"),
          "urgency" := JObj(map[
            "type" := JStr("string"),
            "enum" := JArr([JStr("low"), JStr("medium"), JStr("high")]),
            "description" := JStr("How urgent this question is"),
            "default" := JStr("medium")])],
          ["question"])),
      Tool(REQUEST_CODE_REVIEW, "Request user review of code changes",
        ObjectSchema(map[
          "code" := Property("string", "The code to be reviewed"),
          "description" := Property("string", "Description of what the code does"),
          "concerns" := Property("string", "Any specific concerns or areas to focus on")],
          ["code", "description"])),
      Tool(GET_USER_PREFERENCE, "Get user preferences for coding decisions",
        ObjectSchema(map[
          "decision" := Property("string", "The decision or choice you need guidance on"),
          "options" := JObj(map[
            "type" := JStr("array"),
            "items" := JObj(map["type" := JStr("string")]),
            "description" := JStr("Available options to choose from")]),
          "context" := Property("string", "Context about why this decision needs to be made")],
          ["decision", "options"]))
    ]
  }

  /** The names `handle_call_tool` routes. */
  predicate IsToolName(name: string) {
    name == ASK_USER_QUESTION || name == REQUEST_CODE_REVIEW || name == GET_USER_PREFERENCE
  }

  /** How `tools/list` shows one tool. */
  function ToolEntry(tool: Tool): Json {
    JObj(map["name" := JStr(tool.name), "description" := JStr(tool.description), "inputSchema" := JObj(tool.inputSchema)])
  }

  /** The listed entries, one per tool in order. */
  function ToolEntries(tools: seq<Tool>): seq<Json> {
    seq(|tools|, k requires 0 <= k < |tools| => ToolEntry(tools[k]))
  }

  /** A successful JSON-RPC response. */
  function Success(id: Json, result: Json): Object {
    map["jsonrpc" := JStr(JSONRPC_VERSION), "id" := id, "result" := result]
  }

  /** `error_response(request_id, code, message)`. */
  function ErrorResponse(id: Json, code: int, message: string): (r: Object)
    ensures r.Keys == {"jsonrpc", "id", "error"}
    ensures r["jsonrpc"] == JStr(JSONRPC_VERSION) && r["id"] == id
    ensures r["error"].JObj? && r["error"].fields.Keys == {"code", "message"}
    ensures r["error"].fields["code"] == JInt(code) && r["error"].fields["message"] == JStr(message)
  {
    map["jsonrpc" := JStr(JSONRPC_VERSION), "id" := id,
        "error" := JObj(map["code" := JInt(code), "message" := JStr(message)])]
  }

  /** The code of an error response, if it is one. */
  function ErrorCode(r: Object): (code: Json) {
    if "error" in r && r["error"].JObj? && "code" in r["error"].fields then r["error"].fields["code"] else JNull
  }

  /** `handle_initialize(params, request_id)`: the parameters are ignored. */
  function InitializeResponse(id: Json): (r: Object)
    ensures r.Keys == {"jsonrpc", "id", "result"} && r["id"] == id
    ensures r["jsonrpc"] == JStr(JSONRPC_VERSION)
    ensures r["result"].JObj? && r["result"].fields.Keys == {"protocolVersion", "capabilities", "serverInfo"}
    ensures r["result"].fields["protocolVersion"] == JStr(PROTOCOL_VERSION)
    ensures r["result"].fields["serverInfo"] == JObj(map["name" := JStr(SERVER_NAME), "version" := JStr(SERVER_VERSION)])
    ensures r["result"].fields["capabilities"] == JObj(map["tools" := JObj(map[])])
  {
    Success(id, JObj(map[
      "protocolVersion" := JStr(PROTOCOL_VERSION),
      "capabilities" := JObj(map["tools" := JObj(map[])]),
      "serverInfo" := JObj(map["name" := JStr(SERVER_NAME), "version" := JStr(SERVER_VERSION)])]))
  }

  /** The response to `tools/list` for the given entries. */
  function ListToolsResponse(id: Json, entries: seq<Json>): Object {
    Success(id, JObj(map["tools" := JArr(entries)]))
  }

  /** The message of the AttributeError raised by `.get` on a value that is not a dict. */
  function NoGetMessage(v: Json): string {
    "Internal error: '" + TypeName(v) + "' object has no attribute 'get'"
  }

  /** What handling a request leads to: a response, or a call into one of the console tool bodies. */
  datatype Outcome = Respond(response: Object) | InvokeTool(tool: string, arguments: Object, id: Json)

  /** The outcome answers the request with the given id. */
  predicate Echoes(o: Outcome, id: Json) {
    match o
    case Respond(r) => "jsonrpc" in r && r["jsonrpc"] == JStr(JSONRPC_VERSION) && "id" in r && r["id"] == id
    case InvokeTool(_, _, i) => i == id
  }

  /**
   * `handle_call_tool(params, request_id)` inside the handler's `try`:
   * parameters or arguments that are not a dict make `.get` raise, which
   * becomes an internal error; an unrecognised name is invalid params.
   */
  function HandleCallTool(params: Json, id: Json): (o: Outcome)
    ensures Echoes(o, id)
    ensures o.InvokeTool? <==>
      params.JObj? && Get(params.fields, "name", JNull).JStr? && IsToolName(Get(params.fields, "name", JNull).s)
      && Get(params.fields, "arguments", JObj(map[])).JObj?
    ensures o.InvokeTool? ==>
      JStr(o.tool) == params.fields["name"] && JObj(o.arguments) == Get(params.fields, "arguments", JObj(map[]))
    ensures params.JObj? && !(Get(params.fields, "name", JNull).JStr? && IsToolName(Get(params.fields, "name", JNull).s)) ==>
      o == Respond(ErrorResponse(id, INVALID_PARAMS, "Unknown tool: " + Display(Get(params.fields, "name", JNull))))
  {
    if !params.JObj? then Respond(ErrorResponse(id, INTERNAL_ERROR, NoGetMessage(params)))
    else
      var name := Get(params.fields, "name", JNull);
      var arguments := Get(params.fields, "arguments", JObj(map[]));
      if name.JStr? && IsToolName(name.s) then
        if arguments.JObj? then InvokeTool(name.s, arguments.fields, id)
        else Respond(ErrorResponse(id, INTERNAL_ERROR, NoGetMessage(arguments)))
      else Respond(ErrorResponse(id, INVALID_PARAMS, "Unknown tool: " + Display(name)))
  }

  /** The methods `handle_request` dispatches on. */
  predicate IsKnownMethod(m: Json) {
    m == JStr("initialize") || m == JStr("tools/list") || m == JStr("tools/call")
  }

  /** The server object: its tool list is fixed when it is built. */
  class McpServer {
    const tools: seq<Tool>

    constructor ()
      ensures tools == DeclaredTools()
    {
      tools := DeclaredTools();
    }

    /** `handle_list_tools(request_id)`: one entry per declared tool, appended in order. */
    method HandleListTools(id: Json) returns (response: Object)
      ensures response == ListToolsResponse(id, ToolEntries(tools))
      ensures |ToolEntries(tools)| == |tools|
      ensures forall k | 0 <= k < |tools| :: ToolEntries(tools)[k].fields["name"] == JStr(tools[k].name)
    {
      var entries: seq<Json> := [];
      for i := 0 to |tools|
        invariant |entries| == i
        invariant forall k | 0 <= k < i :: entries[k] == ToolEntry(tools[k])
      {
        entries := entries + [ToolEntry(tools[i])];
      }
      assert entries == ToolEntries(tools);
      response := ListToolsResponse(id, entries);
    }

    /**
     * `handle_request(request)` for a request object: the method, the
     * parameters (an empty dict when absent) and the id (None when absent)
     * select the handler; any other method is method-not-found.
     */
    method HandleRequest(request: Object) returns (outcome: Outcome)
      ensures Echoes(outcome, Get(request, "id", JNull))
      ensures Get(request, "method", JNull) == JStr("initialize") ==>
        outcome == Respond(InitializeResponse(Get(request, "id", JNull)))
      ensures Get(request, "method", JNull) == JStr("tools/list") ==>
        outcome == Respond(ListToolsResponse(Get(request, "id", JNull), ToolEntries(tools)))
      ensures Get(request, "method", JNull) == JStr("tools/call") ==>
        outcome == HandleCallTool(Get(request, "params", JObj(map[])), Get(request, "id", JNull))
      ensures !IsKnownMethod(Get(request, "method", JNull)) ==>
        outcome == Respond(ErrorResponse(Get(request, "id", JNull), METHOD_NOT_FOUND,
                                         "Method not found: " + Display(Get(request, "method", JNull))))
    {
      var name := Get(request, "method", JNull);
      var params := Get(request, "params", JObj(map[]));
      var id := Get(request, "id", JNull);
      if name == JStr("initialize") {
        outcome := Respond(InitializeResponse(id));
      } else if name == JStr("tools/list") {
        var response := HandleListTools(id);
        outcome := Respond(response);
      } else if name == JStr("tools/call") {
        outcome := HandleCallTool(params, id);
      } else {
        outcome := Respond(ErrorResponse(id, METHOD_NOT_FOUND, "Method not found: " + Display(name)));
      }
    }
  }

  /** The three tools are listed in declaration order. */
  lemma DeclaredToolNames()
    ensures |DeclaredTools()| == 3
    ensures DeclaredTools()[0].name == ASK_USER_QUESTION
    ensures DeclaredTools()[1].name == REQUEST_CODE_REVIEW
    ensures DeclaredTools()[2].name == GET_USER_PREFERENCE
  {
  }

  /** Every listed tool can be called by name, and exactly the listed names are routed. */
  lemma ListedToolsAreCallable(name: string, arguments: Object, id: Json)
    ensures IsToolName(name) <==> exists k | 0 <= k < |DeclaredTools()| :: DeclaredTools()[k].name == name
    ensures IsToolName(name) ==>
      HandleCallTool(JObj(map["name" := JStr(name), "arguments" := JObj(arguments)]), id) == InvokeTool(name, arguments, id)
  {
    DeclaredToolNames();
    if IsToolName(name) {
      var k := if name == ASK_USER_QUESTION then 0 else if name == REQUEST_CODE_REVIEW then 1 else 2;
      assert DeclaredTools()[k].name == name;
    }
  }

  /** Any other tool name is rejected with invalid params, echoing the id. */
  lemma UnknownToolIsInvalidParams(name: string, id: Json)
    requires !IsToolName(name)
    ensures var o := HandleCallTool(JObj(map["name" := JStr(name)]), id);
      o.Respond? && ErrorCode(o.response) == JInt(INVALID_PARAMS) && o.response["id"] == id
      && o.response["error"].fields["message"] == JStr("Unknown tool: " + name)
  {
  }

  /** A call whose parameters or arguments are not a dict is an internal error, never a routed call. */
  lemma MalformedCallIsInternalError(params: Json, id: Json)
    requires !params.JObj? || (Get(params.fields, "name", JNull).JStr? && IsToolName(Get(params.fields, "name", JNull).s)
                               && !Get(params.fields, "arguments", JObj(map[])).JObj?)
    ensures var o := HandleCallTool(params, id);
      o.Respond? && ErrorCode(o.response) == JInt(INTERNAL_ERROR) && o.response["id"] == id
  {
  }
}
