/** The tool dispatch table of server/registry.py: registration by name,
    the list of definitions announced to clients, and dispatch of a call to
    the handler registered under its name. A handler is modelled as a pure
    function from the call's arguments to the texts it returns. */
module Registry {
  import opened Wrappers
  import opened JsonValue
  import OrderedDict

  type Handler = Json -> seq<string>

  /** What `register` stores under a name. */
  datatype ToolEntry = ToolEntry(description: string, inputSchema: Json, handler: Handler)

  /** One announced tool. */
  datatype ToolDefinition = ToolDefinition(name: string, description: string, inputSchema: Json)

  type Table = OrderedDict.Dict<string, ToolEntry>

  /** `call_tool` on a table: an unknown name raises "Unknown tool: <name>";
      a known one runs its handler on the arguments. */
  function Dispatch(tools: Table, name: string, arguments: Json): (r: Result<seq<string>, string>)
    ensures r.Err? <==> !OrderedDict.HasKey(tools, name)
    ensures r.Err? ==> r.error == "Unknown tool: " + name
    ensures r.Ok? ==> exists i :: 0 <= i < |tools| && tools[i].0 == name && r.value == tools[i].1.handler(arguments)
  {
    match OrderedDict.Find(tools, name)
    case None => Err("Unknown tool: " + name)
    case Some(entry) => Ok(entry.handler(arguments))
  }

  /** The definitions of a table, in registration order. */
  function Definitions(tools: Table): (r: seq<ToolDefinition>)
    ensures |r| == |tools|
    ensures forall i :: 0 <= i < |r| ==>
      r[i] == ToolDefinition(tools[i].0, tools[i].1.description, tools[i].1.inputSchema)
  {
    seq(|tools|, i requires 0 <= i < |tools| => ToolDefinition(tools[i].0, tools[i].1.description, tools[i].1.inputSchema))
  }

  /** A call to a name just registered runs the new handler. */
  lemma DispatchAfterRegister(tools: Table, name: string, entry: ToolEntry, arguments: Json)
    ensures Dispatch(OrderedDict.Put(tools, name, entry), name, arguments) == Ok(entry.handler(arguments))
  {
    OrderedDict.PutFound(tools, name, entry);
  }

  /** Registering one name leaves dispatch of every other name as it was. */
  lemma DispatchOtherUnchanged(tools: Table, name: string, entry: ToolEntry, other: string, arguments: Json)
    requires other != name
    ensures Dispatch(OrderedDict.Put(tools, name, entry), other, arguments) == Dispatch(tools, other, arguments)
  {
    OrderedDict.PutOther(tools, name, entry, other);
  }

  /** With distinct keys there is exactly one definition per registered
      name. */
  lemma DefinitionsOnePerName(tools: Table)
    requires OrderedDict.Valid(tools)
    ensures forall i, j :: 0 <= i < j < |Definitions(tools)| ==> Definitions(tools)[i].name != Definitions(tools)[j].name
    ensures forall n :: (exists i :: 0 <= i < |Definitions(tools)| && Definitions(tools)[i].name == n) <==> OrderedDict.HasKey(tools, n)
  {
    DefinedIffRegistered(tools);
  }

  /** A name has a definition exactly when it is registered. */
  lemma DefinedIffRegistered(tools: Table)
    ensures forall n :: (exists i :: 0 <= i < |Definitions(tools)| && Definitions(tools)[i].name == n) <==> OrderedDict.HasKey(tools, n)
  {
    forall n
      ensures (exists i :: 0 <= i < |Definitions(tools)| && Definitions(tools)[i].name == n) <==> OrderedDict.HasKey(tools, n)
    {
      if OrderedDict.HasKey(tools, n) {
        var i :| 0 <= i < |OrderedDict.Keys(tools)| && OrderedDict.Keys(tools)[i] == n;
        assert Definitions(tools)[i].name == n;
      }
    }
  }

  class ToolRegistry {
    var tools: Table

    ghost predicate Valid()
      reads this
    {
      OrderedDict.Valid(tools)
    }

    constructor ()
      ensures Valid() && tools == []
    {
      tools := [];
    }

    /** `register(name, description, input_schema)` applied to `handler`:
        the entry replaces any earlier one of that name, keeping its place,
        or is appended; the handler is handed back unchanged. */
    method Register(name: string, description: string, inputSchema: Json, handler: Handler) returns (f: Handler)
      requires Valid()
      modifies this
      ensures Valid()
      ensures f == handler
      ensures tools == OrderedDict.Put(old(tools), name, ToolEntry(description, inputSchema, handler))
    {
      OrderedDict.PutValid(tools, name, ToolEntry(description, inputSchema, handler));
      tools := OrderedDict.Put(tools, name, ToolEntry(description, inputSchema, handler));
      f := handler;
    }

    /** `get_tool_definitions` */
    function GetToolDefinitions(): (r: seq<ToolDefinition>)
      reads this
      ensures |r| == |tools|
      ensures forall n :: (exists i :: 0 <= i < |r| && r[i].name == n) <==> OrderedDict.HasKey(tools, n)
    {
      DefinedIffRegistered(tools);
      Definitions(tools)
    }

    /** `call_tool` (sync and async handlers alike). */
    function CallTool(name: string, arguments: Json): (r: Result<seq<string>, string>)
      reads this
      ensures r.Err? <==> !OrderedDict.HasKey(tools, name)
      ensures r.Err? ==> r.error == "Unknown tool: " + name
    {
      Dispatch(tools, name, arguments)
    }
  }

  /** Registering a tool makes calls to its name reach its handler, and
      leaves calls to other names as they were. */
  method RegisterThenCall(r: ToolRegistry, name: string, description: string, schema: Json,
                          handler: Handler, other: string, arguments: Json)
    requires r.Valid() && other != name
    modifies r
    ensures r.CallTool(name, arguments) == Ok(handler(arguments))
    ensures r.CallTool(other, arguments) == old(r.CallTool(other, arguments))
  {
    var _ := r.Register(name, description, schema, handler);
    DispatchAfterRegister(old(r.tools), name, ToolEntry(description, schema, handler), arguments);
    DispatchOtherUnchanged(old(r.tools), name, ToolEntry(description, schema, handler), other, arguments);
  }
}
