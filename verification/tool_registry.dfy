/** The two tools the MCP server advertises in its `tools/list` answer, as
    data, and their rendering as the JSON Schema objects the server sends.

    JSON objects are maps here, so the order in which the properties are
    written is not part of the model. */
module ToolRegistry {
  import opened Wrappers
  import opened JsonValue

  /** One property of a tool's input schema. */
  datatype Param = Param(name: string, paramType: string, description: string, default: Option<Json>)

  /** A tool: its name, description, input properties and the names of the
      required properties (the `required` key is written only when there
      are some). */
  datatype Tool = Tool(name: string, description: string, params: seq<Param>, required: seq<string>)

  const SearchToolName: string := "search_documentation"
  const SchemaToolName: string := "get_database_schema"

  const SearchTool: Tool := Tool(
    SearchToolName,
    "Search CakePHP documentation with natural language queries",
    [ Param("query", "string", "Search query (e.g., \"how to save data\", \"belongsToMany\")", None),
      Param("limit", "integer", "Maximum number of results (default: 10)", Some(JInt(10))),
      Param("category", "string", "Filter by category (orm, controller, validation, etc.)", None) ],
    ["query"])

  const SchemaTool: Tool := Tool(
    SchemaToolName,
    "Get database schema information for tables",
    [ Param("table", "string", "Specific table name (omit for all tables)", None),
      Param("connection", "string", "Database connection name (default: \"default\")", Some(JStr("default"))) ],
    [])

  /** The advertised tools, in the order they are listed. */
  const Tools: seq<Tool> := [SearchTool, SchemaTool]

  /* ---------------- rendering ---------------- */

  /** A property's schema: type and description, plus `default` when it has one. */
  function ParamJson(p: Param): (j: Json)
    ensures j.JObj? && "type" in j.fields && "description" in j.fields
    ensures ("default" in j.fields) <==> p.default.Some?
  {
    var base := map["type" := JStr(p.paramType), "description" := JStr(p.description)];
    match p.default
    case Some(d) => JObj(base["default" := d])
    case None => JObj(base)
  }

  /** The `properties` object: one entry per parameter, keyed by its name. */
  function PropertiesMap(params: seq<Param>): (m: map<string, Json>)
    ensures m.Keys == set k | 0 <= k < |params| :: params[k].name
    decreases |params|
  {
    if |params| == 0 then map[]
    else
      var init := params[..|params| - 1];
      var last := params[|params| - 1];
      var m := PropertiesMap(init)[last.name := ParamJson(last)];
      assert forall k :: 0 <= k < |params| - 1 ==> params[k] == init[k];
      m
  }

  function StrArray(names: seq<string>): (items: seq<Json>)
    ensures |items| == |names|
    decreases |names|
  {
    if |names| == 0 then [] else [JStr(names[0])] + StrArray(names[1..])
  }

  /** The tool's `inputSchema`. */
  function InputSchema(t: Tool): Json {
    var base := map["type" := JStr("object"), "properties" := JObj(PropertiesMap(t.params))];
    if |t.required| == 0 then JObj(base) else JObj(base["required" := JArr(StrArray(t.required))])
  }

  function ToolJson(t: Tool): Json {
    JObj(map["name" := JStr(t.name), "description" := JStr(t.description), "inputSchema" := InputSchema(t)])
  }

  function ToolsJson(ts: seq<Tool>): (items: seq<Json>)
    ensures |items| == |ts|
    decreases |ts|
  {
    if |ts| == 0 then [] else [ToolJson(ts[0])] + ToolsJson(ts[1..])
  }

  /** The `result` member of the `tools/list` answer. It takes no input: the
      list does not depend on the request. */
  function ToolsListResult(): Json {
    JObj(map["tools" := JArr(ToolsJson(Tools))])
  }

  /* ---------------- reading a rendered tool back ---------------- */

  /** The string members of a JSON array, in order. */
  function StringsOf(items: seq<Json>): seq<string>
    decreases |items|
  {
    if |items| == 0 then []
    else (if items[0].JStr? then [items[0].s] else []) + StringsOf(items[1..])
  }

  /** `tool.inputSchema`, or null. */
  function SchemaOf(tool: Json): Json {
    Field(tool, "inputSchema", JNull)
  }

  /** The required property names a client reads: none when the key is absent. */
  function RequiredOf(tool: Json): seq<string> {
    match Get(SchemaOf(tool), "required")
    case Some(JArr(items)) => StringsOf(items)
    case _ => []
  }

  /** The property names a client reads. */
  function PropertyNames(tool: Json): set<string> {
    match Get(SchemaOf(tool), "properties")
    case Some(JObj(props)) => props.Keys
    case _ => {}
  }

  /** The default a client reads for a property, if any. */
  function DefaultOf(tool: Json, param: string): Option<Json> {
    match Get(SchemaOf(tool), "properties")
    case Some(props) => Get(Field(props, param, JNull), "default")
    case None => None
  }

  /** The names of the tools in a `tools/list` result. */
  function ListedNames(result: Json): seq<string> {
    match Get(result, "tools")
    case Some(JArr(items)) => NamesOf(items)
    case _ => []
  }

  function NamesOf(items: seq<Json>): seq<string>
    decreases |items|
  {
    if |items| == 0 then []
    else
      var rest := NamesOf(items[1..]);
      match Get(items[0], "name")
      case Some(JStr(n)) => [n] + rest
      case _ => rest
  }

  lemma {:induction false} StringsOfStrArray(names: seq<string>)
    ensures StringsOf(StrArray(names)) == names
    decreases |names|
  {
    if |names| > 0 {
      StringsOfStrArray(names[1..]);
    }
  }

  /** Parameter names are distinct, so each property's schema is its own. */
  predicate DistinctParams(params: seq<Param>) {
    forall i, j :: 0 <= i < j < |params| ==> params[i].name != params[j].name
  }

  lemma {:induction false} PropertiesMapHolds(params: seq<Param>, k: nat)
    requires DistinctParams(params)
    requires k < |params|
    ensures params[k].name in PropertiesMap(params)
    ensures PropertiesMap(params)[params[k].name] == ParamJson(params[k])
    decreases |params|
  {
    var init := params[..|params| - 1];
    if k < |params| - 1 {
      assert DistinctParams(init);
      PropertiesMapHolds(init, k);
      assert init[k] == params[k];
    }
  }

  lemma SchemaOfToolJson(t: Tool)
    ensures SchemaOf(ToolJson(t)) == InputSchema(t)
    ensures Get(InputSchema(t), "properties") == Some(JObj(PropertiesMap(t.params)))
  {
    assert Get(ToolJson(t), "inputSchema") == Some(InputSchema(t));
  }

  /** Rendering loses nothing a client reads: the name, the required list,
      the property names and each property's default all come back. */
  lemma ToolJsonRoundTrip(t: Tool)
    requires DistinctParams(t.params)
    ensures Get(ToolJson(t), "name") == Some(JStr(t.name))
    ensures RequiredOf(ToolJson(t)) == t.required
    ensures PropertyNames(ToolJson(t)) == set k | 0 <= k < |t.params| :: t.params[k].name
    ensures forall k :: 0 <= k < |t.params| ==> DefaultOf(ToolJson(t), t.params[k].name) == t.params[k].default
  {
    SchemaOfToolJson(t);
    RequiredRoundTrip(t);
    forall k | 0 <= k < |t.params|
      ensures DefaultOf(ToolJson(t), t.params[k].name) == t.params[k].default
    {
      DefaultRoundTrip(t, k);
    }
  }

  lemma RequiredRoundTrip(t: Tool)
    ensures RequiredOf(ToolJson(t)) == t.required
  {
    SchemaOfToolJson(t);
    StringsOfStrArray(t.required);
    if |t.required| == 0 {
      assert Get(InputSchema(t), "required") == None;
    } else {
      assert Get(InputSchema(t), "required") == Some(JArr(StrArray(t.required)));
    }
  }

  lemma DefaultRoundTrip(t: Tool, k: nat)
    requires DistinctParams(t.params)
    requires k < |t.params|
    ensures DefaultOf(ToolJson(t), t.params[k].name) == t.params[k].default
  {
    SchemaOfToolJson(t);
    PropertiesMapHolds(t.params, k);
    var p := t.params[k];
    assert Field(JObj(PropertiesMap(t.params)), p.name, JNull) == ParamJson(p);
  }

  lemma {:induction false} NamesOfTools(ts: seq<Tool>)
    ensures NamesOf(ToolsJson(ts)) == seq(|ts|, k requires 0 <= k < |ts| => ts[k].name)
    decreases |ts|
  {
    if |ts| > 0 {
      NamesOfTools(ts[1..]);
    }
  }

  /** `tools/list` advertises exactly search_documentation and
      get_database_schema, in that order. */
  lemma ListedToolNames()
    ensures ListedNames(ToolsListResult()) == [SearchToolName, SchemaToolName]
  {
    NamesOfTools(Tools);
  }

  /** search_documentation requires `query`, has the properties query, limit
      and category, and defaults `limit` to 10. */
  lemma SearchToolFacts()
    ensures RequiredOf(ToolJson(SearchTool)) == ["query"]
    ensures PropertyNames(ToolJson(SearchTool)) == {"query", "limit", "category"}
    ensures DefaultOf(ToolJson(SearchTool), "limit") == Some(JInt(10))
    ensures DefaultOf(ToolJson(SearchTool), "query") == None
  {
    var ps := SearchTool.params;
    assert DistinctParams(ps) by {
      assert ps[0].name == "query" && ps[1].name == "limit" && ps[2].name == "category";
    }
    assert RequiredOf(ToolJson(SearchTool)) == ["query"] by {
      RequiredRoundTrip(SearchTool);
    }
    assert PropertyNames(ToolJson(SearchTool)) == {"query", "limit", "category"} by {
      SchemaOfToolJson(SearchTool);
      assert PropertiesMap(ps).Keys == {"query", "limit", "category"};
    }
    DefaultRoundTrip(SearchTool, 0);
    DefaultRoundTrip(SearchTool, 1);
  }

  /** get_database_schema writes no `required` key and defaults
      `connection` to "default". */
  lemma SchemaToolFacts()
    ensures Get(SchemaOf(ToolJson(SchemaTool)), "required") == None
    ensures RequiredOf(ToolJson(SchemaTool)) == []
    ensures DefaultOf(ToolJson(SchemaTool), "connection") == Some(JStr("default"))
  {
    var ps := SchemaTool.params;
    assert ps[0].name == "table" && ps[1].name == "connection";
    assert DistinctParams(ps);
    RequiredRoundTrip(SchemaTool);
    SchemaOfToolJson(SchemaTool);
    DefaultRoundTrip(SchemaTool, 1);
  }
}
