/** BoostMcpServerCommand: the Model Context Protocol server. It reads one
    JSON-RPC request per line and writes one JSON-RPC message per request.

    The loop is a fold over the input lines. Reading stdin, writing stdout,
    json_decode and json_encode are the parameters of an environment; the
    messages are structured JSON values, not their text.

    The file declares strict_types, so passing a non-array where a parameter
    is typed `array`, or a non-string value to a `string` parameter (the
    indexer's query, the connection name of ConnectionManager::get(), the
    table name of describe()), raises a TypeError. That is an Error, not an
    Exception: the `catch (\Exception)` in tools/call does not catch it and
    the server stops. The model calls this outcome Fatal. */
module McpServer {
  import opened Wrappers
  import opened PhpStrings
  import opened JsonValue
  import opened DocStore
  import opened DocSearch
  import FtsQuery
  import opened ToolRegistry

  const ParseErrorCode: int := -32700
  const MethodNotFoundCode: int := -32601
  const ToolErrorCode: int := -32000

  const ParseErrorMessage: string := "Parse error"
  const MethodNotFoundMessage: string := "Method not found"
  const QueryRequiredMessage: string := "Query parameter is required"
  const UnknownToolPrefix: string := "Unknown tool: "

  /** json_decode($line, true): a value, or a decoding error. */
  datatype Decoded = Decoded(value: Json) | Malformed

  /** What the server works with besides the request lines.
      - `openFault` is the message of the exception `new DocumentationIndexer()`
        throws when it cannot create or open the index database, if any;
      - `encode` is json_encode(..., JSON_PRETTY_PRINT), which yields false
        (None) for a value it cannot encode;
      - `connect` is the message of the exception ConnectionManager::get()
        throws for a connection name, if any;
      - `listTables` and `describe` are the schema collection's
        listTables() and describe(): the table names of a connection, and
        the description (columns, primary key, indexes, constraints) of one
        table, or the message of the exception they throw. */
  datatype Env = Env(
    store: Store,
    engine: Engine,
    openFault: Option<string>,
    decode: string -> Decoded,
    encode: Json -> Option<string>,
    connect: string -> Option<string>,
    listTables: string -> Result<seq<string>, string>,
    describe: (string, string) -> Result<Json, string>)

  /** handleRequest's outcome: a message to send, or a TypeError. */
  datatype Reply = Respond(message: Json) | Fatal

  /** A tool's outcome: its payload, an Exception's message, or a TypeError. */
  datatype ToolOutcome = ToolDone(payload: Json) | ToolFailed(message: string) | ToolCrashed

  /* ---------------- the JSON-RPC envelope ---------------- */

  function IdOf(m: Json): Option<Json> {
    Get(m, "id")
  }

  function ResultOf(m: Json): Option<Json> {
    Get(m, "result")
  }

  function ErrorCodeOf(m: Json): Option<int> {
    match Get(m, "error")
    case Some(e) =>
      (match Get(e, "code")
       case Some(JInt(c)) => Some(c)
       case _ => None)
    case None => None
  }

  function ErrorMessageOf(m: Json): Option<string> {
    match Get(m, "error")
    case Some(e) =>
      (match Get(e, "message")
       case Some(JStr(s)) => Some(s)
       case _ => None)
    case None => None
  }

  /** A JSON-RPC 2.0 message: version tag, an id, and exactly one of a
      result or an error carrying an integer code and a string message. */
  predicate IsEnvelope(m: Json) {
    && Get(m, "jsonrpc") == Some(JStr("2.0"))
    && IdOf(m).Some?
    && (ResultOf(m).Some? <==> Get(m, "error").None?)
    && (Get(m, "error").Some? ==> ErrorCodeOf(m).Some? && ErrorMessageOf(m).Some?)
  }

  /** A success message. */
  function ResultMsg(id: Json, result: Json): (m: Json)
    ensures IsEnvelope(m)
    ensures IdOf(m) == Some(id) && ResultOf(m) == Some(result)
    ensures ErrorCodeOf(m) == None
  {
    JObj(map["jsonrpc" := JStr("2.0"), "id" := id, "result" := result])
  }

  /** sendError($id, $code, $message), and the error arrays of
      handleRequest and handleToolsCall, which have the same shape. */
  function ErrorMsg(id: Json, code: int, message: string): (m: Json)
    ensures IsEnvelope(m)
    ensures IdOf(m) == Some(id) && ResultOf(m) == None
    ensures ErrorCodeOf(m) == Some(code) && ErrorMessageOf(m) == Some(message)
  {
    var e := JObj(map["code" := JInt(code), "message" := JStr(message)]);
    assert Get(e, "code") == Some(JInt(code));
    JObj(map["jsonrpc" := JStr("2.0"), "id" := id, "error" := e])
  }

  /* ---------------- routing ---------------- */

  datatype Method = Initialize | ToolsList | ToolsCall | Ping | Unknown

  /** switch ($method) compares loosely. A string matches a case label only
      when equal to it (no label is numeric); `true` equals any non-empty
      string, so it takes the first case; every other non-string matches
      nothing. */
  function Route(name: Json): Method {
    match name
    case JStr(s) =>
      if s == "initialize" then Initialize
      else if s == "tools/list" then ToolsList
      else if s == "tools/call" then ToolsCall
      else if s == "ping" then Ping
      else Unknown
    case JBool(b) => if b then Initialize else Unknown
    case _ => Unknown
  }

  function MethodOf(req: Json): Json {
    Field(req, "method", JStr(""))
  }

  function ParamsOf(req: Json): Json {
    Field(req, "params", JArr([]))
  }

  /** `$request['id'] ?? null`. */
  function RequestId(req: Json): Json {
    Field(req, "id", JNull)
  }

  /* ---------------- initialize, tools/list, ping ---------------- */

  function InitializeResult(): Json {
    JObj(map[
      "protocolVersion" := JStr("1.0"),
      "serverInfo" := JObj(map["name" := JStr("cakephp-boost"), "version" := JStr("1.0.0")]),
      "capabilities" := JObj(map["tools" := JBool(true)])])
  }

  function PingResult(): Json {
    JObj(map["status" := JStr("ok")])
  }

  /* ---------------- search_documentation ---------------- */

  /** The indexer call toolSearchDocumentation makes. */
  datatype SearchCall = SearchCall(query: string, limit: int, types: seq<string>, categories: seq<string>)

  /** The arguments of the search call, for a non-empty string query. */
  function SearchCallOf(args: Json, query: string): (c: SearchCall)
    ensures c.query == query
    ensures Get(args, "limit").None? || Get(args, "limit") == Some(JNull) ==> c.limit == 10
    ensures forall n :: Get(args, "limit") == Some(JInt(n)) ==> c.limit == n
    ensures c.types == []
    ensures |c.categories| <= 1
    ensures c.categories == [] <==> IsEmpty(Field(args, "category", JNull))
    ensures forall s :: Get(args, "category") == Some(JStr(s)) && !IsEmptyString(s) ==> c.categories == [s]
  {
    var limit := ToInt(Field(args, "limit", JInt(10)));
    var category := Field(args, "category", JNull);
    var categories := if IsEmpty(category) then [] else [ToPhpString(category)];
    SearchCall(query, limit, [], categories)
  }

  function CategoryJson(c: Option<string>): Json {
    match c
    case Some(s) => JStr(s)
    case None => JNull
  }

  /** One fetched row, as PDO::FETCH_ASSOC keys it. */
  function ResultJson(r: SearchResult): Json {
    JObj(map[
      "title" := JStr(r.title),
      "url" := JStr(r.url),
      "type" := JStr(r.docType),
      "category" := CategoryJson(r.category),
      "snippet" := JStr(r.snippet),
      "relevance" := JInt(r.relevance)])
  }

  function ResultsJson(rs: seq<SearchResult>): (items: seq<Json>)
    ensures |items| == |rs|
    ensures forall k :: 0 <= k < |rs| ==> items[k] == ResultJson(rs[k])
    decreases |rs|
  {
    if |rs| == 0 then [] else [ResultJson(rs[0])] + ResultsJson(rs[1..])
  }

  /** The tool's payload: the query as given, the result count and the rows. */
  function SearchPayload(query: Json, rs: seq<SearchResult>): (p: Json)
    ensures Get(p, "query") == Some(query)
    ensures Get(p, "total_results") == Some(JInt(|rs|))
    ensures Get(p, "results") == Some(JArr(ResultsJson(rs)))
  {
    JObj(map["query" := query, "total_results" := JInt(|rs|), "results" := JArr(ResultsJson(rs))])
  }

  function QueryArg(args: Json): Json {
    Field(args, "query", JStr(""))
  }

  /** toolSearchDocumentation(array $args). The empty() check comes first,
      then the indexer is constructed, and only then is the query passed to
      the `string` parameter of search(). */
  function SearchDocumentation(env: Env, args: Json): (o: ToolOutcome)
    ensures !IsArray(args) ==> o == ToolCrashed
    ensures IsArray(args) && IsEmpty(QueryArg(args)) ==> o == ToolFailed(QueryRequiredMessage)
    ensures IsArray(args) && !IsEmpty(QueryArg(args)) && env.openFault.Some? ==> o == ToolFailed(env.openFault.value)
    ensures o.ToolCrashed? <==> !IsArray(args) || (!IsEmpty(QueryArg(args)) && env.openFault.None? && !QueryArg(args).JStr?)
    ensures o.ToolDone? ==> QueryArg(args).JStr?
  {
    if !IsArray(args) then ToolCrashed
    else
      var query := QueryArg(args);
      if IsEmpty(query) then ToolFailed(QueryRequiredMessage)
      else if env.openFault.Some? then ToolFailed(env.openFault.value)
      else if !query.JStr? then ToolCrashed
      else
        var c := SearchCallOf(args, query.s);
        match Search(env.engine, env.store, c.query, c.limit, c.types, c.categories)
        case Failure(msg) => ToolFailed(msg)
        case Success(rs) => ToolDone(SearchPayload(query, rs))
  }

  /* ---------------- get_database_schema ---------------- */

  /** `$args['connection'] ?? 'default'`. */
  function ConnectionArg(args: Json): Json {
    Field(args, "connection", JStr("default"))
  }

  /** `$args['table'] ?? null`. */
  function TableArg(args: Json): Json {
    Field(args, "table", JNull)
  }

  /** The foreach over the tables: each table's description under its name,
      or the exception of the first describe() that throws. */
  function DescribeAll(env: Env, conn: string, names: seq<string>): (r: Result<map<string, Json>, string>)
    ensures r.Success? <==> forall k :: 0 <= k < |names| ==> env.describe(conn, names[k]).Success?
    ensures r.Success? ==> r.value.Keys == set t | t in names
    ensures r.Success? ==> forall t :: t in r.value ==> env.describe(conn, t) == Success(r.value[t])
    decreases |names|
  {
    if |names| == 0 then Success(map[])
    else
      match env.describe(conn, names[0])
      case Failure(msg) => Failure(msg)
      case Success(d) =>
        var rest := DescribeAll(env, conn, names[1..]);
        assert forall k :: 1 <= k < |names| ==> names[k] == names[1..][k - 1];
        match rest
        case Failure(msg) => Failure(msg)
        case Success(m) =>
          assert names == [names[0]] + names[1..];
          Success(map[names[0] := d] + m)
  }

  /** The error describe() reports is that of the first table it fails on. */
  lemma {:induction false} DescribeFirstFailure(env: Env, conn: string, names: seq<string>)
    requires DescribeAll(env, conn, names).Failure?
    ensures exists k ::
      && 0 <= k < |names|
      && env.describe(conn, names[k]) == Failure(DescribeAll(env, conn, names).error)
      && (forall j :: 0 <= j < k ==> env.describe(conn, names[j]).Success?)
    decreases |names|
  {
    var err := DescribeAll(env, conn, names).error;
    if env.describe(conn, names[0]).Success? {
      DescribeFirstFailure(env, conn, names[1..]);
      var k :| 0 <= k < |names| - 1 && env.describe(conn, names[1..][k]) == Failure(err) &&
        (forall j :: 0 <= j < k ==> env.describe(conn, names[1..][j]).Success?);
      assert forall j :: 1 <= j < k + 1 ==> names[j] == names[1..][j - 1];
      assert env.describe(conn, names[k + 1]) == Failure(err);
    } else {
      assert env.describe(conn, names[0]) == Failure(err);
    }
  }

  /** The tool's payload: the connection name and the described tables. */
  function SchemaOutcome(conn: string, tables: Result<map<string, Json>, string>): ToolOutcome {
    match tables
    case Failure(msg) => ToolFailed(msg)
    case Success(m) => ToolDone(JObj(map["connection" := JStr(conn), "tables" := JObj(m)]))
  }

  /** The `tables` member of a schema payload. */
  function SchemaTables(p: Json): map<string, Json> {
    match Get(p, "tables")
    case Some(JObj(m)) => m
    case _ => map[]
  }

  /** toolGetDatabaseSchema(array $args). ConnectionManager::get() takes a
      `string` name and describe() a `string` table, so a non-string
      connection, or a truthy non-string table once the connection is
      found, is a TypeError. */
  function DatabaseSchema(env: Env, args: Json): (o: ToolOutcome)
    ensures o.ToolCrashed? <==>
      || !IsArray(args)
      || !ConnectionArg(args).JStr?
      || (env.connect(ConnectionArg(args).s).None? && !IsEmpty(TableArg(args)) && !TableArg(args).JStr?)
    ensures IsArray(args) && ConnectionArg(args).JStr? && env.connect(ConnectionArg(args).s).Some? ==>
      o == ToolFailed(env.connect(ConnectionArg(args).s).value)
    ensures o.ToolDone? ==> Get(o.payload, "connection") == Some(ConnectionArg(args))
    ensures o.ToolDone? && ConnectionArg(args).JStr? ==>
      forall t :: t in SchemaTables(o.payload) ==> env.describe(ConnectionArg(args).s, t) == Success(SchemaTables(o.payload)[t])
    ensures o.ToolDone? && TableArg(args).JStr? && !IsEmpty(TableArg(args)) ==>
      SchemaTables(o.payload).Keys == {TableArg(args).s}
    ensures o.ToolDone? && ConnectionArg(args).JStr? && IsEmpty(TableArg(args)) ==>
      env.listTables(ConnectionArg(args).s).Success? &&
      SchemaTables(o.payload).Keys == set t | t in env.listTables(ConnectionArg(args).s).value
  {
    if !IsArray(args) then ToolCrashed
    else
      var conn := ConnectionArg(args);
      if !conn.JStr? then ToolCrashed
      else
        match env.connect(conn.s)
        case Some(msg) => ToolFailed(msg)
        case None =>
          var table := TableArg(args);
          if IsEmpty(table) then
            match env.listTables(conn.s)
            case Failure(msg) => ToolFailed(msg)
            case Success(names) => SchemaOutcome(conn.s, DescribeAll(env, conn.s, names))
          else if table.JStr? then
            assert (set t | t in [table.s]) == {table.s};
            SchemaOutcome(conn.s, DescribeAll(env, conn.s, [table.s]))
          else ToolCrashed
  }

  /* ---------------- tools/call ---------------- */

  function ToolNameOf(params: Json): Json {
    Field(params, "name", JStr(""))
  }

  function ArgumentsOf(params: Json): Json {
    Field(params, "arguments", JArr([]))
  }

  /** `match ($toolName)` compares strictly. */
  function CallTool(env: Env, name: Json, args: Json): ToolOutcome {
    if name == JStr(SearchToolName) then SearchDocumentation(env, args)
    else if name == JStr(SchemaToolName) then DatabaseSchema(env, args)
    else ToolFailed(UnknownToolPrefix + ToPhpString(name))
  }

  /** The text json_encode gives, or false when it fails. */
  function TextOf(encoded: Option<string>): Json {
    match encoded
    case Some(s) => JStr(s)
    case None => JBool(false)
  }

  /** The `result` member wrapping a tool's payload as one text item. */
  function ContentResult(env: Env, payload: Json): Json {
    JObj(map["content" := JArr([JObj(map["type" := JStr("text"), "text" := TextOf(env.encode(payload))])])])
  }

  /** handleToolsCall($id, array $params). */
  function HandleToolsCall(env: Env, id: Json, params: Json): (r: Reply)
    ensures r.Respond? ==> IsEnvelope(r.message) && IdOf(r.message) == Some(id)
    ensures r.Fatal? <==> CallTool(env, ToolNameOf(params), ArgumentsOf(params)).ToolCrashed?
    ensures r.Respond? && ErrorCodeOf(r.message).Some? ==> ErrorCodeOf(r.message) == Some(ToolErrorCode)
  {
    match CallTool(env, ToolNameOf(params), ArgumentsOf(params))
    case ToolDone(payload) => Respond(ResultMsg(id, ContentResult(env, payload)))
    case ToolFailed(msg) => Respond(ErrorMsg(id, ToolErrorCode, msg))
    case ToolCrashed => Fatal
  }

  /* ---------------- handleRequest ---------------- */

  /** handleRequest(array $request). It never returns null, so every request
      that does not end the server gets exactly one message. */
  function HandleRequest(env: Env, req: Json): (r: Reply)
    ensures !IsArray(req) ==> r == Fatal
    ensures r.Respond? ==> IsEnvelope(r.message) && IdOf(r.message) == Some(RequestId(req))
  {
    if !IsArray(req) then Fatal
    else
      var id := RequestId(req);
      var params := ParamsOf(req);
      match Route(MethodOf(req))
      case Initialize => if IsArray(params) then Respond(ResultMsg(id, InitializeResult())) else Fatal
      case ToolsList => Respond(ResultMsg(id, ToolsListResult()))
      case ToolsCall => if IsArray(params) then HandleToolsCall(env, id, params) else Fatal
      case Ping => Respond(ResultMsg(id, PingResult()))
      case Unknown => Respond(ErrorMsg(id, MethodNotFoundCode, MethodNotFoundMessage))
  }

  /* ---------------- the line loop ---------------- */

  datatype Step = Skip | Emit(message: Json) | Halt

  /** A line that trims to "" or "0" is empty() and skipped. */
  predicate IsBlankLine(line: string) {
    IsEmptyString(Trim(line))
  }

  /** One iteration of execute()'s while loop. */
  function StepOf(env: Env, line: string): (s: Step)
    ensures s.Skip? <==> IsBlankLine(line)
    ensures s.Emit? ==> IsEnvelope(s.message)
  {
    var t := Trim(line);
    if IsEmptyString(t) then Skip
    else
      match env.decode(t)
      case Malformed => Emit(ErrorMsg(JNull, ParseErrorCode, ParseErrorMessage))
      case Decoded(v) =>
        match HandleRequest(env, v)
        case Respond(m) => Emit(m)
        case Fatal => Halt
  }

  /** Whether the loop ran to end of input or stopped on a TypeError. */
  datatype Status = Closed | Crashed

  datatype Transcript = Transcript(out: seq<Json>, status: Status)

  function NonBlankCount(lines: seq<string>): (n: nat)
    ensures n <= |lines|
    decreases |lines|
  {
    if |lines| == 0 then 0
    else (if IsBlankLine(lines[0]) then 0 else 1) + NonBlankCount(lines[1..])
  }

  /** The step taken for each line, if the loop gets that far. */
  function Steps(env: Env, lines: seq<string>): (ss: seq<Step>)
    ensures |ss| == |lines|
    ensures forall k :: 0 <= k < |lines| ==> ss[k] == StepOf(env, lines[k])
  {
    seq(|lines|, k requires 0 <= k < |lines| => StepOf(env, lines[k]))
  }

  function AnsweredCount(ss: seq<Step>): (n: nat)
    ensures n <= |ss|
    decreases |ss|
  {
    if |ss| == 0 then 0
    else (if ss[0].Skip? then 0 else 1) + AnsweredCount(ss[1..])
  }

  predicate EmitsEnvelopes(ss: seq<Step>) {
    forall k :: 0 <= k < |ss| && ss[k].Emit? ==> IsEnvelope(ss[k].message)
  }

  /** The while loop over the steps: a skipped line writes nothing, an
      answered one writes its message, and a TypeError ends the loop. */
  function Fold(ss: seq<Step>): (t: Transcript)
    ensures |t.out| <= AnsweredCount(ss)
    ensures t.status == Closed ==> |t.out| == AnsweredCount(ss)
    ensures EmitsEnvelopes(ss) ==> forall k :: 0 <= k < |t.out| ==> IsEnvelope(t.out[k])
    decreases |ss|
  {
    if |ss| == 0 then Transcript([], Closed)
    else
      var rest := Fold(ss[1..]);
      assert EmitsEnvelopes(ss) ==> EmitsEnvelopes(ss[1..]) by {
        assert forall k :: 0 <= k < |ss| - 1 ==> ss[1..][k] == ss[k + 1];
      }
      match ss[0]
      case Skip => rest
      case Emit(m) => Transcript([m] + rest.out, rest.status)
      case Halt => Transcript([], Crashed)
  }

  lemma {:induction false} AnsweredCountOfSteps(env: Env, lines: seq<string>)
    ensures AnsweredCount(Steps(env, lines)) == NonBlankCount(lines)
    decreases |lines|
  {
    if |lines| > 0 {
      AnsweredCountOfSteps(env, lines[1..]);
      assert Steps(env, lines)[1..] == Steps(env, lines[1..]);
    }
  }

  /** execute(): the messages written for the given stdin lines. */
  function Run(env: Env, lines: seq<string>): (t: Transcript)
    ensures |t.out| <= NonBlankCount(lines)
    ensures t.status == Closed ==> |t.out| == NonBlankCount(lines)
    ensures forall k :: 0 <= k < |t.out| ==> IsEnvelope(t.out[k])
  {
    AnsweredCountOfSteps(env, lines);
    Fold(Steps(env, lines))
  }

  lemma StepsAppend(env: Env, a: seq<string>, b: seq<string>)
    ensures Steps(env, a + b) == Steps(env, a) + Steps(env, b)
  {
    assert forall k :: 0 <= k < |a| + |b| ==> (a + b)[k] == if k < |a| then a[k] else b[k - |a|];
  }

  lemma {:induction false} FoldAppend(s1: seq<Step>, s2: seq<Step>)
    ensures Fold(s1 + s2) ==
      if Fold(s1).status == Crashed then Fold(s1)
      else Transcript(Fold(s1).out + Fold(s2).out, Fold(s2).status)
    decreases |s1|
  {
    if |s1| == 0 {
      assert s1 + s2 == s2;
    } else {
      assert (s1 + s2)[1..] == s1[1..] + s2;
      FoldAppend(s1[1..], s2);
      if s1[0].Emit? && Fold(s1[1..]).status == Closed {
        var m := s1[0].message;
        assert [m] + (Fold(s1[1..]).out + Fold(s2).out) == ([m] + Fold(s1[1..]).out) + Fold(s2).out;
      }
    }
  }

  /** The first line's step, then the rest. */
  lemma RunCons(env: Env, line: string, rest: seq<string>)
    ensures Run(env, [line] + rest) ==
      match StepOf(env, line)
      case Skip => Run(env, rest)
      case Emit(m) => Transcript([m] + Run(env, rest).out, Run(env, rest).status)
      case Halt => Transcript([], Crashed)
  {
    StepsAppend(env, [line], rest);
    assert (Steps(env, [line]) + Steps(env, rest))[1..] == Steps(env, rest);
  }

  /* ---------------- properties ---------------- */

  /** The loose switch, stated per case: a method selects a handler exactly
      when it is that handler's name, except that `true` also selects
      initialize. */
  lemma LooseSwitchCases(v: Json)
    ensures Route(v) == Initialize <==> v == JStr("initialize") || v == JBool(true)
    ensures Route(v) == ToolsList <==> v == JStr("tools/list")
    ensures Route(v) == ToolsCall <==> v == JStr("tools/call")
    ensures Route(v) == Ping <==> v == JStr("ping")
  {
  }

  /** Any method other than the four known ones, including a missing one,
      gets -32601 "Method not found" with the request's id. */
  lemma MethodNotFound(env: Env, req: Json)
    requires IsArray(req)
    requires MethodOf(req).JStr?
    requires MethodOf(req).s !in {"initialize", "tools/list", "tools/call", "ping"}
    ensures HandleRequest(env, req) == Respond(ErrorMsg(RequestId(req), MethodNotFoundCode, MethodNotFoundMessage))
    ensures ErrorCodeOf(HandleRequest(env, req).message) == Some(-32601)
  {
  }

  /** ping answers {status: "ok"} whatever its params. */
  lemma PingAnswersOk(env: Env, req: Json)
    requires IsArray(req) && MethodOf(req) == JStr("ping")
    ensures HandleRequest(env, req).Respond?
    ensures ResultOf(HandleRequest(env, req).message) == Some(JObj(map["status" := JStr("ok")]))
  {
  }

  /** tools/list depends only on the id: two requests with the same id get
      the same message, which lists the two tools. */
  lemma ToolsListIgnoresRequest(env: Env, r1: Json, r2: Json)
    requires IsArray(r1) && MethodOf(r1) == JStr("tools/list")
    requires IsArray(r2) && MethodOf(r2) == JStr("tools/list")
    requires RequestId(r1) == RequestId(r2)
    ensures HandleRequest(env, r1) == HandleRequest(env, r2)
    ensures ResultOf(HandleRequest(env, r1).message) == Some(ToolsListResult())
    ensures ListedNames(ToolsListResult()) == [SearchToolName, SchemaToolName]
  {
    ListedToolNames();
  }

  /** A well-typed request without an id (a notification) is still
      answered, with id null. */
  lemma NotificationAnswered(env: Env, req: Json)
    requires WellTyped(env, req) && Get(req, "id").None?
    ensures HandleRequest(env, req).Respond?
    ensures IdOf(HandleRequest(env, req).message) == Some(JNull)
  {
    FatalIffIllTyped(env, req);
  }

  /** initialize with array params answers protocol version 1.0, server
      cakephp-boost 1.0.0, and the tools capability. */
  lemma InitializeAnswers(env: Env, req: Json)
    requires IsArray(req) && Route(MethodOf(req)) == Initialize && IsArray(ParamsOf(req))
    ensures HandleRequest(env, req).Respond?
    ensures var m := HandleRequest(env, req).message;
      && IdOf(m) == Some(RequestId(req))
      && ErrorCodeOf(m) == None
      && ResultOf(m).Some?
      && Get(ResultOf(m).value, "protocolVersion") == Some(JStr("1.0"))
      && Get(ResultOf(m).value, "serverInfo") == Some(JObj(map["name" := JStr("cakephp-boost"), "version" := JStr("1.0.0")]))
      && Get(ResultOf(m).value, "capabilities") == Some(JObj(map["tools" := JBool(true)]))
  {
  }

  /** tools/call of a tool that does not exist is a -32000 error naming it. */
  lemma UnknownToolError(env: Env, id: Json, params: Json, n: string)
    requires ToolNameOf(params) == JStr(n)
    requires n != SearchToolName && n != SchemaToolName
    ensures HandleToolsCall(env, id, params) == Respond(ErrorMsg(id, ToolErrorCode, UnknownToolPrefix + n))
  {
  }

  /** search_documentation with a missing, null, "" or "0" query is a -32000
      error, not a crash. */
  lemma EmptyQueryError(env: Env, id: Json, params: Json)
    requires ToolNameOf(params) == JStr(SearchToolName)
    requires IsArray(ArgumentsOf(params))
    requires IsEmpty(QueryArg(ArgumentsOf(params)))
    ensures HandleToolsCall(env, id, params) == Respond(ErrorMsg(id, ToolErrorCode, QueryRequiredMessage))
  {
  }

  /** A successful search answers with one text item whose text is the
      encoded payload: the query, the number of rows and the rows. */
  lemma SearchAnswer(env: Env, id: Json, params: Json, q: string)
    requires ToolNameOf(params) == JStr(SearchToolName)
    requires IsArray(ArgumentsOf(params))
    requires QueryArg(ArgumentsOf(params)) == JStr(q) && !IsEmptyString(q)
    requires env.openFault.None?
    requires env.engine.fault(FtsQuery.PrepareFtsQuery(q)).None?
    ensures var rs := Search(env.engine, env.store, q, SearchCallOf(ArgumentsOf(params), q).limit, [], SearchCallOf(ArgumentsOf(params), q).categories).value;
      HandleToolsCall(env, id, params) == Respond(ResultMsg(id, ContentResult(env, SearchPayload(JStr(q), rs))))
  {
  }

  /** The requests the server answers without a TypeError, given what the
      steps before each typed call answer. */
  predicate WellTyped(env: Env, req: Json) {
    && IsArray(req)
    && (Route(MethodOf(req)) == Initialize ==> IsArray(ParamsOf(req)))
    && (Route(MethodOf(req)) == ToolsCall ==>
          IsArray(ParamsOf(req)) && ToolArgumentsWellTyped(env, ToolNameOf(ParamsOf(req)), ArgumentsOf(ParamsOf(req))))
  }

  /** Both tools take an array. search_documentation's query must be empty()
      or a string, unless constructing the indexer already failed.
      get_database_schema's connection must be a string, and its table
      empty() or a string unless the connection lookup already failed. */
  predicate ToolArgumentsWellTyped(env: Env, name: Json, args: Json) {
    && (name == JStr(SearchToolName) ==>
          IsArray(args) && (IsEmpty(QueryArg(args)) || env.openFault.Some? || QueryArg(args).JStr?))
    && (name == JStr(SchemaToolName) ==>
          IsArray(args) && ConnectionArg(args).JStr? &&
          (env.connect(ConnectionArg(args).s).Some? || IsEmpty(TableArg(args)) || TableArg(args).JStr?))
  }

  lemma ToolCrashesIffIllTyped(env: Env, name: Json, args: Json)
    ensures CallTool(env, name, args).ToolCrashed? <==> !ToolArgumentsWellTyped(env, name, args)
  {
    if name == JStr(SearchToolName) {
      assert name != JStr(SchemaToolName);
    }
  }

  /** The server stops on a request exactly when it is ill-typed: a JSON
      scalar or null, non-array params for initialize or tools/call, or tool
      arguments a typed call refuses once the steps before it succeed. */
  lemma FatalIffIllTyped(env: Env, req: Json)
    ensures HandleRequest(env, req).Fatal? <==> !WellTyped(env, req)
  {
    if IsArray(req) && Route(MethodOf(req)) == ToolsCall && IsArray(ParamsOf(req)) {
      ToolCrashesIffIllTyped(env, ToolNameOf(ParamsOf(req)), ArgumentsOf(ParamsOf(req)));
    }
  }

  /** The indexer is constructed before the query reaches search(): when the
      index cannot be opened, even a non-string query is answered with a
      -32000 error carrying the database's message. */
  lemma OpenFailureAnsweredFirst(env: Env, id: Json, params: Json)
    requires ToolNameOf(params) == JStr(SearchToolName)
    requires IsArray(ArgumentsOf(params)) && !IsEmpty(QueryArg(ArgumentsOf(params)))
    requires env.openFault.Some?
    ensures HandleToolsCall(env, id, params) == Respond(ErrorMsg(id, ToolErrorCode, env.openFault.value))
  {
  }

  /** get_database_schema with `{"connection": 5}` stops the server: the
      name reaches ConnectionManager::get(string) unconverted. */
  lemma NonStringConnectionStops(env: Env, id: Json, params: Json)
    requires ToolNameOf(params) == JStr(SchemaToolName)
    requires IsArray(ArgumentsOf(params))
    requires ConnectionArg(ArgumentsOf(params)).JInt?
    ensures HandleToolsCall(env, id, params) == Fatal
  {
  }

  /** Reading lines in two batches is reading them in one: the loop carries
      no state from line to line, except that a crash ends it. */
  lemma RunAppend(env: Env, a: seq<string>, b: seq<string>)
    ensures Run(env, a + b) ==
      if Run(env, a).status == Crashed then Run(env, a)
      else Transcript(Run(env, a).out + Run(env, b).out, Run(env, b).status)
  {
    StepsAppend(env, a, b);
    FoldAppend(Steps(env, a), Steps(env, b));
  }

  /** A blank line writes nothing and the loop goes on. */
  lemma BlankLineSilent(env: Env, line: string, rest: seq<string>)
    requires IsBlankLine(line)
    ensures Run(env, [line] + rest) == Run(env, rest)
  {
    RunCons(env, line, rest);
  }

  /** An undecodable line writes one parse error with id null and the loop
      goes on. */
  lemma ParseErrorContinues(env: Env, line: string, rest: seq<string>)
    requires !IsBlankLine(line) && env.decode(Trim(line)) == Malformed
    ensures Run(env, [line] + rest) ==
      Transcript([ErrorMsg(JNull, ParseErrorCode, ParseErrorMessage)] + Run(env, rest).out, Run(env, rest).status)
  {
    RunCons(env, line, rest);
  }

  /** A decoded JSON scalar (`5`, `"x"`, `true`, `null`) stops the server
      before anything is written for it. */
  lemma ScalarRequestStops(env: Env, line: string, rest: seq<string>)
    requires !IsBlankLine(line)
    requires env.decode(Trim(line)).Decoded? && !IsArray(env.decode(Trim(line)).value)
    ensures Run(env, [line] + rest) == Transcript([], Crashed)
  {
    RunCons(env, line, rest);
  }

  /** When the input holds only well-typed requests and undecodable lines,
      the loop reaches the end of input and answers every non-blank line. */
  lemma {:induction false} WellTypedInputCloses(env: Env, lines: seq<string>)
    requires forall k :: 0 <= k < |lines| && !IsBlankLine(lines[k]) && env.decode(Trim(lines[k])).Decoded? ==>
      WellTyped(env, env.decode(Trim(lines[k])).value)
    ensures Run(env, lines).status == Closed
    ensures |Run(env, lines).out| == NonBlankCount(lines)
    decreases |lines|
  {
    if |lines| > 0 {
      var line := lines[0];
      if !IsBlankLine(line) && env.decode(Trim(line)).Decoded? {
        FatalIffIllTyped(env, env.decode(Trim(line)).value);
      }
      WellTypedInputCloses(env, lines[1..]);
      RunCons(env, line, lines[1..]);
      assert [line] + lines[1..] == lines;
    }
  }
}
