# cakephp-boost documentation index and MCP server, in Dafny

This project models the core of the cakephp-boost plugin:

- the documentation index (`DocumentationIndexer`), a SQLite database with two relations:
  - `documentation_meta` keys rows by a unique url;
  - `documentation_fts` is an FTS5 table with no key.
- the compiler from a free-form query to an FTS5 `MATCH` expression;
- `addDocument`, `search`, `getStats` and `clear`;
- the `boost index` console command (`BoostIndexCommand`), which clears the index on request, adds every parsed book entry and counts successes and failures;
- the `boost mcp` console command (`BoostMcpServerCommand`), a Model Context Protocol server. It reads one JSON-RPC request per line, routes it to `initialize`, `tools/list`, `tools/call` or `ping`, and writes one JSON-RPC message per request.

The files, one module each:

| file | module | what it holds |
|---|---|---|
| `wrappers.dfy` | `Wrappers` | `Option` and `Result` |
| `php_strings.dfy` | `PhpStrings` | the PHP string functions the core relies on: `trim()`, `empty()` on strings, `strlen()` as the UTF-8 byte length, `preg_split('/\s+/')` and `implode()` |
| `json.dfy` | `JsonValue` | decoded JSON values as PHP sees them: `??` access, `empty()`, string conversion and the `(int)` cast |
| `fts_query.dfy` | `FtsQuery` | `prepareFtsQuery`, and reading a compiled expression back into its words |
| `doc_store.dfy` | `DocStore` | both relations as sequences of rows in rowid order; `addDocument`, `clear`, `getStats` |
| `doc_search.dfy` | `DocSearch` | `search`: the type and category filters, `ORDER BY rank`, `LIMIT` and the row projection |
| `tool_registry.dfy` | `ToolRegistry` | the two advertised tools, and their JSON Schema rendering |
| `mcp_server.dfy` | `McpServer` | envelopes, routing, the two tools, `tools/call`, `handleRequest`, and the read loop as a fold over the input lines |
| `index_command.dfy` | `IndexCommand` | `indexBook` and `execute` of the index command, plus the parser's twenty sample urls |

Collaborators the model cannot see are parameters:
- `Engine` stands for FTS5 itself: `MATCH`, the `rank` and `snippet()`, and the error the database raises for a query.
- `Env` stands for `json_decode`, `json_encode`, the outcome of constructing the indexer, and the CakePHP calls of the schema tool: the connection lookup, `listTables()` and `describe()`.
- `parsed` and `fault` stand for the book parser and the per-document database failures.

Each contract states what the core does with whatever these parameters answer.

Three behaviours of the code are easy to misread:
- **Re-adding a url.** `INSERT OR REPLACE` replaces the metadata row. The full-text table has no unique key, so every add appends one more full-text row for the url (`DocStore.AddTwice`).
- **A query with no word longer than two bytes.** It compiles to the empty string (`FtsQuery.BlankQueryCompilesToEmpty`). It is not refused before the search.
- **Requests without an id.** `handleRequest` never returns null, so a request without an id (a notification) is answered too, with id null (`McpServer.NotificationAnswered`).

The files declare `strict_types`, so some inputs raise a `TypeError`:
- a request that decodes to a JSON scalar;
- non-array `params` for `initialize` or `tools/call`;
- non-array tool arguments;
- a non-empty, non-string query, once the indexer has been constructed;
- a non-string `connection` for the schema tool;
- a truthy non-string `table` for the schema tool, once the connection has been found.

A `TypeError` is an `Error`, not an `Exception`. The `catch (\Exception)` in `tools/call` does not catch it, so the server stops. The model calls this outcome `Fatal` (a transcript with status `Crashed`). An exception raised by a step before the typed call is answered with -32000 instead: constructing the indexer can fail before the query reaches `search()`, and looking up the connection can fail before the table reaches `describe()`. `McpServer.FatalIffIllTyped` characterises the requests that cause a `TypeError`, given what those earlier steps answer.

## Model

| member | source | states |
|---|---|---|
| PhpStrings.Trim | src/Documentation/DocumentationIndexer.php:192 | the trimmed text is empty exactly when every character is one of trim()'s six default characters; otherwise it neither starts nor ends with one |
| PhpStrings.TrimSplits | src/Documentation/DocumentationIndexer.php:192 | trim() removes only trim characters and only at the two ends: the input is a trim-character prefix, the result, and a trim-character suffix |
| PhpStrings.TrimUnique | src/Documentation/DocumentationIndexer.php:192 | any split of the input into a trim-character prefix, a middle that neither starts nor ends with one, and a trim-character suffix has trim()'s result as its middle |
| PhpStrings.ByteLength | src/Documentation/DocumentationIndexer.php:207 | strlen() counts UTF-8 bytes: at least one and at most four per character |
| PhpStrings.AsciiByteLength | src/Documentation/DocumentationIndexer.php:207 | for ASCII text strlen() is the number of characters |
| PhpStrings.SplitOnWhitespace | src/Documentation/DocumentationIndexer.php:200 | preg_split('/\s+/') yields at least one piece, no piece holds whitespace, and every character of a piece occurs in the input |
| PhpStrings.Separators | src/Documentation/DocumentationIndexer.php:200 | exactly one dropped separator lies between each pair of neighbouring pieces, and each is a non-empty whitespace run |
| PhpStrings.SplitReassembles | src/Documentation/DocumentationIndexer.php:200 | the split loses nothing: the pieces interleaved with the separators give back the input |
| PhpStrings.SplitAfterWord | src/Documentation/DocumentationIndexer.php:200 | a word followed by one space and a non-blank rest splits into that word, then the split of the rest, and that space is the first separator |
| PhpStrings.Join | src/Documentation/DocumentationIndexer.php:212 | implode()'s result begins with its first part |
| PhpStrings.JoinIsInterleave | src/Documentation/DocumentationIndexer.php:212 | implode() places exactly one copy of the separator between neighbouring parts: it is the reassembly of the parts with every separator equal to the glue |
| JsonValue.Get | src/Command/BoostMcpServerCommand.php:62-64 | a key is found exactly when the decoded value is an object holding it |
| JsonValue.Field | src/Command/BoostMcpServerCommand.php:62-64 | `$v[key] ?? default` gives the default for a missing key and for an explicit null, and the stored value otherwise |
| JsonValue.EmptyExactly | src/Command/BoostMcpServerCommand.php:226 | empty() holds for exactly seven values: null, false, 0, "", "0", [] and {} |
| JsonValue.DigitsValueOfDigits | src/Command/BoostMcpServerCommand.php:223 | the decimal digits PHP writes for a natural number read back as that number |
| JsonValue.IntOfDecimalString | src/Command/BoostMcpServerCommand.php:223 | the (int) cast of the string PHP writes for an integer gives the integer back |
| FtsQuery.LongWords | src/Documentation/DocumentationIndexer.php:205-210 | every kept word is longer than two bytes and is one of the input words, and every input word longer than two bytes is kept |
| FtsQuery.LongWordsPositions | src/Documentation/DocumentationIndexer.php:205-210 | the kept words are the input words at strictly increasing positions, and every position holding a word longer than two bytes is among them: the long words, in input order, each as often as it occurs |
| FtsQuery.Starred | src/Documentation/DocumentationIndexer.php:208 | each term is its word followed by the prefix marker `*` |
| FtsQuery.PrepareFtsQuery | src/Documentation/DocumentationIndexer.php:190-213 | a trimmed query holding a double quote passes through unchanged; otherwise the result holds no double quote and is empty exactly when no word is longer than two bytes; when some word is, the result splits into the starred long words in order with the keyword OR between each pair, and every separator is a single space |
| FtsQuery.OrShapeDetermines | src/Documentation/DocumentationIndexer.php:200-212 | the shape PrepareFtsQuery promises fixes its result: any string that splits into the starred long words separated by OR, with single spaces, is the compiled expression |
| FtsQuery.TermsAreClean | src/Documentation/DocumentationIndexer.php:200-210 | for a query without quotes every term is non-empty and holds neither whitespace nor a double quote |
| FtsQuery.JoinOfCleanTerms | src/Documentation/DocumentationIndexer.php:212 | joining clean terms with " OR " adds no double quote, and gives "" exactly when there are no terms |
| FtsQuery.SplitOrStep | src/Documentation/DocumentationIndexer.php:212 | a term, " OR " and a non-blank rest split into the term, the word OR, then the split of the rest |
| FtsQuery.JoinOrSplits | src/Documentation/DocumentationIndexer.php:212 | splitting the " OR "-joined terms at whitespace gives 2n-1 pieces: the terms at even positions and OR at odd ones |
| FtsQuery.JoinOrSpaces | src/Documentation/DocumentationIndexer.php:212 | every whitespace run in the " OR "-joined terms is a single space |
| FtsQuery.SeparatorsOrStep | src/Documentation/DocumentationIndexer.php:212 | the two separators around an OR keyword are single spaces |
| FtsQuery.InterleaveOrPieces | src/Documentation/DocumentationIndexer.php:212 | putting single spaces back between OR pieces gives implode(' OR ', terms) |
| FtsQuery.UnstarStarred | src/Documentation/DocumentationIndexer.php:208 | removing the trailing `*` from each term gives back the words |
| FtsQuery.CompiledWordsRoundTrip | src/Documentation/DocumentationIndexer.php:190-213 | reading the compiled expression back gives exactly the input words longer than two bytes, in input order, one term per word |
| FtsQuery.BlankQueryCompilesToEmpty | src/Documentation/DocumentationIndexer.php:192-212 | a query of trim characters only compiles to the empty expression instead of failing |
| FtsQuery.AsciiWordIsLongIffThreeChars | src/Documentation/DocumentationIndexer.php:207 | an ASCII word is kept exactly when it has at least three characters |
| DocStore.RowsFor | src/Documentation/DocumentationIndexer.php:67 | a lookup by url returns only metadata rows that have that url |
| DocStore.RowsForEmpty | src/Documentation/DocumentationIndexer.php:67 | a lookup by url finds nothing exactly when no metadata row has that url |
| DocStore.Without | src/Documentation/DocumentationIndexer.php:107 | the conflict deletion of INSERT OR REPLACE keeps exactly the rows with another url, and keeps urls unique |
| DocStore.WithoutUrls | src/Documentation/DocumentationIndexer.php:107 | after the deletion the url set is the old one minus the deleted url |
| DocStore.WithoutSize | src/Documentation/DocumentationIndexer.php:67 | with unique urls the deletion removes one row when the url is present and none when it is absent |
| DocStore.AddDocument | src/Documentation/DocumentationIndexer.php:94-127 | on success the url maps to exactly the new metadata row, every other url keeps its rows, and one full-text row is appended; on failure the store is unchanged (rollback) and the message is prefixed "Failed to add document: "; a consistent store stays consistent |
| DocStore.AddDocumentUrls | src/Documentation/DocumentationIndexer.php:94-127 | after addDocument the metadata urls are the old ones plus the document's url, or the old ones alone when the add failed |
| DocStore.UpsertRows | src/Documentation/DocumentationIndexer.php:106-110 | INSERT OR REPLACE leaves exactly one row for the url and leaves every other url's rows unchanged |
| DocStore.UpsertUnique | src/Documentation/DocumentationIndexer.php:106-110 | INSERT OR REPLACE keeps the url column unique |
| DocStore.UpsertUrls | src/Documentation/DocumentationIndexer.php:106-110 | after INSERT OR REPLACE the metadata urls are the old ones plus the new url |
| DocStore.AppendFtsUrls | src/Documentation/DocumentationIndexer.php:113-117 | after the full-text insert the full-text urls are the old ones plus the new url |
| DocStore.AddDocumentCounts | src/Documentation/DocumentationIndexer.php:106-117 | re-adding a present url keeps the metadata count, a new url adds one row, and the full-text table always grows by one |
| DocStore.AddTwice | src/Documentation/DocumentationIndexer.php:106-117 | adding the same document twice leaves one metadata row for its url but two full-text rows |
| DocStore.Bump | src/Documentation/DocumentationIndexer.php:224-228 | counting one row of a type adds one to that type's count and to the sum, and leaves every other type's count alone |
| DocStore.BumpKeepsGrouped | src/Documentation/DocumentationIndexer.php:224-228 | counting a row keeps one entry per type, with no zero count |
| DocStore.Tally | src/Documentation/DocumentationIndexer.php:224-229 | GROUP BY type has one entry per type, each type counts its own rows, and the counts sum to the row count |
| DocStore.CountedEntry | src/Documentation/DocumentationIndexer.php:224-228 | in a grouped tally an entry's count is the total count of its type |
| DocStore.GetStats | src/Documentation/DocumentationIndexer.php:220-236 | total is the number of metadata rows; by_type has one entry per type, holding the number of rows of that type; the counts sum to total |
| DocStore.Clear | src/Documentation/DocumentationIndexer.php:243-246 | both relations are emptied, the store is consistent, and getStats reports total 0 and no types |
| DocStore.UniformTally | src/Documentation/DocumentationIndexer.php:224-228 | rows that all have one type group into a single entry counting all of them |
| DocSearch.Hits | src/Documentation/DocumentationIndexer.php:155-171 | the selected rows are exactly the full-text rows the engine matches that pass the type and category filters, each selected as often as it occurs, so duplicate full-text rows are all returned |
| DocSearch.EmptyFiltersSelectAllMatches | src/Documentation/DocumentationIndexer.php:161-171 | with both filter lists empty, no condition is added and every matching row is selected |
| DocSearch.InsertAscending | src/Documentation/DocumentationIndexer.php:173 | inserting a row into a list ordered best rank first keeps it ordered |
| DocSearch.InsertPermutes | src/Documentation/DocumentationIndexer.php:173 | inserting a row adds exactly that row and loses none |
| DocSearch.SortByRank | src/Documentation/DocumentationIndexer.php:173 | ORDER BY rank yields the same rows, best rank first |
| DocSearch.Take | src/Documentation/DocumentationIndexer.php:173-174 | LIMIT keeps a prefix of min(limit, n) rows, so no row more often than it occurs; a negative limit keeps all rows |
| DocSearch.Ranked | src/Documentation/DocumentationIndexer.php:147-177 | the kept rows are hits, ordered best rank first, each kept at most as often as it is selected (a sub-multiset of the hits); there are min(limit, number of hits) of them, and all hits when the limit is negative; no hit left out, including a further copy of a row that is also kept (a re-added url), ranks better than one kept |
| DocSearch.LeftOutRankNoBetter | src/Documentation/DocumentationIndexer.php:173 | every hit cut off by LIMIT, counted with multiplicity so that a cut copy of a kept row is covered, ranks no better than each row kept |
| DocSearch.PresentKeeps | src/Documentation/DocumentationIndexer.php:148-154 | each result row carries its row's url, type and category and the engine's rank as relevance |
| DocSearch.Search | src/Documentation/DocumentationIndexer.php:138-180 | search fails exactly when the database refuses the compiled query, with its message; otherwise the results are the presentation of the rows `Ranked` keeps (hits in rank order, none repeated beyond its selection, min(limit, number of hits) of them), so each presents a full-text row that matches and passes the filters; tied rows come in rowid order, one of the orders SQLite may use |
| DocSearch.PresentAllOfHits | src/Documentation/DocumentationIndexer.php:148-154 | presenting selected rows gives results that each come from a selected row, with a url of the full-text table |
| ToolRegistry.ParamJson | src/Command/BoostMcpServerCommand.php:133-145 | a property schema always has a type and a description, and has a default exactly when the parameter has one |
| ToolRegistry.PropertiesMap | src/Command/BoostMcpServerCommand.php:132-146 | the properties object has exactly one key per parameter name |
| ToolRegistry.ToolJsonRoundTrip | src/Command/BoostMcpServerCommand.php:127-166 | a client reading a rendered tool recovers its name, its required list, its property names and each property's default |
| ToolRegistry.ListedToolNames | src/Command/BoostMcpServerCommand.php:126-167 | tools/list names search_documentation and get_database_schema, in that order |
| ToolRegistry.SearchToolFacts | src/Command/BoostMcpServerCommand.php:127-149 | search_documentation requires query, has the properties query, limit and category, and defaults limit to 10 |
| ToolRegistry.SchemaToolFacts | src/Command/BoostMcpServerCommand.php:150-166 | get_database_schema writes no required key and defaults connection to "default" |
| McpServer.ResultMsg | src/Command/BoostMcpServerCommand.php:191-202 | a success message is a JSON-RPC 2.0 envelope carrying the id and the result, and no error |
| McpServer.ErrorMsg | src/Command/BoostMcpServerCommand.php:313-324 | an error message is a JSON-RPC 2.0 envelope carrying the id, the code and the message, and no result |
| McpServer.SearchCallOf | src/Command/BoostMcpServerCommand.php:221-235 | the search runs with the given query and no type filter; the limit is 10 when missing or null and the given integer otherwise; there is at most one category, and none exactly when the category is empty() |
| McpServer.SearchPayload | src/Command/BoostMcpServerCommand.php:237-241 | the payload echoes the query, counts the result rows and lists them |
| McpServer.SearchDocumentation | src/Command/BoostMcpServerCommand.php:221-242 | non-array arguments are a TypeError; an empty() query is the error "Query parameter is required"; then a failure to open the index is answered with its message; only after that is a non-string query a TypeError; a payload is produced only for a string query |
| McpServer.DescribeAll | src/Command/BoostMcpServerCommand.php:262-286 | describing succeeds exactly when every table's describe() does, and then maps exactly the given table names, each to its own description |
| McpServer.DescribeFirstFailure | src/Command/BoostMcpServerCommand.php:262-263 | a failed description reports the exception of the first table whose describe() throws |
| McpServer.DatabaseSchema | src/Command/BoostMcpServerCommand.php:250-292 | the tool is a TypeError exactly for non-array arguments, a non-string connection, or a truthy non-string table once the connection is found; a failing connection lookup is answered with its message; the payload names the connection and describes exactly the requested table, or every listed table when none is requested |
| McpServer.HandleToolsCall | src/Command/BoostMcpServerCommand.php:180-213 | the reply carries the request id; the server stops exactly when the tool raises a TypeError; every error it answers has code -32000 |
| McpServer.HandleRequest | src/Command/BoostMcpServerCommand.php:61-89 | a request that is not an array stops the server; every answer is an envelope carrying the request's id, or null when there is none |
| McpServer.StepOf | src/Command/BoostMcpServerCommand.php:33-50 | a line is skipped exactly when it trims to an empty() string; everything it writes is an envelope |
| McpServer.Fold | src/Command/BoostMcpServerCommand.php:33-50 | the loop writes at most one message per answered line, exactly one each when it reaches end of input, and only envelopes |
| McpServer.AnsweredCountOfSteps | src/Command/BoostMcpServerCommand.php:34-37 | the lines the loop answers are exactly the non-blank ones |
| McpServer.Run | src/Command/BoostMcpServerCommand.php:28-53 | the server writes at most one message per non-blank line, exactly one each when it reaches end of input, and every message is a JSON-RPC envelope |
| McpServer.RunAppend | src/Command/BoostMcpServerCommand.php:33-50 | reading input in two batches is reading it at once: nothing carries over from line to line except that a crash ends the loop |
| McpServer.LooseSwitchCases | src/Command/BoostMcpServerCommand.php:66-79 | a method selects a handler exactly when it is that handler's name, except that `true` also selects initialize (loose comparison) |
| McpServer.MethodNotFound | src/Command/BoostMcpServerCommand.php:79-87 | any other method name, including a missing one, is answered with -32601 "Method not found" and the request's id |
| McpServer.PingAnswersOk | src/Command/BoostMcpServerCommand.php:76-77 | ping answers {status: "ok"} whatever its params |
| McpServer.ToolsListIgnoresRequest | src/Command/BoostMcpServerCommand.php:70-71 | two tools/list requests with the same id get the same answer, which lists the two tools |
| McpServer.NotificationAnswered | src/Command/BoostMcpServerCommand.php:61-89 | a well-typed request without an id is answered, with id null |
| McpServer.InitializeAnswers | src/Command/BoostMcpServerCommand.php:98-113 | initialize answers protocol version 1.0, server info cakephp-boost 1.0.0 and the tools capability, with the request's id |
| McpServer.UnknownToolError | src/Command/BoostMcpServerCommand.php:185-188 | tools/call of any other tool name is the -32000 error "Unknown tool: " followed by the name |
| McpServer.EmptyQueryError | src/Command/BoostMcpServerCommand.php:226-228 | search_documentation with a missing, null, "" or "0" query is a -32000 error, not a crash |
| McpServer.SearchAnswer | src/Command/BoostMcpServerCommand.php:191-202 | a successful search is answered with one text item holding the encoded payload |
| McpServer.ToolCrashesIffIllTyped | src/Command/BoostMcpServerCommand.php:185-189 | a tool call raises a TypeError exactly when its arguments break a typed signature the call reaches: non-array arguments, a non-string query once the indexer is built, a non-string connection, or a truthy non-string table once the connection is found |
| McpServer.FatalIffIllTyped | src/Command/BoostMcpServerCommand.php:61-89 | the server stops on a request exactly when it is ill-typed: a scalar or null, non-array params for initialize or tools/call, or tool arguments a typed call refuses |
| McpServer.OpenFailureAnsweredFirst | src/Command/BoostMcpServerCommand.php:226-235 | the indexer is built before the query reaches search(), so when the index cannot be opened even a non-string query gets a -32000 error with the database's message |
| McpServer.NonStringConnectionStops | src/Command/BoostMcpServerCommand.php:251-255 | a get_database_schema call whose connection is a number stops the server |
| McpServer.BlankLineSilent | src/Command/BoostMcpServerCommand.php:34-37 | a blank line writes nothing and the loop goes on |
| McpServer.ParseErrorContinues | src/Command/BoostMcpServerCommand.php:39-44 | an undecodable line writes one -32700 "Parse error" with id null and the loop goes on |
| McpServer.ScalarRequestStops | src/Command/BoostMcpServerCommand.php:46 | a line that decodes to a JSON scalar stops the server before anything is written for it |
| McpServer.WellTypedInputCloses | src/Command/BoostMcpServerCommand.php:33-50 | when every decodable line is a request that raises no TypeError, the loop reaches end of input and answers each non-blank line once |
| IndexCommand.AsDocument | src/Command/BoostIndexCommand.php:110-117 | a parsed entry is added with its own title, content, url and category, type "book" and source "cakephp-5.x" |
| IndexCommand.IndexedUrlsMembers | src/Command/BoostIndexCommand.php:108-118 | a url counts as indexed exactly when some entry with that url was added without failure |
| IndexCommand.IndexDocs | src/Command/BoostIndexCommand.php:108-127 | every entry is counted once, as indexed or as an error; the errors are the failing adds; the full-text table grows by the number indexed |
| IndexCommand.IndexDocsConsistent | src/Command/BoostIndexCommand.php:108-127 | the loop keeps the store consistent |
| IndexCommand.IndexDocsKeepsFts | src/Command/BoostIndexCommand.php:108-127 | the loop only appends full-text rows |
| IndexCommand.IndexDocsUrls | src/Command/BoostIndexCommand.php:108-127 | afterwards the metadata holds the urls it held plus exactly the urls of the entries added |
| IndexCommand.IndexDocsRows | src/Command/BoostIndexCommand.php:110-117 | every metadata row the loop writes has type book and source cakephp-5.x |
| IndexCommand.IndexBook | src/Command/BoostIndexCommand.php:100-135 | a parser exception counts as one error and adds nothing; otherwise the counts add up to the number of entries, the url set becomes the old urls plus those of the entries added, and the full-text table grows by exactly the indexed count |
| IndexCommand.Execute | src/Command/BoostIndexCommand.php:45-91 | the api source indexes nothing; book and all run indexBook; a parse failure leaves the starting index (emptied by --clear, else unchanged); otherwise the urls are the starting urls plus the indexed ones; the full-text table holds the indexed count more than at the start (exactly that count with --clear); without --clear nothing is lost; the reported total is the metadata row count and the by_type counts sum to it |
| IndexCommand.FreshIndexSize | src/Command/BoostIndexCommand.php:108-127 | indexing entries with distinct urls into an empty index, with no failure, gives one metadata row per entry |
| IndexCommand.ClearThenIndexDistinct | src/Command/BoostIndexCommand.php:51-88 | `--clear` with entries of distinct urls and no failure indexes all of them and reports by_type as the single entry book |
| IndexCommand.BookOnlyStats | src/Command/BoostIndexCommand.php:81-88 | a store holding only this command's rows reports one by_type entry, book, counting every row |
| IndexCommand.SampleBookStats | src/Documentation/Parser/BookParser.php:31-169 | clearing and indexing the parser's twenty sample entries reports 20 indexed, 0 errors, total 20, and by_type book: 20 |

## Left out

- Standard input and output, and the text of JSON: `json_decode` and `json_encode` are parameters. A message is modelled as a structured value, so the order of object keys is not modelled.
- FTS5 itself: the porter/unicode61 tokenizer, `MATCH`, the bm25 `rank` and `snippet()` are the `Engine` parameter, because they are SQLite's code, not the plugin's.
- DocSearch.Search: relevance is an integer. FTS5's rank is a floating-point number; only its order matters to the contract.
- JSON numbers with a fraction or exponent, and JSON integers outside the 64-bit range, which `json_decode` turns into floats. Floating point is not modelled, so `limit` is a JSON integer or another JSON value, and `JInt` holds any integer. For a literal such as 18446744073709551616 the model's limit is that integer, so LIMIT keeps every hit, where PHP casts the float with `(int)` to a wrapped value (0 here, so no rows). An `id` that large is echoed back as a float by PHP and as the integer by the model.
- McpServer.SearchCallOf: the `(int)` cast of a string reads leading whitespace, a sign and a digit run. Exponent forms ("1e3") and 64-bit saturation are not modelled, nor the float that an integer literal outside the 64-bit range decodes to (see the line on JSON numbers above).
- DocStore.GetStats: the order of the by_type rows is not stated, since GROUP BY guarantees none. `db_path` is configuration and is not modelled.
- The metadata columns `id` and `indexed_at`, and the index on url. They are assigned by the database and change no result of the modelled operations.
- The schema tool's internals (`ConnectionManager`, the schema collection and the per-table column, index and constraint arrays). The connection lookup, `listTables()` and `describe()` are parameters, because they are CakePHP's code.
- The inside of `new DocumentationIndexer()` (creating the directory, opening the database, creating the tables): the search tool sees only whether it throws, through the `openFault` parameter.
- `BookParser` is a parameter, `parsed`. Its twenty sample urls appear only in `IndexCommand.SampleBookStats`. An entry missing the title, content or url key is not modelled, because the parser's own entries always carry them.
- The `false` branch of `preg_split`: it cannot fail for the pattern `/\s+/`.
- Console output: messages, verbose progress lines, and the "Array to string conversion" warning PHP prints when the unknown-tool message or a category converts an array. The converted value, "Array", is modelled.
- `BoostSchemaCommand`, `BoostSearchCommand` and `Plugin`: they are not part of this model.
- Transactions are modelled by their effect only: a failing add leaves the store as it was. Concurrent writers are not modelled.
- IndexCommand.Execute: the exceptions that `new DocumentationIndexer()` (src/Command/BoostIndexCommand.php:49), `clear()` (line 53) and `getStats()` (line 81) can throw are not caught by `execute()`; they end the command without a summary. The model assumes the database opens and these three calls succeed, so this path has no contract.
- DocSearch.Search: rows of equal rank come back in rowid order, both in the order of the results and in which of two tied rows LIMIT keeps. `ORDER BY rank LIMIT ?` fixes neither; rowid order is one of the orders SQLite may use, so where ranks tie the model is one admissible answer, not the only one. The order- and tie-independent facts are stated separately: results ascend by rank, are drawn from the hits without repetition beyond their multiplicity, and no cut-off hit ranks better than one kept.
