# XiYan MCP: request correlation and the text-to-SQL repair loop

This project models two cores of the XiYan MCP repository in Dafny.

The first core is the client in `src/mcp_client/badkup/mcp_docker_client.py`. It
posts JSON-RPC requests, each with a fresh `req_<n>` identifier, and registers
a response handler under that identifier. A listener reads the Server-Sent
Events stream line by line. When a blank line closes an event, the listener
decodes the buffered `data:` payload. If its `id` names a pending request, the
listener pops that handler from the table and invokes it. The four convenience
operations (`list_resources`, `list_tools`, `read_resource`, `call_tool`) wrap
`send_request`. Each one unwraps the response's `result`, or hands the callback
a per-operation default.

The second core is the server in `src/xiyan_mcp_server/src/server.py`:

- `sql_gen_and_execute` generates SQL for a question and executes it. After a
  failed execution it asks the model up to three times for a repair, stopping
  at the first candidate that executes.
- `call_xiyan` wraps that loop and short-circuits when the database cannot be
  set up.
- `read_resource` dumps the first hundred rows of a table as comma-separated
  lines.
- `get_xiyan_config` builds the connection settings, with MySQL as the default
  dialect.

The modules follow the program:

- `Results`, `Text` and `JsonModel` hold the shared vocabulary:
  - an option and a result type;
  - Python's `str.strip`, `startswith`, `split` and `join`, and decimal
    rendering;
  - decoded JSON values, with Python truthiness and hashability.
- `SseListener` is the line loop of the listener thread, as a state machine
  over a parser, the table of pending handlers, and the log of handler
  invocations.
- `RequestTable` covers `_generate_request_id`, `send_request` and the four
  wrappers.
- `McpSession` covers any interleaving of sends and stream lines acting on the
  one shared table.
- `SqlRepair` covers `sql_gen_and_execute` and its repair loop. The loop is a
  recursive function, and also a `while` loop proved equal to it.
- `XiyanServer` covers `call_xiyan`, `read_resource` and `get_xiyan_config`.

The model treats these as parameters (oracles):

- JSON decoding of an event payload is a function from text to an optional
  decoded value. `None` stands for `JSONDecodeError`.
- The outcome of the HTTP POST is a boolean.
- The model call with SQL extraction, `sql_fix`, `database.fetch`, and
  `fetch_truncated` followed by `trunc_result_to_markdown` are functions that
  return `Failure(str(e))` when they raise.
- The guarded connection step of `call_xiyan` is a given result, and its
  `DataBaseEnv` construction is a function that may fail. The cursor of
  `read_resource` is a given value.

A handler is an opaque value. "Invoking" it means appending it to the
listener's log, together with the request id and the decoded message.

Behaviour of the code worth knowing:

- `sql_gen_and_execute` makes up to four model calls: one generation and three
  `sql_fix` calls. When every execution fails, the third repair is still passed
  to `fetch_truncated` and rendered, although its own execution failed.
- A payload that decodes to something other than an object has no `.get`. An
  object whose `id` is a truthy list or dict cannot be looked up in the table.
  Neither error is the `JSONDecodeError` that the loop catches, so both end the
  listener thread rather than being dropped. The model sets `live` to false and
  changes nothing else.
- A second `data:` line replaces the buffered payload instead of being
  appended. Section 9.2.6 of the WHATWG HTML standard appends it instead.
- A blank line with nothing buffered does not reset the event name. The
  standard clears the event type there, and it resets to the empty string
  where the code resets to `message`.
- The code strips the whole line and the field value of all surrounding
  whitespace. The standard removes a single leading space from the value.
- A bare `data` line without a colon matches no field and is ignored. The
  standard appends an empty line to the buffer.
- An `id:` line is ignored. The standard records it as the last event id.
- `DataBaseEnv(db_source)` in `call_xiyan` is outside the `try` that produces
  the connection-failure reply, so an error there escapes `call_xiyan`.
- A line holding only whitespace is not a blank line. It strips to the empty
  string, matches no field, and is ignored.

## Model

| member | source | states |
|---|---|---|
| SseListener.Classify | src/mcp_client/badkup/mcp_docker_client.py:61-102 | only the empty line closes an event; a whitespace-only line is unrecognised; data and event values come out stripped |
| SseListener.EndOfEvent | src/mcp_client/badkup/mcp_docker_client.py:63-83 | closing an event either leaves the table alone, or removes exactly one pending entry, invokes its own handler and resets the parser |
| Text.Strip | src/mcp_client/badkup/mcp_docker_client.py:86-94 | `str.strip()`: the result has no whitespace at either end, is no longer than the input, is empty exactly when the input is all whitespace, and leaves an already trimmed string unchanged |
| Text.StripIsInfix | src/mcp_client/badkup/mcp_docker_client.py:86-94 | the stripped line or value is a slice of the original with only whitespace before and after it, so stripping removes exactly the surrounding whitespace |
| SseListener.Step | src/mcp_client/badkup/mcp_docker_client.py:57-102 | a stopped listener ignores all input; a line invokes at most one handler, which was pending and is removed; a line that ends the listener changes nothing else |
| SseListener.DataLineReplacesBuffer | src/mcp_client/badkup/mcp_docker_client.py:87-92 | a `data:` line with a non-empty payload replaces the buffer and keeps the table, log and event name |
| SseListener.EmptyDataLineIsNoOp | src/mcp_client/badkup/mcp_docker_client.py:89-92 | a `data:` line whose payload strips to nothing leaves the whole state unchanged |
| SseListener.EventLineSetsNameOnly | src/mcp_client/badkup/mcp_docker_client.py:93-94 | an `event:` line sets the stripped event name and nothing else |
| SseListener.OtherLinesAreNoOps | src/mcp_client/badkup/mcp_docker_client.py:95-102 | `id:`, `retry:` and unrecognised lines leave the whole state unchanged |
| SseListener.WhitespaceLineIsNoOp | src/mcp_client/badkup/mcp_docker_client.py:84-102 | a non-empty line of whitespace does not close an event; the state is unchanged |
| SseListener.BlankLineWithEmptyBufferIsNoOp | src/mcp_client/badkup/mcp_docker_client.py:61-63 | a blank line with nothing buffered neither dispatches nor resets the event name |
| SseListener.EndOfEventCases | src/mcp_client/badkup/mcp_docker_client.py:65-79 | a closed event is delivered to a pending id, dropped, or fatal, and exactly one of these holds |
| SseListener.BlankLineDispatches | src/mcp_client/badkup/mcp_docker_client.py:71-83 | a payload whose truthy string id is pending pops exactly that entry, logs its handler with the whole decoded object, and resets the buffer and event name |
| SseListener.BlankLineDrops | src/mcp_client/badkup/mcp_docker_client.py:71-83 | undecodable text, or an object whose id is missing, falsy or not pending, runs no handler, keeps the table, and resets the parser |
| SseListener.BlankLineHalts | src/mcp_client/badkup/mcp_docker_client.py:65-111 | a non-object payload, or an object with a truthy list or dict id, ends the listener with its table, log and parser unchanged |
| SseListener.DataLinesDoNotConcatenate | src/mcp_client/badkup/mcp_docker_client.py:87-92 | after two `data:` lines in a row, only the second payload is buffered |
| SseListener.DataThenBlankDelivers | src/mcp_client/badkup/mcp_docker_client.py:57-92 | `data: <payload>` followed by a blank line, for a payload whose id is pending, invokes exactly that handler with the decoded object |
| SseListener.StepAccounts | src/mcp_client/badkup/mcp_docker_client.py:57-102 | one line keeps the log and table accounted for: each new invocation used an entry of the old table, with its own handler, and that entry is gone |
| SseListener.Run | src/mcp_client/badkup/mcp_docker_client.py:57-102 | the loop over the stream: a stopped listener ignores the rest of the stream; the invocation log only grows, keeping what it held, by at most one entry per line (the accounting over the whole stream is `SseListener.RunAccounts`) |
| SseListener.RunAccounts | src/mcp_client/badkup/mcp_docker_client.py:57-102 | over any stream the log only grows; the table only shrinks; each invocation matches a removed entry; no id is invoked twice |
| SseListener.HandlersRunAtMostOnce | src/mcp_client/badkup/mcp_docker_client.py:57-102 | from any starting table over any stream: every invocation is of a registered handler under its id, no id is invoked twice, and the table ends holding exactly the entries never invoked |
| RequestTable.NewClientIsValid | src/mcp_client/badkup/mcp_docker_client.py:18-19 | a new client starts at counter 0 with an empty table, so every pending id is an issued one from construction on |
| RequestTable.RequestIdInjective | src/mcp_client/badkup/mcp_docker_client.py:113-116 | `req_<m>` equals `req_<n>` exactly when m equals n |
| RequestTable.NextIdIsFresh | src/mcp_client/badkup/mcp_docker_client.py:113-116 | the next id is none of the ids handed out before it, and it extends the set of ids handed out by one |
| RequestTable.GenerateRequestId | src/mcp_client/badkup/mcp_docker_client.py:113-116 | the counter increases; the table is untouched; the id returned has never been handed out by this client |
| RequestTable.GeneratedIdsDistinct | src/mcp_client/badkup/mcp_docker_client.py:113-116 | k successive ids are `req_<n+1>` … `req_<n+k>` and pairwise distinct |
| RequestTable.SendRequest | src/mcp_client/badkup/mcp_docker_client.py:118-152 | the posted envelope is a JSON-RPC 2.0 request with a fresh id; the handler is registered before posting, so the table while posting is the old table plus the new entry; a failed POST removes it; every other entry is unchanged |
| RequestTable.FailedSendRestoresTable | src/mcp_client/badkup/mcp_docker_client.py:136-152 | a failed POST leaves the table of a client whose entries all carry issued ids exactly as it was |
| RequestTable.SendKeepsValid | src/mcp_client/badkup/mcp_docker_client.py:128-152 | after a send, every pending id is still one the client has handed out |
| RequestTable.Submit | src/mcp_client/badkup/mcp_docker_client.py:154-200 | each wrapper posts its own method name and parameter object under a fresh id, and registers its handler under that id |
| RequestTable.MethodNameIdentifiesOperation | src/mcp_client/badkup/mcp_docker_client.py:162-200 | two wrappers post the same method name exactly when they are the same operation |
| RequestTable.HandleResponse | src/mcp_client/badkup/mcp_docker_client.py:156-195 | the callback receives `result` when the response has one; otherwise it receives `[]` for the two list operations, `""` for a resource read and `None` for a tool call |
| McpSession.BeginConsistent | src/mcp_client/badkup/mcp_docker_client.py:57-152 | a new client with an empty table satisfies the session invariant |
| McpSession.ReceiveStep | src/mcp_client/badkup/mcp_docker_client.py:57-102 | a stream line leaves the history alone, keeps earlier invocations in place, and invokes at most one pending handler, which it takes out of the table |
| McpSession.ReceiveKeepsIds | src/mcp_client/badkup/mcp_docker_client.py:57-102 | after a stream line, invoked ids are still issued, no longer pending and pairwise distinct |
| McpSession.ReceiveKeepsHandlers | src/mcp_client/badkup/mcp_docker_client.py:57-102 | after a stream line, every pending or invoked id still holds or ran the handler its request registered |
| McpSession.ReceiveKeepsConsistent | src/mcp_client/badkup/mcp_docker_client.py:57-102 | a stream line keeps the session invariant |
| McpSession.SendStep | src/mcp_client/badkup/mcp_docker_client.py:118-152 | a send appends `req_<n+1>` to the history, leaves the invocations alone, and changes the table only under that id |
| McpSession.SendKeepsIds | src/mcp_client/badkup/mcp_docker_client.py:113-152 | after a send, the i-th request is still `req_<i+1>` and every pending id was issued |
| McpSession.SendKeepsHandlers | src/mcp_client/badkup/mcp_docker_client.py:118-152 | after a send, a pending id was posted and holds its own handler, and no earlier invocation is attributed to the new request, whether the POST succeeded or not |
| McpSession.SendKeepsConsistent | src/mcp_client/badkup/mcp_docker_client.py:118-152 | a `send_request` call keeps the session invariant |
| McpSession.ReplayKeepsConsistent | src/mcp_client/badkup/mcp_docker_client.py:57-152 | any interleaving of sends and lines keeps the session invariant |
| McpSession.EachHandlerRunsAtMostOnce | src/mcp_client/badkup/mcp_docker_client.py:57-152 | over any interleaving: request ids are distinct; every invocation runs the handler of a request whose POST went through; no request's handler runs twice; a failed POST's handler never runs |
| McpSession.HistoryIdsDistinct | src/mcp_client/badkup/mcp_docker_client.py:113-116 | in a consistent session no two requests share an id |
| McpSession.LoggedIdsWereSent | src/mcp_client/badkup/mcp_docker_client.py:128-137 | in a consistent session every invoked id belongs to a request that was sent |
| McpSession.WrapperReceivesResult | src/mcp_client/badkup/mcp_docker_client.py:71-200 | when a wrapper's response arrives, its callback receives the response's `result`, or the wrapper's default |
| McpSession.FirstRequestAnswered | src/mcp_client/badkup/mcp_docker_client.py:57-152 | registering `req_1`, then `data: <payload>` and a blank line, for a payload whose decoded id is `"req_1"`, invokes that handler once with the decoded object and leaves the table empty |
| McpSession.WorkedExample | src/mcp_client/badkup/mcp_docker_client.py:57-152 | the same for the literal payload `{"id":"req_1","result":[1,2,3]}` |
| SqlRepair.Repair | src/xiyan_mcp_server/src/server.py:124-129 | the loop from iteration idx makes at most 3 - idx repair requests, and executes the candidate of every repair except possibly the last |
| SqlRepair.RepairEndsOnLastCandidate | src/xiyan_mcp_server/src/server.py:124-131 | the loop ends on the candidate it produced last, and without an exception it executed every repair's candidate |
| SqlRepair.RepairStopsOnSuccess | src/xiyan_mcp_server/src/server.py:127-129 | a loop that ends before its budget is spent, without an exception, ends on a candidate that executed successfully |
| SqlRepair.RepairIsChained | src/xiyan_mcp_server/src/server.py:124-127 | each repair request carries the dialect, schema, question, previous candidate and `str` of its failed result |
| SqlRepair.RepairRaised | src/xiyan_mcp_server/src/server.py:124-137 | a loop that raised carries the message of the call that raised: either its last repair request, whose candidate was never executed, or the execution of its last candidate |
| SqlRepair.GenAndExecute | src/xiyan_mcp_server/src/server.py:118-137 | a run makes at most 3 repair requests, at most 4 model calls and at most 4 executions |
| SqlRepair.RepairOnce | src/xiyan_mcp_server/src/server.py:125-129 | one pass of the loop body either ends the loop with the loop's outcome from that iteration on, or continues with a failed repaired candidate that the rest of the loop starts from |
| SqlRepair.RepairLoop | src/xiyan_mcp_server/src/server.py:122-129 | the `for idx in range(3)` loop with its `break` computes the same candidates, requests and exception as the recursive definition |
| SqlRepair.SqlGenAndExecute | src/xiyan_mcp_server/src/server.py:118-137 | the imperative procedure returns the same text and makes the same calls as the functional definition |
| SqlRepair.FirstSuccessSkipsRepair | src/xiyan_mcp_server/src/server.py:121-131 | when the first candidate executes, there is no repair request and that candidate is rendered |
| SqlRepair.RepairsFollowFailures | src/xiyan_mcp_server/src/server.py:122-129 | each repair asks about the most recent candidate, with `str` of its failed result, and nothing is repaired after a success |
| SqlRepair.CandidatesComeFromRepairs | src/xiyan_mcp_server/src/server.py:126-127 | each candidate after the first is exactly what the repair before it returned |
| SqlRepair.LastCandidateIsRendered | src/xiyan_mcp_server/src/server.py:126-131 | the candidate rendered is the last one produced: one that executed, or the third repair |
| SqlRepair.TraceOfRun | src/xiyan_mcp_server/src/server.py:118-131 | after a failed first execution, the run's repair requests and candidates are those of the repair loop, and the loop's last candidate is rendered unless it raised; otherwise there is no repair and at most the first candidate is executed |
| SqlRepair.RenderedReply | src/xiyan_mcp_server/src/server.py:131-137 | a run that reaches `fetch_truncated` returns the stripped markdown of the last candidate, or `str(e)` when rendering raised |
| SqlRepair.RaisedReply | src/xiyan_mcp_server/src/server.py:118-137 | a run that stops before rendering returns `str(e)` of the one call that raised: the generation, the last execution or the last repair request |
| SqlRepair.TwoFailuresThenSuccess | src/xiyan_mcp_server/src/server.py:118-134 | two failed executions and then a success make three model calls and render the third candidate |
| SqlRepair.AllRepairsFail | src/xiyan_mcp_server/src/server.py:118-134 | when every execution fails: four model calls and four executions, and the third repair is rendered anyway |
| XiyanServer.CallXiyan | src/xiyan_mcp_server/src/server.py:169-190 | a failed connection returns the connection-failure text plus the error; a failing `DataBaseEnv` escapes with its error; otherwise the reply is that of `sql_gen_and_execute`, within its repair bound |
| XiyanServer.SetupFailureShortCircuits | src/xiyan_mcp_server/src/server.py:177-185 | after a failed connection the reply starts with the connection-failure text, and no generation or query is made |
| XiyanServer.CallXiyanOutcomes | src/xiyan_mcp_server/src/server.py:177-190 | a reply without a run exactly when connecting failed; an escaping error exactly when `DataBaseEnv` failed after a good connection; a reply with a run exactly when both succeeded |
| XiyanServer.CsvLines | src/xiyan_mcp_server/src/server.py:86-89 | one header line of comma-joined column names, then one comma-joined line per row |
| XiyanServer.ReadResource | src/xiyan_mcp_server/src/server.py:76-92 | a driver error becomes `Database error: <e>`; a statement without a result set gives the no-data message |
| XiyanServer.ReadResourceLines | src/xiyan_mcp_server/src/server.py:84-89 | when no name or cell holds a line break, the output splits back into the header and one line per row; a row without commas in its cells splits back into its cells |
| XiyanServer.GetXiyanConfig | src/xiyan_mcp_server/src/server.py:48-51 | the configuration succeeds exactly when all five required keys are present, copying them; a missing one is reported by name; the dialect defaults to `mysql` |
| XiyanServer.DialectDefaultsToMysql | src/xiyan_mcp_server/src/server.py:48-51 | a section without `dialect` but with all required keys yields the dialect `mysql` |

## Left out

- Threads (the table has no lock). The listener thread and callers of `send_request` share the handler table without a lock. The session model takes each send and each line as one atomic step, so it does not model a response that arrives between registering a handler and the POST returning.
- `connect`, the `connected` flag, the HTTP GET that opens the stream, and its status and content-type checks. A stopped listener is modelled only through `live`.
- The splitting of the response body into lines by `iter_lines`. The listener takes already-decoded lines.
- JSON decoding is a parameter, and numbers are integers: floating-point ids are not modelled.
- Handlers are opaque. The model assumes a handler returns normally and does not call back into the client. In the source, a handler that raises ends the listener thread, and one that sends a request changes the table during dispatch.
- All `print` and `logger` output.
- The prompt texts of the generation and of `sql_fix`, the model client (`call_openai_sdk`), and `extract_sql_from_qwen`. Together with `sql_fix` these are the `generate` and `fix` oracles.
- `HITLSQLDatabase`, `init_db_conn`, `DataBaseEnv`, `fetch`, `fetch_truncated` and `trunc_result_to_markdown` are oracles. `str()` of result values and of table cells is taken as already applied.
- `read_resource` re-raises a driver error as a `RuntimeError`. The model returns it as a `Failure` with the same message. Exceptions other than the driver's `Error` are not modelled.
- SqlRepair.GenAndExecute: assumes the `model` section of the configuration has `name`, `key` and `url`. `sql_gen_and_execute` reads them, with `db_env.dialect` and `db_env.mschema_str`, before its `try`. A missing key raises `KeyError`, which escapes `sql_gen_and_execute` and `call_xiyan` instead of becoming the reply.
- `read_schema`, `get_data`, `get_yml_config`, `main`, the module-level configuration globals and the `FastMCP` registration are wiring around the modelled functions.
- The rest of the repository is not part of this model: the server's other transports, the LLM client package and the other client variants.
- Database answers: `fetch` is a function of the SQL text. A database whose answer to the same statement changes between two calls is not modelled.
- Text.Strip: its own contract does not tie the result to the input's characters. That fact is `Text.StripIsInfix`, which holds for every string. It is kept out of the contract of `Strip` because every proof that unfolds the listener's line classification would then have to carry its witness.
- XiyanServer.GetXiyanConfig: states that the key reported missing is a required key absent from the section. It does not state that it is the first such key in the order the constructor call reads them.
