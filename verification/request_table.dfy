/** The client side of request correlation: fresh `req_<n>` identifiers, the
    table of pending handlers that `send_request` maintains, and the four
    operations that wrap `send_request` and unwrap the response's `result`. */
module RequestTable {
  import opened Text
  import opened JsonModel
  import opened SseListener

  /** The dispatcher's state: the last number handed out and the pending handlers. */
  datatype Client<H> = Client(requestId: nat, pending: map<string, H>)

  function NewClient<H>(): Client<H>
  {
    Client(0, map[])
  }

  /** The identifier for the `n`-th request. */
  function RequestId(n: nat): string
  {
    "req_" + Decimal(n)
  }

  /** A new client has handed out nothing and has nothing pending. */
  lemma NewClientIsValid<H>()
    ensures Valid(NewClient<H>())
    ensures NewClient<H>().requestId == 0 && NewClient<H>().pending == map[]
  {
  }

  /** The identifiers handed out by a client whose counter stands at `n`. */
  ghost function IssuedUpTo(n: nat): set<string>
  {
    set m: nat | 1 <= m <= n :: RequestId(m)
  }

  /** Every pending entry is under an identifier this client handed out. */
  ghost predicate Valid<H>(c: Client<H>)
  {
    c.pending.Keys <= IssuedUpTo(c.requestId)
  }

  lemma RequestIdInjective(m: nat, n: nat)
    ensures RequestId(m) == RequestId(n) <==> m == n
  {
    if RequestId(m) == RequestId(n) {
      assert RequestId(m)[4..] == Decimal(m);
      assert RequestId(n)[4..] == Decimal(n);
      DecimalInjective(m, n);
    }
  }

  /** The next identifier differs from every one handed out before it. */
  lemma NextIdIsFresh(n: nat)
    ensures RequestId(n + 1) !in IssuedUpTo(n)
    ensures IssuedUpTo(n + 1) == IssuedUpTo(n) + {RequestId(n + 1)}
  {
    forall m: nat | 1 <= m <= n
      ensures RequestId(m) != RequestId(n + 1)
    {
      RequestIdInjective(m, n + 1);
    }
  }

  /** `_generate_request_id`: bump the counter and name the request after it. */
  function GenerateRequestId<H>(c: Client<H>): (r: (Client<H>, string))
    ensures r.0.requestId > c.requestId && r.0.pending == c.pending
    ensures r.1 == RequestId(r.0.requestId)
    ensures r.1 !in IssuedUpTo(c.requestId)
  {
    NextIdIsFresh(c.requestId);
    var n := c.requestId + 1;
    (c.(requestId := n), RequestId(n))
  }

  /** Identifiers generated one after another by the same client are pairwise distinct. */
  lemma {:induction false} GeneratedIdsDistinct<H>(c: Client<H>, k: nat)
    ensures var ids := GenerateMany(c, k).1;
            && |ids| == k
            && (forall i :: 0 <= i < k ==> ids[i] == RequestId(c.requestId + i + 1))
            && (forall i, j :: 0 <= i < j < k ==> ids[i] != ids[j])
    decreases k
  {
    if k > 0 {
      var (c1, id) := GenerateRequestId(c);
      GeneratedIdsDistinct(c1, k - 1);
      var ids := GenerateMany(c, k).1;
      assert ids == [id] + GenerateMany(c1, k - 1).1;
      forall i, j | 0 <= i < j < k
        ensures ids[i] != ids[j]
      {
        RequestIdInjective(c.requestId + i + 1, c.requestId + j + 1);
      }
    }
  }

  /** `k` calls of `_generate_request_id` in a row, and the identifiers they return. */
  function GenerateMany<H>(c: Client<H>, k: nat): (Client<H>, seq<string>)
    decreases k
  {
    if k == 0 then (c, [])
    else
      var (c1, id) := GenerateRequestId(c);
      var (c2, ids) := GenerateMany(c1, k - 1);
      (c2, [id] + ids)
  }

  /** The JSON-RPC envelope posted to the message endpoint. */
  datatype Request = Request(jsonrpc: string, id: string, rpcMethod: string, params: Json)

  /** What one `send_request` call did: the client afterwards, the identifier it
      used, the envelope it posted, and the table as it stood while posting. */
  datatype Sent<H> = Sent(client: Client<H>, id: string, posted: Request, registered: map<string, H>)

  /** `send_request`: take a fresh id, register the handler under it, then post.
      `postOk` is whether the POST returned without raising; on failure the
      just-registered entry is deleted again. */
  function SendRequest<H>(c: Client<H>, rpcMethod: string, params: Json, handler: H, postOk: bool): (s: Sent<H>)
    ensures s.client.requestId > c.requestId && s.id !in IssuedUpTo(c.requestId)
    ensures s.posted == Request("2.0", s.id, rpcMethod, params)
    ensures s.id in s.registered && s.registered[s.id] == handler
    ensures s.registered == c.pending[s.id := handler]
    ensures postOk ==> s.client.pending == s.registered
    ensures !postOk ==> s.id !in s.client.pending
    ensures forall k :: k != s.id ==> (k in s.client.pending <==> k in c.pending)
    ensures forall k :: k != s.id && k in c.pending ==> s.client.pending[k] == c.pending[k]
  {
    var (c1, id) := GenerateRequestId(c);
    var request := Request("2.0", id, rpcMethod, params);
    var registered := c1.pending[id := handler];
    var after := if postOk then registered else if id in registered then registered - {id} else registered;
    Sent(c1.(pending := after), id, request, registered)
  }

  /** A failed POST leaves a valid client's table exactly as it was before the call. */
  lemma FailedSendRestoresTable<H>(c: Client<H>, rpcMethod: string, params: Json, handler: H)
    requires Valid(c)
    ensures SendRequest(c, rpcMethod, params, handler, false).client.pending == c.pending
  {
  }

  /** Sending keeps every pending identifier one the client has handed out. */
  lemma SendKeepsValid<H>(c: Client<H>, rpcMethod: string, params: Json, handler: H, postOk: bool)
    requires Valid(c)
    ensures Valid(SendRequest(c, rpcMethod, params, handler, postOk).client)
  {
    NextIdIsFresh(c.requestId);
  }

  // ---------------------------------------------------------------------------
  // The wrappers around send_request
  // ---------------------------------------------------------------------------

  datatype Operation =
    | ListResources
    | ListTools
    | ReadResource(resourceId: string, resourceParams: Json)
    | CallTool(toolName: string, toolParams: Json)

  function MethodName(op: Operation): string
  {
    match op
    case ListResources => "mcp.list_resources"
    case ListTools => "mcp.list_tools"
    case ReadResource(_, _) => "mcp.read_resource"
    case CallTool(_, _) => "mcp.call_tool"
  }

  function Params(op: Operation): Json
  {
    match op
    case ListResources => JObj(map[])
    case ListTools => JObj(map[])
    case ReadResource(id, p) => JObj(map["resource_id" := JStr(id), "params" := p])
    case CallTool(name, p) => JObj(map["tool_name" := JStr(name), "params" := p])
  }

  /** The four wrappers post under four different method names, so the server can
      tell which operation a request is. */
  lemma MethodNameIdentifiesOperation(a: Operation, b: Operation)
    ensures MethodName(a) == MethodName(b) <==>
              (a.ListResources? && b.ListResources?) || (a.ListTools? && b.ListTools?)
              || (a.ReadResource? && b.ReadResource?) || (a.CallTool? && b.CallTool?)
  {
    var ma, mb := MethodName(a), MethodName(b);
    if ma == mb {
      assert ma[4..] == mb[4..];
      assert ma[5] == mb[5] && ma[9] == mb[9];
    }
  }

  /** What the caller's callback receives when the response has no `result`. */
  function DefaultResult(op: Operation): Json
  {
    match op
    case ListResources => JArr([])
    case ListTools => JArr([])
    case ReadResource(_, _) => JStr("")
    case CallTool(_, _) => JNull
  }

  /** The `handle_response` closure of each wrapper: the value it forwards to the callback. */
  function HandleResponse(op: Operation, response: map<string, Json>): (r: Json)
    ensures "result" in response ==> r == response["result"]
    ensures "result" !in response && (op.ListResources? || op.ListTools?) ==> r == JArr([])
    ensures "result" !in response && op.ReadResource? ==> r == JStr("")
    ensures "result" !in response && op.CallTool? ==> r == JNull
  {
    if "result" in response then response["result"] else DefaultResult(op)
  }

  /** The handler a wrapper registers: its operation and the caller's callback. */
  datatype Wrapped<C> = Wrapped(op: Operation, callback: C)

  /** Calling a wrapper: one `send_request` with the operation's method name and parameters. */
  function Submit<C>(c: Client<Wrapped<C>>, op: Operation, callback: C, postOk: bool): (s: Sent<Wrapped<C>>)
    ensures s.id !in IssuedUpTo(c.requestId) && s.posted.jsonrpc == "2.0" && s.posted.id == s.id
    ensures op.ListResources? ==> s.posted.rpcMethod == "mcp.list_resources" && s.posted.params == JObj(map[])
    ensures op.ListTools? ==> s.posted.rpcMethod == "mcp.list_tools" && s.posted.params == JObj(map[])
    ensures op.ReadResource? ==>
              s.posted.rpcMethod == "mcp.read_resource"
              && s.posted.params == JObj(map["resource_id" := JStr(op.resourceId), "params" := op.resourceParams])
    ensures op.CallTool? ==>
              s.posted.rpcMethod == "mcp.call_tool"
              && s.posted.params == JObj(map["tool_name" := JStr(op.toolName), "params" := op.toolParams])
    ensures s.id in s.registered && s.registered[s.id] == Wrapped(op, callback)
    ensures postOk ==> s.id in s.client.pending && s.client.pending[s.id] == Wrapped(op, callback)
  {
    SendRequest(c, MethodName(op), Params(op), Wrapped(op, callback), postOk)
  }

  /** Running a dispatched wrapper handler: the callback and the value passed to it. */
  function Invoke<C>(d: Dispatch<Wrapped<C>>): (C, Json)
  {
    (d.handler.callback, HandleResponse(d.handler.op, d.message))
  }
}
