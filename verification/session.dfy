/** One client over its lifetime: calls of `send_request` interleaved with lines
    arriving on the event stream, both acting on the one table of pending
    handlers. Each interleaving is taken as a sequence of atomic events, which is
    what the table needs a lock for when the two run on separate threads. */
module McpSession {
  import opened Results
  import opened Text
  import opened JsonModel
  import opened SseListener
  import opened RequestTable

  datatype Event<H> =
    | Receive(line: string)
    | Send(rpcMethod: string, params: Json, handler: H, postOk: bool)

  /** The record of one `send_request` call: the id it took, its handler, and whether the POST went through. */
  datatype SendRecord<H> = SendRecord(id: string, handler: H, posted: bool)

  /** The counter of the dispatcher, the listener (which holds the shared table),
      and every request sent so far. */
  datatype Session<H> = Session(requestId: nat, listener: Listener<H>, history: seq<SendRecord<H>>)

  function Begin<H>(): Session<H>
  {
    Session(0, Start(map[]), [])
  }

  function Apply<H>(decode: string -> Option<Json>, s: Session<H>, e: Event<H>): Session<H>
  {
    match e
    case Receive(line) => s.(listener := Step(decode, s.listener, line))
    case Send(rpcMethod, params, handler, postOk) =>
      var sent := SendRequest(Client(s.requestId, s.listener.pending), rpcMethod, params, handler, postOk);
      Session(sent.client.requestId, s.listener.(pending := sent.client.pending),
              s.history + [SendRecord(sent.id, handler, postOk)])
  }

  function Replay<H>(decode: string -> Option<Json>, s: Session<H>, events: seq<Event<H>>): Session<H>
    decreases |events|
  {
    if events == [] then s else Replay(decode, Apply(decode, s, events[0]), events[1..])
  }

  /** The session invariant on identifiers: the i-th request is `req_<i+1>`; every
      pending or invoked id was handed out; an invoked id is no longer pending; and
      no id was invoked twice. */
  ghost predicate IdsIssued<H>(s: Session<H>)
  {
    var pending := s.listener.pending;
    var log := s.listener.log;
    && |s.history| == s.requestId
    && (forall i :: 0 <= i < |s.history| ==> s.history[i].id == RequestId(i + 1))
    && pending.Keys <= IssuedUpTo(s.requestId)
    && (forall j :: 0 <= j < |log| ==> log[j].key in IssuedUpTo(s.requestId) && log[j].key !in pending)
    && (forall j1, j2 :: 0 <= j1 < j2 < |log| ==> log[j1].key != log[j2].key)
  }

  /** The session invariant on handlers: an id still pending was posted and holds
      its own handler; an invoked id was posted and ran its own handler. */
  ghost predicate HandlersMatch<H>(s: Session<H>)
  {
    var pending := s.listener.pending;
    var log := s.listener.log;
    && (forall i :: 0 <= i < |s.history| && s.history[i].id in pending ==>
          s.history[i].posted && pending[s.history[i].id] == s.history[i].handler)
    && (forall i, j :: 0 <= i < |s.history| && 0 <= j < |log| && log[j].key == s.history[i].id ==>
          s.history[i].posted && log[j].handler == s.history[i].handler)
  }

  ghost predicate Consistent<H>(s: Session<H>)
  {
    IdsIssued(s) && HandlersMatch(s)
  }

  lemma BeginConsistent<H>()
    ensures Consistent(Begin<H>())
  {
  }

  /** A line invokes at most one handler, which was pending and is taken out of the
      table; the entries of the log before it stay where they were. */
  lemma ReceiveStep<H>(decode: string -> Option<Json>, s: Session<H>, line: string)
    ensures var r := Apply(decode, s, Receive(line));
            && r.requestId == s.requestId && r.history == s.history
            && |r.listener.log| >= |s.listener.log|
            && (forall j :: 0 <= j < |s.listener.log| ==> r.listener.log[j] == s.listener.log[j])
            && (r.listener.log == s.listener.log ==> r.listener.pending == s.listener.pending)
            && (r.listener.log != s.listener.log ==>
                  && |r.listener.log| == |s.listener.log| + 1
                  && var d := r.listener.log[|s.listener.log|];
                  && d.key in s.listener.pending && d.handler == s.listener.pending[d.key]
                  && r.listener.pending == s.listener.pending - {d.key})
  {
    var l := s.listener;
    var r := Step(decode, l, line);
    if r.log != l.log {
      forall j | 0 <= j < |l.log|
        ensures r.log[j] == l.log[j]
      {
        assert r.log[j] == r.log[..|l.log|][j];
      }
    }
  }

  lemma ReceiveKeepsIds<H>(decode: string -> Option<Json>, s: Session<H>, line: string)
    requires IdsIssued(s)
    ensures IdsIssued(Apply(decode, s, Receive(line)))
  {
    ReceiveStep(decode, s, line);
  }

  lemma ReceiveKeepsHandlers<H>(decode: string -> Option<Json>, s: Session<H>, line: string)
    requires HandlersMatch(s)
    ensures HandlersMatch(Apply(decode, s, Receive(line)))
  {
    ReceiveStep(decode, s, line);
  }

  lemma ReceiveKeepsConsistent<H>(decode: string -> Option<Json>, s: Session<H>, line: string)
    requires Consistent(s)
    ensures Consistent(Apply(decode, s, Receive(line)))
  {
    ReceiveKeepsIds(decode, s, line);
    ReceiveKeepsHandlers(decode, s, line);
  }

  /** A `send_request` call appends `req_<n+1>` to the history and changes the table
      only under that id. */
  lemma SendStep<H>(decode: string -> Option<Json>, s: Session<H>,
                    rpcMethod: string, params: Json, handler: H, postOk: bool)
    ensures var r := Apply(decode, s, Send(rpcMethod, params, handler, postOk));
            var id := RequestId(s.requestId + 1);
            && r.requestId == s.requestId + 1
            && r.history == s.history + [SendRecord(id, handler, postOk)]
            && r.listener.log == s.listener.log
            && (postOk ==> id in r.listener.pending && r.listener.pending[id] == handler)
            && (!postOk ==> id !in r.listener.pending)
            && (forall k :: k != id ==> (k in r.listener.pending <==> k in s.listener.pending))
            && (forall k :: k != id && k in s.listener.pending ==> r.listener.pending[k] == s.listener.pending[k])
  {
  }

  lemma SendKeepsIds<H>(decode: string -> Option<Json>, s: Session<H>,
                        rpcMethod: string, params: Json, handler: H, postOk: bool)
    requires IdsIssued(s)
    ensures IdsIssued(Apply(decode, s, Send(rpcMethod, params, handler, postOk)))
  {
    NextIdIsFresh(s.requestId);
    SendStep(decode, s, rpcMethod, params, handler, postOk);
  }

  lemma SendKeepsHandlers<H>(decode: string -> Option<Json>, s: Session<H>,
                             rpcMethod: string, params: Json, handler: H, postOk: bool)
    requires Consistent(s)
    ensures HandlersMatch(Apply(decode, s, Send(rpcMethod, params, handler, postOk)))
    ensures var log := Apply(decode, s, Send(rpcMethod, params, handler, postOk)).listener.log;
            forall j :: 0 <= j < |log| ==> log[j].key != RequestId(s.requestId + 1)
  {
    var n := s.requestId;
    NextIdIsFresh(n);
    SendStep(decode, s, rpcMethod, params, handler, postOk);
    var r := Apply(decode, s, Send(rpcMethod, params, handler, postOk));
    var id := RequestId(n + 1);
    forall i | 0 <= i < n
      ensures s.history[i].id != id
    {
      RequestIdInjective(i + 1, n + 1);
    }
    forall i | 0 <= i < |r.history| && r.history[i].id in r.listener.pending
      ensures r.history[i].posted && r.listener.pending[r.history[i].id] == r.history[i].handler
    {
      if i < n {
        assert r.history[i] == s.history[i];
      }
    }
    forall i, j | 0 <= i < |r.history| && 0 <= j < |r.listener.log| && r.listener.log[j].key == r.history[i].id
      ensures r.history[i].posted && r.listener.log[j].handler == r.history[i].handler
    {
      assert i < n;
      assert r.history[i] == s.history[i];
    }
  }

  lemma SendKeepsConsistent<H>(decode: string -> Option<Json>, s: Session<H>,
                               rpcMethod: string, params: Json, handler: H, postOk: bool)
    requires Consistent(s)
    ensures Consistent(Apply(decode, s, Send(rpcMethod, params, handler, postOk)))
  {
    SendKeepsIds(decode, s, rpcMethod, params, handler, postOk);
    SendKeepsHandlers(decode, s, rpcMethod, params, handler, postOk);
  }

  lemma {:induction false} ReplayKeepsConsistent<H>(decode: string -> Option<Json>, s: Session<H>, events: seq<Event<H>>)
    requires Consistent(s)
    ensures Consistent(Replay(decode, s, events))
    decreases |events|
  {
    if events != [] {
      match events[0] {
        case Receive(line) => ReceiveKeepsConsistent(decode, s, line);
        case Send(m, p, h, ok) => SendKeepsConsistent(decode, s, m, p, h, ok);
      }
      ReplayKeepsConsistent(decode, Apply(decode, s, events[0]), events[1..]);
    }
  }

  /** Over any interleaving of sends and stream lines: request ids are pairwise
      distinct; every handler invocation belongs to a request whose POST went
      through and runs that request's own handler; no request's handler runs twice;
      and a request whose POST failed never has its handler run. */
  lemma EachHandlerRunsAtMostOnce<H>(decode: string -> Option<Json>, events: seq<Event<H>>)
    ensures var s := Replay(decode, Begin(), events);
            var log := s.listener.log;
            && (forall i, j :: 0 <= i < j < |s.history| ==> s.history[i].id != s.history[j].id)
            && (forall j :: 0 <= j < |log| ==> WasSent(s, log[j].key))
            && (forall i, j :: 0 <= i < |s.history| && 0 <= j < |log| && log[j].key == s.history[i].id ==>
                  s.history[i].posted && log[j].handler == s.history[i].handler)
            && (forall j1, j2 :: 0 <= j1 < j2 < |log| ==> log[j1].key != log[j2].key)
            && (forall i, j :: 0 <= i < |s.history| && !s.history[i].posted && 0 <= j < |log| ==>
                  log[j].key != s.history[i].id)
  {
    BeginConsistent<H>();
    ReplayKeepsConsistent(decode, Begin(), events);
    var s := Replay(decode, Begin(), events);
    assert IdsIssued(s) && HandlersMatch(s);
    HistoryIdsDistinct(s);
    LoggedIdsWereSent(s);
  }

  /** Requests in the history carry pairwise distinct ids. */
  lemma HistoryIdsDistinct<H>(s: Session<H>)
    requires IdsIssued(s)
    ensures forall i, j :: 0 <= i < j < |s.history| ==> s.history[i].id != s.history[j].id
  {
    forall i, j | 0 <= i < j < |s.history|
      ensures s.history[i].id != s.history[j].id
    {
      RequestIdInjective(i + 1, j + 1);
    }
  }

  /** `key` is the id of some request in the history. */
  ghost predicate WasSent<H>(s: Session<H>, key: string)
  {
    exists i :: 0 <= i < |s.history| && s.history[i].id == key
  }

  /** Every invoked id is the id of a request in the history. */
  lemma LoggedIdsWereSent<H>(s: Session<H>)
    requires IdsIssued(s)
    ensures forall j :: 0 <= j < |s.listener.log| ==> WasSent(s, s.listener.log[j].key)
  {
    forall j | 0 <= j < |s.listener.log|
      ensures WasSent(s, s.listener.log[j].key)
    {
      var key := s.listener.log[j].key;
      assert key in IssuedUpTo(s.requestId);
      var m: nat :| 1 <= m <= s.requestId && RequestId(m) == key;
      assert 0 <= m - 1 < |s.history| && s.history[m - 1].id == key;
    }
  }

  /** A wrapper's callback, once its response arrives, receives the response's
      `result`, or the wrapper's default when the response has none. */
  lemma WrapperReceivesResult<C>(decode: string -> Option<Json>, s: Session<Wrapped<C>>, key: string)
    requires s.listener.live && s.listener.parser.buffer != ""
    requires Matches(decode(s.listener.parser.buffer), s.listener.pending, key)
    ensures var r := Apply(decode, s, Receive(""));
            var fields := decode(s.listener.parser.buffer).value.fields;
            var w := s.listener.pending[key];
            && |r.listener.log| == |s.listener.log| + 1
            && Invoke(r.listener.log[|s.listener.log|]) == (w.callback, HandleResponse(w.op, fields))
            && ("result" in fields ==> Invoke(r.listener.log[|s.listener.log|]).1 == fields["result"])
            && ("result" !in fields ==> Invoke(r.listener.log[|s.listener.log|]).1 == DefaultResult(w.op))
  {
    BlankLineDispatches(decode, s.listener, key);
  }

  /** Registering `req_1`, then feeding `data: <payload>` and a blank line, for a
      payload whose decoded `id` is `"req_1"`, invokes that handler exactly once
      with the decoded object and leaves the table empty. */
  lemma FirstRequestAnswered<H>(decode: string -> Option<Json>, handler: H, payload: string, fields: map<string, Json>)
    requires payload != "" && Trimmed(payload)
    requires decode(payload) == Some(JObj(fields)) && "id" in fields && fields["id"] == JStr("req_1")
    ensures var s := Replay(decode, Begin(), [Send("mcp.list_tools", JObj(map[]), handler, true),
                                             Receive("data: " + payload), Receive("")]);
            && s.listener.log == [Dispatch("req_1", handler, fields)]
            && s.listener.pending == map[]
  {
    var lines := ["data: " + payload, ""];
    var events: seq<Event<H>> := [Send("mcp.list_tools", JObj(map[]), handler, true),
                                  Receive("data: " + payload), Receive("")];
    var s1 := FirstSendRegisters(decode, handler, "mcp.list_tools", JObj(map[]));
    assert events == [events[0]] + Receives(lines);
    ReplayCons(decode, Begin(), events[0], Receives(lines));
    ReplayOfReceives(decode, s1, lines);
    DataThenBlankDelivers(decode, s1.listener, payload, "req_1");
  }

  /** The worked case: `data: {"id":"req_1","result":[1,2,3]}` answers `req_1`. */
  lemma WorkedExample<H>(decode: string -> Option<Json>, handler: H, payload: string)
    requires payload == "{\"id\":\"req_1\",\"result\":[1,2,3]}"
    requires decode(payload) == Some(JObj(map["id" := JStr("req_1"), "result" := JArr([JNum(1), JNum(2), JNum(3)])]))
    ensures var s := Replay(decode, Begin(), [Send("mcp.list_tools", JObj(map[]), handler, true),
                                             Receive("data: " + payload), Receive("")]);
            && s.listener.log == [Dispatch("req_1", handler, map["id" := JStr("req_1"), "result" := JArr([JNum(1), JNum(2), JNum(3)])])]
            && s.listener.pending == map[]
  {
    assert payload[0] == '{' && payload[|payload| - 1] == '}';
    FirstRequestAnswered(decode, handler, payload, map["id" := JStr("req_1"), "result" := JArr([JNum(1), JNum(2), JNum(3)])]);
  }

  /** The first `send_request` of a client registers its handler under `req_1`. */
  lemma FirstSendRegisters<H>(decode: string -> Option<Json>, handler: H, rpcMethod: string, params: Json)
    returns (s1: Session<H>)
    ensures s1 == Apply(decode, Begin(), Send(rpcMethod, params, handler, true))
    ensures s1.listener == Listener(Fresh, map["req_1" := handler], [], true)
  {
    assert RequestId(1) == "req_1";
    s1 := Apply(decode, Begin(), Send(rpcMethod, params, handler, true));
  }

  function Receives<H>(lines: seq<string>): (events: seq<Event<H>>)
    ensures |events| == |lines|
    ensures forall i :: 0 <= i < |lines| ==> events[i] == Receive(lines[i])
  {
    seq(|lines|, i requires 0 <= i < |lines| => Receive(lines[i]))
  }

  /** Replaying a first event and then the rest. */
  lemma ReplayCons<H>(decode: string -> Option<Json>, s: Session<H>, e: Event<H>, rest: seq<Event<H>>)
    ensures Replay(decode, s, [e] + rest) == Replay(decode, Apply(decode, s, e), rest)
  {
    assert ([e] + rest)[1..] == rest;
  }

  /** A stretch of the session in which only lines arrive is a run of the listener. */
  lemma {:induction false} ReplayOfReceives<H>(decode: string -> Option<Json>, s: Session<H>, lines: seq<string>)
    ensures Replay(decode, s, Receives(lines)).listener == Run(decode, s.listener, lines)
    ensures Replay(decode, s, Receives(lines)).history == s.history
    decreases |lines|
  {
    if lines != [] {
      var events: seq<Event<H>> := Receives(lines);
      assert events[1..] == Receives(lines[1..]);
      ReplayOfReceives(decode, Apply(decode, s, events[0]), lines[1..]);
    }
  }
}
