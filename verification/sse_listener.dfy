/** The line loop of the client's Server-Sent Events listener, as a pure step
    function over already-decoded lines.

    The state is the parser (data buffer and event name), the table of pending
    handlers keyed by request id, the log of handler invocations made so far,
    and whether the listener is still running. A blank line ends an event: a
    non-empty buffer is decoded and, if its `id` names a pending request, that
    handler is taken out of the table and invoked with the decoded object.

    The field names `event:`, `data:`, `id:` and `retry:` are those of section
    9.2 "Server-sent events" of the WHATWG HTML Living Standard, but the framing
    only loosely follows that section:
    - a `data:` line replaces the buffer instead of appending a line to it;
    - the whole line and the field value are stripped of all surrounding
      whitespace, where the standard removes one leading space from the value;
    - a blank line with an empty buffer keeps the event name, where the
      standard clears the event type;
    - the event name resets to `message`, not to the empty string;
    - a bare `data` line without a colon is not recognised, where the standard
      appends an empty line to the buffer;
    - an `id:` line does not set a last event id. */
module SseListener {
  import opened Results
  import opened Text
  import opened JsonModel

  const DefaultEvent: string := "message"

  /** The partially read event: the last non-empty `data:` payload and the event name. */
  datatype Parser = Parser(buffer: string, eventName: string)

  /** The parser state at start-up and after every dispatched event. */
  const Fresh: Parser := Parser("", DefaultEvent)

  /** One handler invocation: the request id it was registered under, the
      handler, and the decoded object it was called with. */
  datatype Dispatch<H> = Dispatch(key: string, handler: H, message: map<string, Json>)

  /** `live` turns false when an exception escapes the loop and the listener thread ends. */
  datatype Listener<H> = Listener(parser: Parser, pending: map<string, H>, log: seq<Dispatch<H>>, live: bool)

  function Start<H>(pending: map<string, H>): Listener<H>
  {
    Listener(Fresh, pending, [], true)
  }

  /** What a single line of the stream is, once stripped. */
  datatype Line =
    | Blank
    | DataField(content: string)
    | EventField(name: string)
    | IdField
    | RetryField
    | Unrecognised

  function Classify(raw: string): (k: Line)
    ensures k.Blank? <==> raw == ""
    ensures raw != "" && AllSpace(raw) ==> k == Unrecognised
    ensures k.DataField? ==> Trimmed(k.content)
    ensures k.EventField? ==> Trimmed(k.name)
  {
    if raw == "" then Blank
    else
      var t := Strip(raw);
      if StartsWith(t, "data:") then DataField(Strip(t[5..]))
      else if StartsWith(t, "event:") then EventField(Strip(t[6..]))
      else if StartsWith(t, "id:") then IdField
      else if StartsWith(t, "retry:") then RetryField
      else Unrecognised
  }

  /** `r` is `l` after exactly one pending handler was taken out of the table and invoked. */
  ghost predicate DeliveredOne<H>(l: Listener<H>, r: Listener<H>)
  {
    && |r.log| == |l.log| + 1
    && r.log[..|l.log|] == l.log
    && var d := r.log[|l.log|];
    && d.key in l.pending
    && d.handler == l.pending[d.key]
    && r.pending == l.pending - {d.key}
  }

  /** The blank line that closes an event whose buffer is non-empty. A decoded
      value that is not an object has no `.get`, and a truthy list or dict id
      cannot be looked up in the table: both raise past the `JSONDecodeError`
      handler and end the listener. */
  function EndOfEvent<H>(decode: string -> Option<Json>, l: Listener<H>): (r: Listener<H>)
    ensures r.log == l.log ==> r.pending == l.pending
    ensures r.log != l.log ==> DeliveredOne(l, r) && r.parser == Fresh
  {
    match decode(l.parser.buffer)
    case None => l.(parser := Fresh)
    case Some(JObj(fields)) =>
      var id := GetOr(fields, "id", JNull);
      if !Truthy(id) then l.(parser := Fresh)
      else if !Hashable(id) then l.(live := false)
      else if id.JStr? && id.s in l.pending then
        Listener(Fresh, l.pending - {id.s}, l.log + [Dispatch(id.s, l.pending[id.s], fields)], true)
      else l.(parser := Fresh)
    case Some(_) => l.(live := false)
  }

  /** One iteration of the listener's loop over the stream's lines. */
  function Step<H>(decode: string -> Option<Json>, l: Listener<H>, raw: string): (r: Listener<H>)
    ensures !l.live ==> r == l
    ensures r.log == l.log ==> r.pending == l.pending
    ensures r.log != l.log ==> DeliveredOne(l, r)
    ensures !r.live ==> r.parser == l.parser && r.pending == l.pending && r.log == l.log
  {
    if !l.live then l
    else match Classify(raw)
      case Blank => if l.parser.buffer == "" then l else EndOfEvent(decode, l)
      case DataField(content) => if content != "" then l.(parser := l.parser.(buffer := content)) else l
      case EventField(name) => l.(parser := l.parser.(eventName := name))
      case IdField => l
      case RetryField => l
      case Unrecognised => l
  }

  /** The listener's loop over a whole stream of lines. */
  function Run<H>(decode: string -> Option<Json>, l: Listener<H>, lines: seq<string>): (r: Listener<H>)
    ensures !l.live ==> r == l
    ensures |l.log| <= |r.log| <= |l.log| + |lines|
    ensures r.log[..|l.log|] == l.log
    decreases |lines|
  {
    if lines == [] then l else Run(decode, Step(decode, l, lines[0]), lines[1..])
  }

  // ---------------------------------------------------------------------------
  // Single lines
  // ---------------------------------------------------------------------------

  /** A `data:` line with a non-empty payload replaces the buffer, whatever it held. */
  lemma DataLineReplacesBuffer<H>(decode: string -> Option<Json>, l: Listener<H>, raw: string)
    requires l.live && raw != ""
    requires StartsWith(Strip(raw), "data:") && Strip(Strip(raw)[5..]) != ""
    ensures Step(decode, l, raw) == l.(parser := Parser(Strip(Strip(raw)[5..]), l.parser.eventName))
  {
  }

  /** A `data:` line whose payload is empty or blank leaves the whole state as it was. */
  lemma EmptyDataLineIsNoOp<H>(decode: string -> Option<Json>, l: Listener<H>, raw: string)
    requires raw != ""
    requires StartsWith(Strip(raw), "data:") && Strip(Strip(raw)[5..]) == ""
    ensures Step(decode, l, raw) == l
  {
  }

  /** An `event:` line sets the event name and nothing else. */
  lemma EventLineSetsNameOnly<H>(decode: string -> Option<Json>, l: Listener<H>, raw: string)
    requires l.live && raw != ""
    requires StartsWith(Strip(raw), "event:")
    ensures Step(decode, l, raw) == l.(parser := l.parser.(eventName := Strip(Strip(raw)[6..])))
  {
    var t := Strip(raw);
    assert t[..6][0] == 'e' && t[0] == 'e';
    assert !StartsWith(t, "data:");
    assert Classify(raw) == EventField(Strip(t[6..]));
  }

  /** `id:`, `retry:` and unrecognised lines leave the whole state as it was. */
  lemma OtherLinesAreNoOps<H>(decode: string -> Option<Json>, l: Listener<H>, raw: string)
    requires raw != ""
    requires !StartsWith(Strip(raw), "data:") && !StartsWith(Strip(raw), "event:")
    ensures Step(decode, l, raw) == l
  {
  }

  /** A line of whitespace only is not a blank line: it is unrecognised and ignored. */
  lemma WhitespaceLineIsNoOp<H>(decode: string -> Option<Json>, l: Listener<H>, raw: string)
    requires raw != "" && AllSpace(raw)
    ensures Step(decode, l, raw) == l
  {
  }

  /** A blank line with nothing buffered dispatches nothing and does not reset the event name. */
  lemma BlankLineWithEmptyBufferIsNoOp<H>(decode: string -> Option<Json>, l: Listener<H>)
    requires l.parser.buffer == ""
    ensures Step(decode, l, "") == l
  {
  }

  /** The buffer decodes to an object whose truthy `id` is a pending request id. */
  ghost predicate Matches<H>(decoded: Option<Json>, pending: map<string, H>, key: string)
  {
    && decoded.Some? && decoded.value.JObj?
    && GetOr(decoded.value.fields, "id", JNull) == JStr(key)
    && key != "" && key in pending
  }

  /** The blank-line cases that drop the event: undecodable text, or an object whose
      `id` is missing, falsy, or a number, boolean or string with no pending entry. */
  ghost predicate Dropped<H>(decoded: Option<Json>, pending: map<string, H>)
  {
    || decoded.None?
    || (&& decoded.Some? && decoded.value.JObj?
        && var id := GetOr(decoded.value.fields, "id", JNull);
        || !Truthy(id)
        || (Hashable(id) && !(id.JStr? && id.s in pending)))
  }

  /** The blank-line cases that raise out of the loop and end the listener. */
  ghost predicate Fatal(decoded: Option<Json>)
  {
    && decoded.Some?
    && (|| !decoded.value.JObj?
        || (var id := GetOr(decoded.value.fields, "id", JNull); Truthy(id) && !Hashable(id)))
  }

  /** A blank line ends a buffered event in exactly one of three ways. */
  lemma EndOfEventCases<H>(decoded: Option<Json>, pending: map<string, H>)
    ensures Fatal(decoded) || Dropped(decoded, pending)
            || (decoded.Some? && decoded.value.JObj?
                && var id := GetOr(decoded.value.fields, "id", JNull);
                id.JStr? && Matches(decoded, pending, id.s))
    ensures !(Fatal(decoded) && Dropped(decoded, pending))
    ensures forall k :: Matches(decoded, pending, k) ==> !Fatal(decoded) && !Dropped(decoded, pending)
  {
  }

  /** A blank line closing an event for a pending id removes exactly that entry, invokes
      its handler once with the whole decoded object, and resets the parser. */
  lemma BlankLineDispatches<H>(decode: string -> Option<Json>, l: Listener<H>, key: string)
    requires l.live && l.parser.buffer != ""
    requires Matches(decode(l.parser.buffer), l.pending, key)
    ensures Step(decode, l, "")
            == Listener(Fresh, l.pending - {key},
                        l.log + [Dispatch(key, l.pending[key], decode(l.parser.buffer).value.fields)], true)
  {
  }

  /** A blank line closing an event that matches nothing runs no handler, leaves the
      table as it was, and resets the parser. */
  lemma BlankLineDrops<H>(decode: string -> Option<Json>, l: Listener<H>)
    requires l.live && l.parser.buffer != ""
    requires Dropped(decode(l.parser.buffer), l.pending)
    ensures Step(decode, l, "") == l.(parser := Fresh)
  {
  }

  /** A blank line closing an event that is not an object, or whose truthy id is a
      list or dict, ends the listener with its table and parser as they were. */
  lemma BlankLineHalts<H>(decode: string -> Option<Json>, l: Listener<H>)
    requires l.live && l.parser.buffer != ""
    requires Fatal(decode(l.parser.buffer))
    ensures Step(decode, l, "") == l.(live := false)
  {
  }

  /** Two `data:` lines in a row keep only the second payload: no concatenation. */
  lemma DataLinesDoNotConcatenate<H>(decode: string -> Option<Json>, l: Listener<H>, a: string, b: string)
    requires l.live
    requires a != "" && Trimmed(a) && b != "" && Trimmed(b)
    ensures Run(decode, l, ["data:" + a, "data:" + b]).parser == Parser(b, l.parser.eventName)
  {
    DataLineIsField(a);
    DataLineIsField(b);
    var l1 := Step(decode, l, "data:" + a);
    assert ["data:" + a, "data:" + b][1..] == ["data:" + b];
    assert Run(decode, l1, ["data:" + b]) == Run(decode, Step(decode, l1, "data:" + b), []);
  }

  lemma DataLineIsField(v: string)
    requires v != "" && Trimmed(v)
    ensures Classify("data:" + v) == DataField(v)
  {
    var raw := "data:" + v;
    assert raw[0] == 'd' && raw[|raw| - 1] == v[|v| - 1];
    assert Strip(raw) == raw;
    assert raw[..5] == "data:";
    assert raw[5..] == v;
  }

  /** A `data: <payload>` line followed by a blank line, for a payload whose `id` is a
      pending request, invokes that request's handler with the decoded object. */
  lemma DataThenBlankDelivers<H>(decode: string -> Option<Json>, l: Listener<H>, payload: string, key: string)
    requires l.live && payload != "" && Trimmed(payload)
    requires Matches(decode(payload), l.pending, key)
    ensures Run(decode, l, ["data: " + payload, ""])
            == Listener(Fresh, l.pending - {key},
                        l.log + [Dispatch(key, l.pending[key], decode(payload).value.fields)], true)
  {
    var raw := "data: " + payload;
    PaddedDataLineIsField(payload);
    var l1 := Step(decode, l, raw);
    assert l1 == l.(parser := l.parser.(buffer := payload));
    assert [raw, ""][1..] == [""];
    BlankLineDispatches(decode, l1, key);
    assert Run(decode, l1, [""]) == Run(decode, Step(decode, l1, ""), []);
  }

  lemma PaddedDataLineIsField(v: string)
    requires v != "" && Trimmed(v)
    ensures Classify("data: " + v) == DataField(v)
  {
    var raw := "data: " + v;
    assert raw[0] == 'd' && raw[|raw| - 1] == v[|v| - 1];
    assert Strip(raw) == raw;
    assert raw[..5] == "data:";
    assert raw[5..] == " " + v;
    assert (" " + v)[1..] == v;
    assert TrimLeft(" " + v) == TrimLeft(v);
    assert Strip(" " + v) == v;
  }

  // ---------------------------------------------------------------------------
  // Whole runs
  // ---------------------------------------------------------------------------

  /** The request ids taken out of the table between `before` and `after`. */
  ghost function NewKeys<H>(before: Listener<H>, after: Listener<H>): set<string>
  {
    set i | |before.log| <= i < |after.log| :: after.log[i].key
  }

  /** Everything `after` did since `before` is accounted for by the table: the log only
      grew; each new invocation used an entry of the old table, with its own handler,
      and that entry is gone; no id was invoked twice; and the old table's ids are
      exactly the ones still pending plus the ones invoked. */
  ghost predicate Accounts<H>(before: Listener<H>, after: Listener<H>)
  {
    && |before.log| <= |after.log|
    && after.log[..|before.log|] == before.log
    && (forall k :: k in after.pending ==> k in before.pending && after.pending[k] == before.pending[k])
    && (forall i :: |before.log| <= i < |after.log| ==>
          && after.log[i].key in before.pending
          && after.log[i].handler == before.pending[after.log[i].key]
          && after.log[i].key !in after.pending)
    && (forall i, j :: |before.log| <= i < j < |after.log| ==> after.log[i].key != after.log[j].key)
    && before.pending.Keys == after.pending.Keys + NewKeys(before, after)
  }

  lemma StepAccounts<H>(decode: string -> Option<Json>, l: Listener<H>, raw: string)
    ensures Accounts(l, Step(decode, l, raw))
  {
    var r := Step(decode, l, raw);
    if r.log == l.log {
      assert r.log[..|l.log|] == l.log;
      assert NewKeys(l, r) == {};
    } else {
      var d := r.log[|l.log|];
      assert NewKeys(l, r) == {d.key};
    }
  }

  lemma AccountsTransitive<H>(a: Listener<H>, b: Listener<H>, c: Listener<H>)
    requires Accounts(a, b) && Accounts(b, c)
    ensures Accounts(a, c)
  {
    assert c.log[..|a.log|] == b.log[..|a.log|];
    forall i | |a.log| <= i < |b.log|
      ensures c.log[i] == b.log[i]
    {
      assert c.log[..|b.log|][i] == c.log[i];
    }
    forall i | |a.log| <= i < |c.log|
      ensures c.log[i].key in a.pending
      ensures c.log[i].handler == a.pending[c.log[i].key]
      ensures c.log[i].key !in c.pending
    {
      if i < |b.log| {
        assert c.log[i] == b.log[i];
      }
    }
    forall i, j | |a.log| <= i < j < |c.log|
      ensures c.log[i].key != c.log[j].key
    {
      if i < |b.log| && j >= |b.log| {
        assert c.log[i] == b.log[i];
        assert c.log[i].key !in b.pending;
        assert c.log[j].key in b.pending;
      } else if j < |b.log| {
        assert c.log[i] == b.log[i] && c.log[j] == b.log[j];
      }
    }
    assert NewKeys(a, c) == NewKeys(a, b) + NewKeys(b, c) by {
      forall k | k in NewKeys(a, c) ensures k in NewKeys(a, b) + NewKeys(b, c) {
        var i :| |a.log| <= i < |c.log| && c.log[i].key == k;
        if i < |b.log| {
          assert b.log[i].key == k;
        }
      }
      forall k | k in NewKeys(a, b) ensures k in NewKeys(a, c) {
        var i :| |a.log| <= i < |b.log| && b.log[i].key == k;
        assert c.log[i].key == k;
      }
    }
  }

  /** Over any stream of lines, the listener's table and log stay accounted for. */
  lemma {:induction false} RunAccounts<H>(decode: string -> Option<Json>, l: Listener<H>, lines: seq<string>)
    ensures Accounts(l, Run(decode, l, lines))
    decreases |lines|
  {
    if lines == [] {
      var r := Run(decode, l, lines);
      assert r == l;
      assert r.log[..|l.log|] == l.log;
      assert NewKeys(l, r) == {};
    } else {
      var l1 := Step(decode, l, lines[0]);
      StepAccounts(decode, l, lines[0]);
      RunAccounts(decode, l1, lines[1..]);
      AccountsTransitive(l, l1, Run(decode, l1, lines[1..]));
    }
  }

  /** From a fresh start over any stream: every invocation is of a handler registered
      under its id, no handler is invoked twice, and the table ends up holding exactly
      the entries that were never invoked. */
  lemma HandlersRunAtMostOnce<H>(decode: string -> Option<Json>, pending: map<string, H>, lines: seq<string>)
    ensures var r := Run(decode, Start(pending), lines);
            && (forall i :: 0 <= i < |r.log| ==>
                  r.log[i].key in pending && r.log[i].handler == pending[r.log[i].key])
            && (forall i, j :: 0 <= i < j < |r.log| ==> r.log[i].key != r.log[j].key)
            && (forall k :: k in r.pending <==> k in pending && forall i :: 0 <= i < |r.log| ==> r.log[i].key != k)
            && (forall k :: k in r.pending ==> r.pending[k] == pending[k])
  {
    var l := Start(pending);
    RunAccounts(decode, l, lines);
    var r := Run(decode, l, lines);
    forall k | k in pending && k !in r.pending
      ensures exists i :: 0 <= i < |r.log| && r.log[i].key == k
    {
      assert k in NewKeys(l, r);
    }
  }
}
