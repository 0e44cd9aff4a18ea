/** `sql_gen_and_execute`: generate SQL for a question, execute it, and when
    execution fails ask the model up to three times to repair it, stopping at
    the first candidate that executes. The last candidate is always the one
    whose truncated result is rendered. The model, the SQL extraction and the
    database are oracles passed in as functions. */
module SqlRepair {
  import opened Results
  import opened Text

  /** The repair budget after a failed first execution. */
  const MaxRepairs: nat := 3

  /** The row cap passed to `fetch_truncated`. */
  const MaxRows: nat := 100

  /** What the executor knows about the database: its dialect and its schema text ("mschema"). */
  datatype DbEnv = DbEnv(dialect: string, mschema: string)

  /** The arguments of one `sql_fix` call. */
  datatype FixRequest = FixRequest(dialect: string, mschema: string, query: string, sql: string, errorInfo: string)

  /** `database.fetch(sql)`: the status flag and `str(res)` of its result. */
  datatype Exec = Exec(ok: bool, res: string)

  /** The outside world of the executor. Each oracle returns `Failure(str(e))`
      when the call raises.
      - `generate(env, query)`: the first model call followed by SQL extraction.
      - `fix(idx, request)`: the `idx`-th `sql_fix` call (model call and extraction).
      - `fetch(sql)`: `database.fetch`.
      - `render(sql, rows)`: `fetch_truncated` followed by `trunc_result_to_markdown`. */
  datatype Oracles = Oracles(
    generate: (DbEnv, string) -> Result<string, string>,
    fix: (nat, FixRequest) -> Result<string, string>,
    fetch: string -> Result<Exec, string>,
    render: (string, nat) -> Result<string, string>)

  /** The repair requests sent to the model, the candidates executed in order,
      and the candidate handed to `fetch_truncated`, if the run got that far. */
  datatype Trace = Trace(fixes: seq<FixRequest>, fetches: seq<string>, truncated: Option<string>)

  /** The text returned, and what the run did on its way there. */
  datatype Reply = Reply(text: string, trace: Trace)

  /** Model calls made: the generation plus one per repair request. */
  function ModelCalls(t: Trace): nat
  {
    1 + |t.fixes|
  }

  /** The repair loop from iteration `idx` on, entered with the candidate `sql`
      whose execution gave the failing `status`. `sql` is the last candidate
      when the loop ends; `raised` holds `str(e)` if an oracle raised. */
  datatype Loop = Loop(sql: string, fixes: seq<FixRequest>, fetches: seq<string>, raised: Option<string>)

  /** Every repair was sent the candidate before it and `str` of that candidate's
      failing result; every candidate after the first came back from the repair
      before it; and every candidate but the last failed to execute. */
  ghost predicate Chained(o: Oracles, env: DbEnv, query: string, idx: nat, sql: string, status: Exec,
                          fixes: seq<FixRequest>, fetches: seq<string>)
  {
    && |fetches| <= |fixes| <= |fetches| + 1
    && (forall i :: 0 <= i < |fixes| ==>
          fixes[i].dialect == env.dialect && fixes[i].mschema == env.mschema && fixes[i].query == query)
    && (|fixes| > 0 ==> fixes[0].sql == sql && fixes[0].errorInfo == status.res)
    && (forall i {:trigger fetches[i]} :: 0 <= i < |fetches| ==> o.fix(idx + i, fixes[i]) == Success(fetches[i]))
    && (forall i {:trigger fetches[i]} :: 0 <= i < |fetches| && i + 1 < |fixes| ==>
          fixes[i + 1].sql == fetches[i] && o.fetch(fetches[i]) == Success(Exec(false, fixes[i + 1].errorInfo)))
  }

  function Repair(o: Oracles, env: DbEnv, query: string, idx: nat, sql: string, status: Exec): (r: Loop)
    requires idx <= MaxRepairs
    ensures |r.fixes| <= MaxRepairs - idx
    ensures |r.fetches| <= |r.fixes| <= |r.fetches| + 1
    decreases MaxRepairs - idx
  {
    if idx == MaxRepairs then Loop(sql, [], [], None)
    else
      var request := FixRequest(env.dialect, env.mschema, query, sql, status.res);
      match o.fix(idx, request)
      case Failure(e) => Loop(sql, [request], [], Some(e))
      case Success(next) =>
        match o.fetch(next)
        case Failure(e) => Loop(next, [request], [next], Some(e))
        case Success(nextStatus) =>
          if nextStatus.ok then Loop(next, [request], [next], None)
          else
            var rest := Repair(o, env, query, idx + 1, next, nextStatus);
            Loop(rest.sql, [request] + rest.fixes, [next] + rest.fetches, rest.raised)
  }

  /** The loop ends on its last candidate, and without an exception every repair's
      candidate was executed. */
  lemma {:induction false} RepairEndsOnLastCandidate(o: Oracles, env: DbEnv, query: string, idx: nat, sql: string, status: Exec)
    requires idx <= MaxRepairs
    ensures var r := Repair(o, env, query, idx, sql, status);
            && r.sql == (if r.fetches == [] then sql else r.fetches[|r.fetches| - 1])
            && (r.raised.None? ==> |r.fetches| == |r.fixes|)
    decreases MaxRepairs - idx
  {
    if idx < MaxRepairs {
      var request := FixRequest(env.dialect, env.mschema, query, sql, status.res);
      if o.fix(idx, request).Success? {
        var next := o.fix(idx, request).value;
        if o.fetch(next).Success? && !o.fetch(next).value.ok {
          RepairEndsOnLastCandidate(o, env, query, idx + 1, next, o.fetch(next).value);
        }
      }
    }
  }

  /** A loop that ends before its budget is spent, without an exception, ends on a
      candidate that executed successfully. */
  lemma {:induction false} RepairStopsOnSuccess(o: Oracles, env: DbEnv, query: string, idx: nat, sql: string, status: Exec)
    requires idx <= MaxRepairs
    ensures var r := Repair(o, env, query, idx, sql, status);
            r.raised.None? && |r.fixes| < MaxRepairs - idx ==>
              |r.fetches| > 0 && o.fetch(r.sql).Success? && o.fetch(r.sql).value.ok
    decreases MaxRepairs - idx
  {
    RepairEndsOnLastCandidate(o, env, query, idx, sql, status);
    if idx < MaxRepairs {
      var request := FixRequest(env.dialect, env.mschema, query, sql, status.res);
      if o.fix(idx, request).Success? {
        var next := o.fix(idx, request).value;
        if o.fetch(next).Success? && !o.fetch(next).value.ok {
          RepairStopsOnSuccess(o, env, query, idx + 1, next, o.fetch(next).value);
          RepairEndsOnLastCandidate(o, env, query, idx + 1, next, o.fetch(next).value);
        }
      }
    }
  }

  /** A failed repaired candidate in front of a chained rest of the loop gives a
      chained loop one iteration earlier. */
  lemma ChainedExtend(o: Oracles, env: DbEnv, query: string, idx: nat, sql: string, status: Exec,
                      next: string, nextStatus: Exec, fixes: seq<FixRequest>, fetches: seq<string>)
    requires o.fix(idx, FixRequest(env.dialect, env.mschema, query, sql, status.res)) == Success(next)
    requires o.fetch(next) == Success(nextStatus) && !nextStatus.ok
    requires Chained(o, env, query, idx + 1, next, nextStatus, fixes, fetches)
    ensures Chained(o, env, query, idx, sql, status,
                    [FixRequest(env.dialect, env.mschema, query, sql, status.res)] + fixes, [next] + fetches)
  {
    var request := FixRequest(env.dialect, env.mschema, query, sql, status.res);
    var fixes' := [request] + fixes;
    var fetches' := [next] + fetches;
    forall i | 0 <= i < |fixes'|
      ensures fixes'[i].dialect == env.dialect && fixes'[i].mschema == env.mschema && fixes'[i].query == query
    {
      if i > 0 {
        assert fixes'[i] == fixes[i - 1];
      }
    }
    forall i | 0 <= i < |fetches'|
      ensures o.fix(idx + i, fixes'[i]) == Success(fetches'[i])
    {
      if i > 0 {
        assert fetches'[i] == fetches[i - 1] && fixes'[i] == fixes[i - 1];
      }
    }
    forall i | 0 <= i < |fetches'| && i + 1 < |fixes'|
      ensures fixes'[i + 1].sql == fetches'[i] && o.fetch(fetches'[i]) == Success(Exec(false, fixes'[i + 1].errorInfo))
    {
      if i > 0 {
        assert fetches'[i] == fetches[i - 1] && fixes'[i + 1] == fixes[i];
      }
    }
  }

  /** Every repair the loop sends is chained to the candidate before it. */
  lemma {:induction false} RepairIsChained(o: Oracles, env: DbEnv, query: string, idx: nat, sql: string, status: Exec)
    requires idx <= MaxRepairs
    ensures var r := Repair(o, env, query, idx, sql, status);
            Chained(o, env, query, idx, sql, status, r.fixes, r.fetches)
    decreases MaxRepairs - idx
  {
    if idx < MaxRepairs {
      var request := FixRequest(env.dialect, env.mschema, query, sql, status.res);
      if o.fix(idx, request).Success? {
        var next := o.fix(idx, request).value;
        if o.fetch(next).Success? && !o.fetch(next).value.ok {
          var nextStatus := o.fetch(next).value;
          RepairIsChained(o, env, query, idx + 1, next, nextStatus);
          var rest := Repair(o, env, query, idx + 1, next, nextStatus);
          ChainedExtend(o, env, query, idx, sql, status, next, nextStatus, rest.fixes, rest.fetches);
        }
      }
    }
  }

  /** A loop that ends with an exception carries the message of the call that raised:
      the last repair request, or the execution of the last candidate. */
  lemma {:induction false} RepairRaised(o: Oracles, env: DbEnv, query: string, idx: nat, sql: string, status: Exec)
    requires idx <= MaxRepairs
    ensures var r := Repair(o, env, query, idx, sql, status);
            r.raised.Some? ==>
              || (|r.fixes| == |r.fetches| + 1
                  && o.fix(idx + |r.fixes| - 1, r.fixes[|r.fixes| - 1]) == Failure(r.raised.value))
              || (|r.fixes| == |r.fetches| > 0 && o.fetch(r.fetches[|r.fetches| - 1]) == Failure(r.raised.value))
    decreases MaxRepairs - idx
  {
    if idx < MaxRepairs {
      var request := FixRequest(env.dialect, env.mschema, query, sql, status.res);
      if o.fix(idx, request).Success? {
        var next := o.fix(idx, request).value;
        if o.fetch(next).Success? && !o.fetch(next).value.ok {
          var rest := Repair(o, env, query, idx + 1, next, o.fetch(next).value);
          RepairRaised(o, env, query, idx + 1, next, o.fetch(next).value);
          var r := Repair(o, env, query, idx, sql, status);
          assert r.fixes == [request] + rest.fixes && r.fetches == [next] + rest.fetches;
          if |rest.fixes| > 0 {
            assert r.fixes[|r.fixes| - 1] == rest.fixes[|rest.fixes| - 1];
          }
          if |rest.fetches| > 0 {
            assert r.fetches[|r.fetches| - 1] == rest.fetches[|rest.fetches| - 1];
          }
        }
      }
    }
  }

  /** `sql_gen_and_execute`, as a function of its oracles. */
  function GenAndExecute(o: Oracles, env: DbEnv, query: string): (reply: Reply)
    ensures |reply.trace.fixes| <= MaxRepairs && ModelCalls(reply.trace) <= MaxRepairs + 1
    ensures |reply.trace.fetches| <= MaxRepairs + 1
  {
    match o.generate(env, query)
    case Failure(e) => Reply(e, Trace([], [], None))
    case Success(first) =>
      match o.fetch(first)
      case Failure(e) => Reply(e, Trace([], [first], None))
      case Success(status) =>
        var loop := if status.ok then Loop(first, [], [], None) else Repair(o, env, query, 0, first, status);
        var trace := Trace(loop.fixes, [first] + loop.fetches, None);
        if loop.raised.Some? then Reply(loop.raised.value, trace)
        else match o.render(loop.sql, MaxRows)
          case Failure(e) => Reply(e, trace.(truncated := Some(loop.sql)))
          case Success(markdown) => Reply(Strip(markdown), trace.(truncated := Some(loop.sql)))
  }

  /** How one iteration of the repair loop ends: the loop stops with its outcome,
      or continues with the failing candidate the repair produced. */
  datatype Iteration =
    | Stop(outcome: Loop)
    | Continue(request: FixRequest, next: string, nextStatus: Exec)

  /** One pass of the loop body: ask for a repair, execute it, and stop on success
      or on an exception. */
  method RepairOnce(o: Oracles, env: DbEnv, query: string, idx: nat, sql: string, status: Exec)
    returns (it: Iteration)
    requires idx < MaxRepairs
    ensures it.Stop? ==> it.outcome == Repair(o, env, query, idx, sql, status)
    ensures it.Continue? ==>
              && it.request == FixRequest(env.dialect, env.mschema, query, sql, status.res)
              && o.fix(idx, it.request) == Success(it.next)
              && o.fetch(it.next) == Success(it.nextStatus) && !it.nextStatus.ok
              && var rest := Repair(o, env, query, idx + 1, it.next, it.nextStatus);
                 Repair(o, env, query, idx, sql, status)
                 == Loop(rest.sql, [it.request] + rest.fixes, [it.next] + rest.fetches, rest.raised)
  {
    var request := FixRequest(env.dialect, env.mschema, query, sql, status.res);
    var repaired := o.fix(idx, request);
    if repaired.Failure? {
      return Stop(Loop(sql, [request], [], Some(repaired.error)));
    }
    var next := repaired.value;
    var fetched := o.fetch(next);
    if fetched.Failure? {
      return Stop(Loop(next, [request], [next], Some(fetched.error)));
    }
    if fetched.value.ok {
      return Stop(Loop(next, [request], [next], None));
    }
    return Continue(request, next, fetched.value);
  }

  /** The `for idx in range(3)` loop of `sql_gen_and_execute` as the source writes
      it: repair, execute, and break on the first success; an oracle that raises
      ends the loop with its message. */
  method RepairLoop(o: Oracles, env: DbEnv, query: string, first: string, firstStatus: Exec) returns (loop: Loop)
    ensures loop == Repair(o, env, query, 0, first, firstStatus)
  {
    var sql := first;
    var status := firstStatus;
    var fixes: seq<FixRequest> := [];
    var fetches: seq<string> := [];
    var idx := 0;
    while idx < MaxRepairs
      invariant 0 <= idx <= MaxRepairs
      invariant var rest := Repair(o, env, query, idx, sql, status);
                Repair(o, env, query, 0, first, firstStatus)
                == Loop(rest.sql, fixes + rest.fixes, fetches + rest.fetches, rest.raised)
    {
      var it := RepairOnce(o, env, query, idx, sql, status);
      if it.Stop? {
        return Loop(it.outcome.sql, fixes + it.outcome.fixes, fetches + it.outcome.fetches, it.outcome.raised);
      }
      ghost var rest := Repair(o, env, query, idx + 1, it.next, it.nextStatus);
      assert fixes + ([it.request] + rest.fixes) == (fixes + [it.request]) + rest.fixes;
      assert fetches + ([it.next] + rest.fetches) == (fetches + [it.next]) + rest.fetches;
      fixes := fixes + [it.request];
      fetches := fetches + [it.next];
      sql, status := it.next, it.nextStatus;
      idx := idx + 1;
    }
    return Loop(sql, fixes, fetches, None);
  }

  /** `sql_gen_and_execute` as the source writes it: one generation and one
      execution, the repair loop only if that execution failed, then the
      truncated fetch of whichever candidate came last. */
  method SqlGenAndExecute(o: Oracles, env: DbEnv, query: string) returns (reply: Reply)
    ensures reply == GenAndExecute(o, env, query)
  {
    var generated := o.generate(env, query);
    if generated.Failure? {
      return Reply(generated.error, Trace([], [], None));
    }
    var first := generated.value;
    var fetched := o.fetch(first);
    if fetched.Failure? {
      return Reply(fetched.error, Trace([], [first], None));
    }
    var loop := Loop(first, [], [], None);
    if !fetched.value.ok {
      loop := RepairLoop(o, env, query, first, fetched.value);
    }
    var trace := Trace(loop.fixes, [first] + loop.fetches, None);
    if loop.raised.Some? {
      return Reply(loop.raised.value, trace);
    }
    var rendered := o.render(loop.sql, MaxRows);
    if rendered.Failure? {
      return Reply(rendered.error, trace.(truncated := Some(loop.sql)));
    }
    return Reply(Strip(rendered.value), trace.(truncated := Some(loop.sql)));
  }

  // ---------------------------------------------------------------------------
  // Properties of a whole run
  // ---------------------------------------------------------------------------

  /** When the first candidate executes, no repair is requested and that candidate
      is the one whose truncated result is rendered. */
  lemma FirstSuccessSkipsRepair(o: Oracles, env: DbEnv, query: string, first: string)
    requires o.generate(env, query) == Success(first)
    requires o.fetch(first).Success? && o.fetch(first).value.ok
    ensures var t := GenAndExecute(o, env, query).trace;
            t.fixes == [] && t.fetches == [first] && t.truncated == Some(first) && ModelCalls(t) == 1
  {
  }

  /** Each repair is asked about the most recent candidate, with `str` of that
      candidate's failing result, and every executed candidate but the last
      failed: nothing is repaired after a success. */
  lemma RepairsFollowFailures(o: Oracles, env: DbEnv, query: string)
    ensures var t := GenAndExecute(o, env, query).trace;
            && (forall i :: 0 <= i < |t.fixes| ==>
                  && i < |t.fetches|
                  && t.fixes[i] == FixRequest(env.dialect, env.mschema, query, t.fetches[i], t.fixes[i].errorInfo)
                  && o.fetch(t.fetches[i]) == Success(Exec(false, t.fixes[i].errorInfo)))
            && (forall i :: 0 <= i < |t.fetches| - 1 ==> o.fetch(t.fetches[i]).Success? && !o.fetch(t.fetches[i]).value.ok)
  {
    if o.generate(env, query).Success? {
      var first := o.generate(env, query).value;
      if o.fetch(first).Success? && !o.fetch(first).value.ok {
        var status := o.fetch(first).value;
        RepairIsChained(o, env, query, 0, first, status);
        var loop := Repair(o, env, query, 0, first, status);
        var t := GenAndExecute(o, env, query).trace;
        assert t.fixes == loop.fixes && t.fetches == [first] + loop.fetches;
        forall i | 0 <= i < |t.fixes|
          ensures i < |t.fetches|
          ensures t.fixes[i] == FixRequest(env.dialect, env.mschema, query, t.fetches[i], t.fixes[i].errorInfo)
          ensures o.fetch(t.fetches[i]) == Success(Exec(false, t.fixes[i].errorInfo))
        {
          if i > 0 {
            assert t.fetches[i] == loop.fetches[i - 1];
          }
        }
      }
    }
  }

  /** The repair requests and executed candidates of a run: those of the repair
      loop after a failed first execution, and otherwise no repair and at most the
      first candidate. */
  lemma TraceOfRun(o: Oracles, env: DbEnv, query: string)
    ensures var t := GenAndExecute(o, env, query).trace;
            var g := o.generate(env, query);
            if g.Success? && o.fetch(g.value).Success? && !o.fetch(g.value).value.ok then
              var loop := Repair(o, env, query, 0, g.value, o.fetch(g.value).value);
              && t.fixes == loop.fixes && t.fetches == [g.value] + loop.fetches
              && (t.truncated.Some? <==> loop.raised.None?)
              && (t.truncated.Some? ==> t.truncated.value == loop.sql)
            else
              && t.fixes == [] && |t.fetches| <= 1
              && (t.truncated.Some? ==> g.Success? && o.fetch(g.value).Success? && t.truncated == Some(g.value)
                                        && t.fetches == [g.value])
  {
  }

  /** Each candidate after the first is exactly what the repair before it returned. */
  lemma CandidatesComeFromRepairs(o: Oracles, env: DbEnv, query: string)
    ensures var t := GenAndExecute(o, env, query).trace;
            forall i :: 0 <= i < |t.fetches| - 1 ==> i < |t.fixes| && o.fix(i, t.fixes[i]) == Success(t.fetches[i + 1])
  {
    TraceOfRun(o, env, query);
    var t := GenAndExecute(o, env, query).trace;
    var g := o.generate(env, query);
    if g.Success? && o.fetch(g.value).Success? && !o.fetch(g.value).value.ok {
      var status := o.fetch(g.value).value;
      RepairIsChained(o, env, query, 0, g.value, status);
      var loop := Repair(o, env, query, 0, g.value, status);
      forall i | 0 <= i < |t.fetches| - 1
        ensures i < |t.fixes| && o.fix(i, t.fixes[i]) == Success(t.fetches[i + 1])
      {
        assert t.fetches[i + 1] == loop.fetches[i];
      }
    }
  }

  /** The candidate given to `fetch_truncated` is the last one produced, and it is
      either one that executed or the third repair. */
  lemma LastCandidateIsRendered(o: Oracles, env: DbEnv, query: string)
    ensures var t := GenAndExecute(o, env, query).trace;
            t.truncated.Some? ==>
              && |t.fetches| > 0 && t.truncated.value == t.fetches[|t.fetches| - 1]
              && |t.fetches| == |t.fixes| + 1
              && ((o.fetch(t.truncated.value).Success? && o.fetch(t.truncated.value).value.ok)
                  || |t.fixes| == MaxRepairs)
  {
    TraceOfRun(o, env, query);
    var g := o.generate(env, query);
    if g.Success? && o.fetch(g.value).Success? && !o.fetch(g.value).value.ok {
      var status := o.fetch(g.value).value;
      RepairEndsOnLastCandidate(o, env, query, 0, g.value, status);
      RepairStopsOnSuccess(o, env, query, 0, g.value, status);
    }
  }

  /** A run that gets as far as `fetch_truncated` returns the stripped markdown, or
      `str(e)` when rendering raised. */
  lemma RenderedReply(o: Oracles, env: DbEnv, query: string)
    ensures var reply := GenAndExecute(o, env, query);
            reply.trace.truncated.Some? ==>
              reply.text == (match o.render(reply.trace.truncated.value, MaxRows)
                             case Success(markdown) => Strip(markdown)
                             case Failure(e) => e)
  {
    TraceOfRun(o, env, query);
  }

  /** A run that stops before `fetch_truncated` returns `str(e)` of the one call
      that raised: the generation, the last execution, or the last repair request. */
  lemma RaisedReply(o: Oracles, env: DbEnv, query: string)
    ensures var reply := GenAndExecute(o, env, query);
            var t := reply.trace;
            t.truncated.None? ==>
              || (t.fetches == [] && o.generate(env, query) == Failure(reply.text))
              || (|t.fetches| == |t.fixes| + 1 && o.fetch(t.fetches[|t.fetches| - 1]) == Failure(reply.text))
              || (0 < |t.fixes| == |t.fetches|
                  && o.fix(|t.fixes| - 1, t.fixes[|t.fixes| - 1]) == Failure(reply.text))
  {
    TraceOfRun(o, env, query);
    var g := o.generate(env, query);
    if g.Success? && o.fetch(g.value).Success? && !o.fetch(g.value).value.ok {
      var status := o.fetch(g.value).value;
      var reply := GenAndExecute(o, env, query);
      var loop := Repair(o, env, query, 0, g.value, status);
      RepairRaised(o, env, query, 0, g.value, status);
      if loop.raised.Some? {
        assert reply.text == loop.raised.value;
        if |loop.fetches| > 0 {
          assert reply.trace.fetches[|reply.trace.fetches| - 1] == loop.fetches[|loop.fetches| - 1];
        }
      }
    }
  }

  /** Two failed executions and then a success: three model calls, and the third
      candidate's rendered result. */
  lemma TwoFailuresThenSuccess(o: Oracles, env: DbEnv, query: string, candidates: seq<string>, markdown: string)
    requires |candidates| == 3
    requires o.generate(env, query) == Success(candidates[0])
    requires forall request :: o.fix(0, request) == Success(candidates[1])
    requires forall request :: o.fix(1, request) == Success(candidates[2])
    requires o.fetch(candidates[0]).Success? && !o.fetch(candidates[0]).value.ok
    requires o.fetch(candidates[1]).Success? && !o.fetch(candidates[1]).value.ok
    requires o.fetch(candidates[2]).Success? && o.fetch(candidates[2]).value.ok
    requires o.render(candidates[2], MaxRows) == Success(markdown)
    ensures var reply := GenAndExecute(o, env, query);
            && ModelCalls(reply.trace) == 3
            && reply.trace.fetches == candidates
            && reply.trace.truncated == Some(candidates[2])
            && reply.text == Strip(markdown)
  {
    var s0 := o.fetch(candidates[0]).value;
    var s1 := o.fetch(candidates[1]).value;
    var r2 := Repair(o, env, query, 2, candidates[2], o.fetch(candidates[2]).value);
    var r1 := Repair(o, env, query, 1, candidates[1], s1);
    assert r1.fetches == [candidates[2]];
    var r0 := Repair(o, env, query, 0, candidates[0], s0);
    assert r0.fetches == [candidates[1], candidates[2]];
    assert [candidates[0]] + r0.fetches == candidates;
  }

  /** Every execution fails: one generation and three repairs make four model calls,
      four executions, and the third repair is still rendered. */
  lemma AllRepairsFail(o: Oracles, env: DbEnv, query: string, candidates: seq<string>)
    requires |candidates| == 4
    requires o.generate(env, query) == Success(candidates[0])
    requires forall i, request :: 0 <= i < 3 ==> o.fix(i, request) == Success(candidates[i + 1])
    requires forall i :: 0 <= i < 4 ==> o.fetch(candidates[i]).Success? && !o.fetch(candidates[i]).value.ok
    ensures var reply := GenAndExecute(o, env, query);
            && ModelCalls(reply.trace) == 4
            && reply.trace.fetches == candidates
            && reply.trace.truncated == Some(candidates[3])
  {
    var fails := i requires 0 <= i < 4 => o.fetch(candidates[i]).value;
    assert o.fix(0, FixRequest(env.dialect, env.mschema, query, candidates[0], fails(0).res)) == Success(candidates[1]);
    assert o.fix(1, FixRequest(env.dialect, env.mschema, query, candidates[1], fails(1).res)) == Success(candidates[2]);
    assert o.fix(2, FixRequest(env.dialect, env.mschema, query, candidates[2], fails(2).res)) == Success(candidates[3]);
    var r3 := Repair(o, env, query, 3, candidates[3], fails(3));
    var r2 := Repair(o, env, query, 2, candidates[2], fails(2));
    assert r2.fetches == [candidates[3]];
    var r1 := Repair(o, env, query, 1, candidates[1], fails(1));
    assert r1.fetches == [candidates[2], candidates[3]];
    var r0 := Repair(o, env, query, 0, candidates[0], fails(0));
    assert r0.fetches == [candidates[1], candidates[2], candidates[3]];
    assert [candidates[0]] + r0.fetches == candidates;
  }
}
