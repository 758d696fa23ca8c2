/**
 * One tool call through all its gates, in the order the executor applies them
 * (src/tools/tool-executor.ts).
 *
 * Argument parsing, the registry, the customer scope and the tool itself are
 * inputs: what parsing gave, whether the tool exists and writes, whether the
 * scope admits the call, and what the tool would return or throw.
 */
module ToolExecutor {
  import opened Common
  import opened IdempotencyGate
  import CB = CircuitBreaker

  datatype Tool = Tool(name: string, isWriteOperation: bool)

  datatype Outcome = Returned(result: ToolResult) | Threw(message: string)

  /** `confirm` is None when the arguments did not parse. */
  datatype Call = Call(
    confirm: Option<bool>,
    tool: Option<Tool>,
    tenantId: string,
    scopeOk: bool,
    allowConfirm: bool,
    explicitKey: string,
    key: Key,
    outcome: Outcome)

  /** The world as one call finds it. */
  datatype Env = Env(gateEnabled: bool, redis: RedisAnswer, dbUp: bool, completes: bool, now: int, doneAt: int)

  function ResultOf(o: Outcome): ToolResult {
    match o
    case Returned(r) => r
    case Threw(m) => ToolResult(false, m)
  }

  /** The confirm argument the tool would see: true only survives on the confirm channel. */
  function EffectiveConfirm(call: Call): bool {
    call.confirm == Some(true)
    && !(call.tool.Some? && call.tool.value.isWriteOperation && !call.allowConfirm)
  }

  predicate Admitted(call: Call) {
    call.confirm.Some? && call.tool.Some? && call.tenantId != "" && call.scopeOk
  }

  /** A real write: the only kind of call the idempotency gate looks at. */
  predicate RealWrite(call: Call) {
    call.tool.Some? && call.tool.value.isWriteOperation && EffectiveConfirm(call)
  }

  /** An explicit key that is present and not of the required form. */
  predicate MalformedKey(call: Call, env: Env) {
    env.gateEnabled && call.explicitKey != "" && !ValidExplicitKey(call.explicitKey)
  }

  predicate GateWorks(call: Call, env: Env) {
    env.gateEnabled && env.dbUp && !MalformedKey(call, env)
  }

  datatype Report = Report(ran: bool, confirmSeen: bool, result: Option<ToolResult>)

  /** What the gate says to a real write, and the row after its check. */
  function Checked(row: Option<Row>, call: Call, nextId: nat, env: Env): (Decision, Option<Row>) {
    if MalformedKey(call, env) then (Rejected, row)
    else if !GateWorks(call, env) then (Proceed(None), row)
    else
      var (decision, claimed) := MySqlOnly(row, call.key, nextId, env.now);
      (decision, Some(claimed))
  }

  /** For a call the breaker let through: the report, and the row of its key afterwards. */
  function Gated(row: Option<Row>, call: Call, nextId: nat, env: Env): (Report, Option<Row>) {
    if !RealWrite(call) then (Report(true, EffectiveConfirm(call), Some(ResultOf(call.outcome))), row)
    else
      var (decision, claimed) := Checked(row, call, nextId, env);
      match decision
      case Proceed(handle) =>
        (Report(true, true, Some(ResultOf(call.outcome))),
         if handle.Some? && env.completes && claimed.Some?
         then Some(Completed(claimed.value, ResultOf(call.outcome), env.doneAt)) else claimed)
      case Replayed(original, _) => (Report(false, false, Some(original)), claimed)
      case _ => (Report(false, false, None), claimed)
  }

  function WithRow(rows: map<Key, Row>, key: Key, row: Option<Row>): map<Key, Row> {
    if row.Some? then rows[key := row.value] else rows
  }

  /** The breaker's record of a tool after its call: `asked` is what the question left. */
  function Recorded(asked: Option<CB.BreakerState>, ran: bool, success: bool, at: int): Option<CB.BreakerState> {
    if !ran then asked
    else if !success then Some(CB.Failure(asked, at))
    else if asked.Some? then Some(CB.Success(asked.value))
    else None
  }

  class Executor {
    const breaker: CB.CircuitBreakerService
    const gate: IdempotencyTable

    constructor (breaker: CB.CircuitBreakerService, gate: IdempotencyTable)
      ensures this.breaker == breaker && this.gate == gate
    {
      this.breaker := breaker;
      this.gate := gate;
    }

    ghost function Asked(call: Call, now: int): (bool, Option<CB.BreakerState>)
      requires call.tool.Some?
      reads breaker
    {
      CB.Ask(breaker.cfg, CB.StateOf(breaker.states, call.tool.value.name), now)
    }

    /**
     * `report.result` is None for the executor's own refusals; `env.now` is
     * the time of the gate checks and `env.doneAt` that of the completion.
     */
    method ExecuteToolCall(call: Call, env: Env) returns (report: Report)
      requires gate.Valid()
      modifies breaker, gate
      ensures gate.Valid()
      // refused before the breaker is asked
      ensures call.confirm == None || call.tool == None || call.tenantId == "" || !call.scopeOk ==>
                !report.ran && report.result == None
                && gate.rows == old(gate.rows) && breaker.states == old(breaker.states)
      // refused by the breaker
      ensures Admitted(call) && !old(Asked(call, env.now)).0 ==>
                !report.ran && report.result == None && gate.rows == old(gate.rows)
      // let through: report and rows
      ensures Admitted(call) && old(Asked(call, env.now)).0 ==>
                var (expected, row) := Gated(RowOf(old(gate.rows), call.key), call, old(gate.nextId), env);
                report == expected && gate.rows == WithRow(old(gate.rows), call.key, row)
      // what a run teaches the breaker, and that nothing else does
      ensures report.ran ==>
                && call.tool.Some?
                && (ResultOf(call.outcome).success && call.tool.value.name in breaker.states ==>
                      var st := breaker.states[call.tool.value.name];
                      st.failureTimestamps == [] && st.openedAt == None && !st.halfOpen)
                && (!ResultOf(call.outcome).success ==>
                      && call.tool.value.name in breaker.states
                      && var times := breaker.states[call.tool.value.name].failureTimestamps;
                         times != [] && times[|times| - 1] == env.doneAt)
      // the breaker's records
      ensures Admitted(call) ==>
                CB.StateOf(breaker.states, call.tool.value.name)
                == Recorded(old(Asked(call, env.now)).1, report.ran, ResultOf(call.outcome).success, env.doneAt)
      ensures Admitted(call) ==>
                forall other | other != call.tool.value.name ::
                  CB.StateOf(breaker.states, other) == CB.StateOf(old(breaker.states), other)
    {
      hide Gated, CB.Ask, IdempotencyTable.Valid;
      report := Report(false, false, None);
      if call.confirm == None {
        return;
      }
      var confirm := call.confirm.value;
      if call.tool.Some? && call.tool.value.isWriteOperation && confirm && !call.allowConfirm {
        confirm := false;
      }
      if call.tool == None || call.tenantId == "" || !call.scopeOk {
        return;
      }
      var tool := call.tool.value;
      var ok := breaker.CanProceed(tool.name, env.now);
      if !ok {
        return;
      }
      report := RunGated(call, tool, confirm, env);
      if report.ran {
        if ResultOf(call.outcome).success {
          breaker.RecordSuccess(tool.name);
        } else {
          breaker.RecordFailure(tool.name, env.doneAt);
        }
      }
    }

    /** The gate, the tool and the completion: everything after the breaker let the call through. */
    method RunGated(call: Call, tool: Tool, confirm: bool, env: Env) returns (report: Report)
      requires gate.Valid() && call.tool == Some(tool) && confirm == EffectiveConfirm(call)
      modifies gate
      ensures gate.Valid()
      ensures var (expected, row) := Gated(RowOf(old(gate.rows), call.key), call, old(gate.nextId), env);
              report == expected && gate.rows == WithRow(old(gate.rows), call.key, row)
    {
      hide IdempotencyTable.Valid;
      var handle: Option<Handle> := None;
      if tool.isWriteOperation && confirm {
        var decision := CheckGate(call, env);
        match decision {
          case Replayed(original, _) =>
            return Report(false, false, Some(original));
          case Proceed(h) =>
            handle := h;
          case _ =>
            return Report(false, false, None);
        }
      }
      var result := ResultOf(call.outcome);
      if env.completes {
        Complete(call.key, handle, result, env.doneAt);
      }
      report := Report(true, confirm, Some(result));
    }

    method Complete(key: Key, handle: Option<Handle>, result: ToolResult, at: int)
      requires gate.Valid()
      requires handle.Some? ==> key in gate.rows && gate.rows[key].id == handle.value.id
      modifies gate
      ensures gate.Valid()
      ensures gate.rows == if handle.Some? then old(gate.rows)[key := Completed(old(gate.rows)[key], result, at)]
                           else old(gate.rows)
    {
      ghost var claimed := gate.rows;
      gate.Complete(handle, result, at);
      if handle.Some? {
        OnlyOneRowCompleted(claimed, gate.rows, handle, result, at, key);
      }
    }

    method CheckGate(call: Call, env: Env) returns (decision: Decision)
      requires gate.Valid()
      modifies gate
      ensures gate.Valid()
      ensures var (expected, row) := Checked(RowOf(old(gate.rows), call.key), call, old(gate.nextId), env);
              decision == expected && gate.rows == WithRow(old(gate.rows), call.key, row)
      ensures decision.Proceed? && decision.handle.Some? ==>
                call.key in gate.rows && gate.rows[call.key].id == decision.handle.value.id
    {
      decision := gate.Check(env.gateEnabled, call.explicitKey, call.key, env.redis, env.dbUp, env.now);
    }
  }

  /** Ids are distinct, so completing a handle touches the row of its key and no other. */
  lemma OnlyOneRowCompleted(
    before: map<Key, Row>, after: map<Key, Row>, handle: Option<Handle>, result: ToolResult, now: int, key: Key)
    requires after.Keys == before.Keys && key in before && handle.Some? && before[key].id == handle.value.id
    requires forall k, l | k in before && l in before && before[k].id == before[l].id :: k == l
    requires forall k | k in after ::
               after[k] == if before[k].id == handle.value.id then Completed(before[k], result, now) else before[k]
    ensures after == before[key := Completed(before[key], result, now)]
  {
  }

  // ---- what the gates promise together ------------------------------------------------

  /** What a tool that runs sees as confirm: the argument itself, for a write only on the confirm channel. */
  lemma WritesRunOnlyWhenConfirmed(row: Option<Row>, call: Call, nextId: nat, env: Env)
    requires call.tool.Some?
    ensures var report := Gated(row, call, nextId, env).0;
            report.confirmSeen
            <==> report.ran && call.confirm == Some(true) && (call.tool.value.isWriteOperation ==> call.allowConfirm)
  {
  }

  /** A write, confirmed on the confirm channel. */
  lemma RealWriteIff(call: Call)
    ensures RealWrite(call)
            <==> call.tool.Some? && call.tool.value.isWriteOperation && call.allowConfirm && call.confirm == Some(true)
  {
  }

  /** Exactly which calls the gate keeps from running, once the breaker let them through. */
  lemma RunsUnlessTheGateStopsIt(row: Option<Row>, call: Call, nextId: nat, env: Env)
    ensures var confirmed := call.tool.Some? && call.tool.value.isWriteOperation && call.allowConfirm && call.confirm == Some(true);
            var malformed := call.explicitKey != "" && !ValidExplicitKey(call.explicitKey);
            Gated(row, call, nextId, env).0.ran
            <==> !(confirmed && env.gateEnabled && (malformed || (env.dbUp && row.Some? && row.value.status != Failed)))
  {
  }

  /** Whatever runs reports what the tool returned, or the failure it threw; nothing else does. */
  lemma RunReportsItsOutcome(row: Option<Row>, call: Call, nextId: nat, env: Env)
    ensures var report := Gated(row, call, nextId, env).0;
            report.ran ==> report.result == Some(match call.outcome
                                                 case Returned(r) => r
                                                 case Threw(m) => ToolResult(false, m))
    ensures var report := Gated(row, call, nextId, env).0;
            !report.ran && report.result.Some? ==>
              row.Some? && row.value.status == Succeeded && row.value.json == Encoded(report.result.value)
  {
  }

  /** Without a working database a real write runs and no row is touched; a malformed key runs nothing. */
  lemma WithoutTheTable(row: Option<Row>, call: Call, nextId: nat, env: Env)
    requires RealWrite(call) && !GateWorks(call, env)
    ensures Gated(row, call, nextId, env).1 == row
    ensures Gated(row, call, nextId, env).0
            == if env.gateEnabled && call.explicitKey != "" && !ValidExplicitKey(call.explicitKey)
               then Report(false, false, None) else Report(true, true, Some(ResultOf(call.outcome)))
  {
  }

  /** A repeated real write returns the first success without running the tool, whatever its own outcome would be. */
  lemma RepeatReplaysSuccess(row: Option<Row>, first: Call, again: Call, nextId: nat, later: nat, env: Env, env': Env)
    requires RealWrite(first) && GateWorks(first, env) && env.completes && RealWrite(again) && GateWorks(again, env')
    requires Gated(row, first, nextId, env).0.ran && ResultOf(first.outcome).success
    ensures var (report, settled) := Gated(Gated(row, first, nextId, env).1, again, later, env');
            && report == Report(false, false, Some(ResultOf(first.outcome)))
            && settled == Gated(row, first, nextId, env).1
  {
  }

  /** After a failure the same key runs the tool again, on the same row. */
  lemma RepeatRetriesFailure(row: Option<Row>, first: Call, again: Call, nextId: nat, later: nat, env: Env, env': Env)
    requires RealWrite(first) && GateWorks(first, env) && env.completes && RealWrite(again) && GateWorks(again, env')
    requires Gated(row, first, nextId, env).0.ran && !ResultOf(first.outcome).success
    ensures var (report, retried) := Gated(Gated(row, first, nextId, env).1, again, later, env');
            && report.ran && report.result == Some(ResultOf(again.outcome))
            && retried.Some? && Gated(row, first, nextId, env).1.Some?
            && retried.value.id == Gated(row, first, nextId, env).1.value.id
  {
  }
}
